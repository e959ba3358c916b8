/** The tunnel pool as a protocol: reconcile passes of any number of watchers,
    snapshots, session ends, dial loops ending, and cancellations, interleaved at
    every point where the pool's lock is not held. */
module PoolProtocol {
  import opened Agents

  // Where a pass is. A pass that is over is not kept.
  datatype Stage =
    | Reading(wanted: set<string>)                              // has read what the registry wants
    | Working(queue: seq<Todo>)                                 // about to look at its context
    | Dialling(cur: Todo, queue: seq<Todo>)                     // inside establish, no dial slot yet
    | Watching(cur: Todo, serial: nat, queue: seq<Todo>)        // holds a dial slot, not installed
    | Releasing(cur: Todo, queue: seq<Todo>)                    // installed or failed, claim still held

  datatype Pass = Pass(dialler: string, stage: Stage)

  /** slots is each agent's one dial slot: the serial of the tunnel that watches it.
      closing is the tunnels dropped from conns and not closed yet. */
  datatype Pool = Pool(conns: Conns, latest: Latest, claims: set<string>, slots: map<string, nat>,
                       closing: set<AgentConn>, passes: map<nat, Pass>, next: nat)

  datatype Step =
    | Begin(p: nat, dialler: string, wanted: set<string>)
    | Decide(p: nat, rebuilt: seq<string>, missing: seq<string>)
    | Take(p: nat)
    | FailDial(p: nat)
    | WatchDial(p: nat)
    | Install(p: nat)
    | Release(p: nat)
    | Finish(p: nat)
    | Cancel(p: nat)
    | Snapshot(ns: string, agents: seq<AgentPod>)
    | CloseNamespace(ns: string)
    | CloseTunnel(ac: AgentConn)
    | LoopExit(k: string)
    | SlotLost(k: string)

  ghost predicate Enabled(s: Pool, step: Step) {
    match step
    case Begin(p, dialler, wanted) => p !in s.passes
    case Decide(p, rebuilt, missing) =>
      && p in s.passes && s.passes[p].stage.Reading?
      && Enumerates(rebuilt, Changed(s.conns, s.latest, s.passes[p].stage.wanted))
      && Enumerates(missing, Missing(s.conns, s.latest, s.passes[p].stage.wanted, s.claims))
    case Take(p) => p in s.passes && s.passes[p].stage.Working? && s.passes[p].stage.queue != []
    case FailDial(p) => p in s.passes && s.passes[p].stage.Dialling?
    case WatchDial(p) => p in s.passes && s.passes[p].stage.Dialling? && Dialable(s.passes[p].stage.cur.ai)
    case Install(p) => p in s.passes && s.passes[p].stage.Watching?
    case Release(p) => p in s.passes && s.passes[p].stage.Releasing?
    case Finish(p) => p in s.passes && s.passes[p].stage.Working? && s.passes[p].stage.queue == []
    case Cancel(p) => p in s.passes && s.passes[p].stage.Working? && s.passes[p].stage.queue != []
    case Snapshot(ns, agents) => OwnNamespace(ns, agents)
    case CloseNamespace(ns) => true
    case CloseTunnel(ac) => ac in s.closing
    case LoopExit(k) => k in s.conns
    case SlotLost(k) => true
  }

  function At(s: Pool, p: nat, stage: Stage): Pool
    requires p in s.passes
  {
    s.(passes := s.passes[p := s.passes[p].(stage := stage)])
  }

  // Cancelling a tunnel frees the agent's slot only if that tunnel still holds it.
  function Freed(slots: map<string, nat>, k: string, serial: nat): map<string, nat> {
    if k in slots && slots[k] == serial then slots - {k} else slots
  }

  ghost function Exec(s: Pool, step: Step): Pool
    requires Enabled(s, step)
  {
    match step
    case Begin(p, dialler, wanted) => s.(passes := s.passes[p := Pass(dialler, Reading(wanted))])
    case Decide(p, rebuilt, missing) =>
      var kept := Kept(s.conns, s.latest, s.passes[p].stage.wanted);
      At(s, p, Working(Todos(rebuilt + missing, s.latest)))
        .(conns := kept,
          claims := s.claims + (set k | k in rebuilt + missing),
          closing := s.closing + (set k | k in s.conns && k !in kept :: s.conns[k]))
    case Take(p) => At(s, p, Dialling(s.passes[p].stage.queue[0], s.passes[p].stage.queue[1..]))
    case FailDial(p) => At(s, p, Releasing(s.passes[p].stage.cur, s.passes[p].stage.queue))
    case WatchDial(p) =>
      var cur := s.passes[p].stage.cur;
      At(s, p, Watching(cur, s.next, s.passes[p].stage.queue))
        .(slots := s.slots[cur.podKey := s.next], next := s.next + 1)
    case Install(p) =>
      var cur, serial := s.passes[p].stage.cur, s.passes[p].stage.serial;
      var s' := At(s, p, Releasing(cur, s.passes[p].stage.queue));
      if cur.podKey in s.conns then s'.(slots := Freed(s.slots, cur.podKey, serial))
      else s'.(conns := s.conns[cur.podKey := Tunnel(cur.ai, serial, s.passes[p].dialler)])
    case Release(p) =>
      At(s, p, Working(s.passes[p].stage.queue)).(claims := s.claims - {s.passes[p].stage.cur.podKey})
    case Finish(p) => s.(passes := s.passes - {p})
    case Cancel(p) => s.(passes := s.passes - {p})
    case Snapshot(ns, agents) => s.(latest := Replaced(s.latest, ns, agents))
    case CloseNamespace(ns) =>
      s.(conns := ConnsWithout(s.conns, ns), latest := Agents.Without(s.latest, ns),
         closing := s.closing + (set k | k in s.conns && s.conns[k].ns == ns :: s.conns[k]))
    case CloseTunnel(ac) => s.(slots := Freed(s.slots, ac.podKey, ac.serial), closing := s.closing - {ac})
    case LoopExit(k) =>
      s.(conns := s.conns - {k}, slots := Freed(s.slots, k, s.conns[k].serial))
    case SlotLost(k) => s.(slots := s.slots - {k})
  }

  ghost predicate EnabledRun(s: Pool, steps: seq<Step>)
    decreases |steps|
  {
    steps == [] || (Enabled(s, steps[0]) && EnabledRun(Exec(s, steps[0]), steps[1..]))
  }

  ghost function ExecAll(s: Pool, steps: seq<Step>): Pool
    requires EnabledRun(s, steps)
    decreases |steps|
  {
    if steps == [] then s else ExecAll(Exec(s, steps[0]), steps[1..])
  }

  const EMPTY := Pool(map[], map[], {}, map[], {}, map[], 0)

  // --- what a pass has in its hands -------------------------------------------------------

  function Items(stage: Stage): seq<Todo> {
    match stage
    case Reading(_) => []
    case Working(queue) => queue
    case Dialling(cur, queue) => [cur] + queue
    case Watching(cur, _, queue) => [cur] + queue
    case Releasing(cur, queue) => [cur] + queue
  }

  // The items whose tunnel this pass has not installed yet.
  function Unplaced(stage: Stage): seq<Todo> {
    if stage.Releasing? then stage.queue else Items(stage)
  }

  function Held(stage: Stage): set<string> { KeysOf(Items(stage)) }

  predicate DistinctItems(items: seq<Todo>) {
    && (forall i :: 0 <= i < |items| ==> items[i].podKey == PodKeyOf(items[i].ai))
    && (forall i, j :: 0 <= i < j < |items| ==> items[i].podKey != items[j].podKey)
  }

  // --- the invariant ------------------------------------------------------------------------

  predicate StageOk(stage: Stage, claims: set<string>, conns: Conns, slots: map<string, nat>) {
    && DistinctItems(Items(stage))
    && Held(stage) <= claims
    && KeysOf(Unplaced(stage)) !! conns.Keys
    && (stage.Watching? ==> stage.cur.podKey in slots ==> slots[stage.cur.podKey] == stage.serial)
  }

  predicate PassOk(s: Pool, p: nat)
    requires p in s.passes
  {
    StageOk(s.passes[p].stage, s.claims, s.conns, s.slots)
  }

  // No two passes have the same pod in their hands.
  predicate Disjoint(s: Pool) {
    forall p, q :: p in s.passes && q in s.passes && p != q ==> Held(s.passes[p].stage) !! Held(s.passes[q].stage)
  }

  // Nobody has taken a tunnel's dial slot from it.
  predicate Undisplaced(s: Pool) {
    forall k :: k in s.conns && k in s.slots ==> s.slots[k] == s.conns[k].serial
  }

  predicate Inv(s: Pool) {
    && Keyed(s.latest) && ConnsKeyed(s.conns) && Undisplaced(s) && Disjoint(s)
    && forall p :: p in s.passes ==> PassOk(s, p)
  }

  // What a decision may meet: a changed address is harmless only if that key is not
  // also about to be queued as missing and no other pass has it in its hands.
  predicate Rebuildable(s: Pool, p: nat, wanted: set<string>) {
    forall k :: k in Changed(s.conns, s.latest, wanted) ==>
      && k !in Missing(s.conns, s.latest, wanted, s.claims)
      && forall q :: q in s.passes && q != p ==> k !in Held(s.passes[q].stage)
  }

  predicate Steady(s: Pool, step: Step) {
    step.Decide? && step.p in s.passes && s.passes[step.p].stage.Reading? ==>
      Rebuildable(s, step.p, s.passes[step.p].stage.wanted)
  }

  ghost predicate SteadyRun(s: Pool, steps: seq<Step>)
    requires EnabledRun(s, steps)
    decreases |steps|
  {
    steps == [] || (Steady(s, steps[0]) && SteadyRun(Exec(s, steps[0]), steps[1..]))
  }
}
