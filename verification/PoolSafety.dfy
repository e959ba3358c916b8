/** Safety of the pool over every run, and what a cancelled pass leaves behind. */
module PoolSafety {
  import opened Agents
  import opened PoolProtocol

  // --- one pass moving on, everything it holds staying its own ---------------------------

  lemma KeysCons(cur: Todo, queue: seq<Todo>)
    ensures KeysOf([cur] + queue) == {cur.podKey} + KeysOf(queue)
  {
  }

  lemma DistinctCons(cur: Todo, queue: seq<Todo>)
    requires DistinctItems([cur] + queue)
    ensures DistinctItems(queue) && cur.podKey !in KeysOf(queue)
  {
    var all := [cur] + queue;
    assert forall i :: 0 <= i < |queue| ==> queue[i] == all[i + 1];
    forall t | t in queue ensures t.podKey != cur.podKey {
      var i :| 0 <= i < |queue| && queue[i] == t;
      assert all[0] == cur && all[i + 1] == t;
    }
  }

  /** What a pass with a pod in its hands holds. */
  lemma StageKeys(stage: Stage)
    requires !stage.Reading? && !stage.Working? && DistinctItems(Items(stage))
    ensures Held(stage) == {stage.cur.podKey} + KeysOf(stage.queue)
    ensures stage.cur.podKey !in KeysOf(stage.queue) && DistinctItems(stage.queue)
    ensures KeysOf(Unplaced(stage)) == if stage.Releasing? then KeysOf(stage.queue) else Held(stage)
  {
    KeysCons(stage.cur, stage.queue);
    DistinctCons(stage.cur, stage.queue);
  }

  // What one pass's step on pod k may do to the rest of the pool.
  predicate OnlyTouches(s: Pool, s': Pool, k: string) {
    && s'.latest == s.latest
    && s.claims - {k} <= s'.claims && s'.conns.Keys <= s.conns.Keys + {k}
    && forall j :: j in s'.slots && j != k ==> j in s.slots && s'.slots[j] == s.slots[j]
  }

  /** The invariant is kept by a step of one pass that only touches a pod it holds
      and leaves itself in order. */
  lemma PassStep(s: Pool, p: nat, stage: Stage, s': Pool, k: string)
    requires Inv(s) && p in s.passes && k in Held(s.passes[p].stage)
    requires s'.passes == s.passes[p := s.passes[p].(stage := stage)] && OnlyTouches(s, s', k)
    requires Held(stage) <= Held(s.passes[p].stage) && StageOk(stage, s'.claims, s'.conns, s'.slots)
    requires ConnsKeyed(s'.conns) && Undisplaced(s')
    ensures Inv(s')
  {
  }

  lemma TakeInv(s: Pool, p: nat)
    requires Inv(s) && Enabled(s, Take(p))
    ensures Inv(Exec(s, Take(p)))
  {
    var queue := s.passes[p].stage.queue;
    assert PassOk(s, p);
    assert [queue[0]] + queue[1..] == queue;
    assert queue[0] in queue;
    PassStep(s, p, Dialling(queue[0], queue[1..]), Exec(s, Take(p)), queue[0].podKey);
  }

  lemma FailInv(s: Pool, p: nat)
    requires Inv(s) && Enabled(s, FailDial(p))
    ensures Inv(Exec(s, FailDial(p)))
  {
    var stage := s.passes[p].stage;
    assert PassOk(s, p);
    StageKeys(stage);
    StageKeys(Releasing(stage.cur, stage.queue));
    PassStep(s, p, Releasing(stage.cur, stage.queue), Exec(s, FailDial(p)), stage.cur.podKey);
  }

  lemma WatchInv(s: Pool, p: nat)
    requires Inv(s) && Enabled(s, WatchDial(p))
    ensures Inv(Exec(s, WatchDial(p)))
  {
    var stage := s.passes[p].stage;
    assert PassOk(s, p);
    StageKeys(stage);
    StageKeys(Watching(stage.cur, s.next, stage.queue));
    PassStep(s, p, Watching(stage.cur, s.next, stage.queue), Exec(s, WatchDial(p)), stage.cur.podKey);
  }

  lemma InstallInv(s: Pool, p: nat)
    requires Inv(s) && Enabled(s, Install(p))
    ensures Inv(Exec(s, Install(p)))
  {
    var stage := s.passes[p].stage;
    assert PassOk(s, p);
    StageKeys(stage);
    StageKeys(Releasing(stage.cur, stage.queue));
    assert Items(stage)[0] == stage.cur;
    PassStep(s, p, Releasing(stage.cur, stage.queue), Exec(s, Install(p)), stage.cur.podKey);
  }

  lemma ReleaseInv(s: Pool, p: nat)
    requires Inv(s) && Enabled(s, Release(p))
    ensures Inv(Exec(s, Release(p)))
  {
    var stage := s.passes[p].stage;
    assert PassOk(s, p);
    StageKeys(stage);
    PassStep(s, p, Working(stage.queue), Exec(s, Release(p)), stage.cur.podKey);
  }

  lemma EndInv(s: Pool, p: nat)
    requires Inv(s) && p in s.passes
    ensures Inv(s.(passes := s.passes - {p}))
  {
  }

  /** A step that touches no pass and only takes tunnels or slots away. */
  lemma ShrinkInv(s: Pool, s': Pool)
    requires Inv(s) && s'.passes == s.passes && s'.claims == s.claims && Keyed(s'.latest)
    requires forall k :: k in s'.conns ==> k in s.conns && s'.conns[k] == s.conns[k]
    requires forall k :: k in s'.slots ==> k in s.slots && s'.slots[k] == s.slots[k]
    ensures Inv(s')
  {
  }

  lemma BeginInv(s: Pool, p: nat, dialler: string, wanted: set<string>)
    requires Inv(s) && p !in s.passes
    ensures Inv(s.(passes := s.passes[p := Pass(dialler, Reading(wanted))]))
  {
  }

  // --- the decision -------------------------------------------------------------------------

  lemma QueueItems(ks: seq<string>, latest: Latest)
    requires Keyed(latest) && forall k :: k in ks ==> k in latest
    ensures KeysOf(Todos(ks, latest)) == (set k | k in ks)
    ensures DistinctItems(Todos(ks, latest)) <==> NoDups(ks)
    ensures forall t :: t in Todos(ks, latest) ==> t.podKey in latest && t.ai == latest[t.podKey]
  {
    var items := Todos(ks, latest);
    assert forall i :: 0 <= i < |ks| ==> items[i] in items && items[i].podKey == ks[i];
    assert KeysOf(items) == set k | k in ks;
  }

  lemma JoinedNoDups(a: seq<string>, b: seq<string>)
    requires NoDups(a) && NoDups(b)
    ensures NoDups(a + b) <==> forall k :: k in a ==> k !in b
  {
    var ab := a + b;
    if NoDups(ab) {
      forall k | k in a ensures k !in b {
        var i :| 0 <= i < |a| && a[i] == k;
        assert ab[i] == k;
        assert forall j :: 0 <= j < |b| ==> ab[|a| + j] == b[j];
      }
    } else {
      var i, j :| 0 <= i < j < |ab| && ab[i] == ab[j];
      assert ab[i] in a && ab[j] in b;
    }
  }

  /** A decision keeps the protocol's invariant if and only if every changed address
      it meets is harmless: not queued a second time as missing, and not in another
      pass's hands. */
  lemma DecideExact(s: Pool, p: nat, rebuilt: seq<string>, missing: seq<string>)
    requires Inv(s) && Enabled(s, Decide(p, rebuilt, missing))
    ensures Inv(Exec(s, Decide(p, rebuilt, missing))) <==> Rebuildable(s, p, s.passes[p].stage.wanted)
  {
    if Rebuildable(s, p, s.passes[p].stage.wanted) {
      DecideInv(s, p, rebuilt, missing);
    }
    if Inv(Exec(s, Decide(p, rebuilt, missing))) {
      DecideMeets(s, p, rebuilt, missing);
    }
  }

  lemma DecideMeets(s: Pool, p: nat, rebuilt: seq<string>, missing: seq<string>)
    requires Inv(s) && Enabled(s, Decide(p, rebuilt, missing))
    requires Inv(Exec(s, Decide(p, rebuilt, missing)))
    ensures Rebuildable(s, p, s.passes[p].stage.wanted)
  {
    var wanted := s.passes[p].stage.wanted;
    var s' := Exec(s, Decide(p, rebuilt, missing));
    QueueItems(rebuilt + missing, s.latest);
    JoinedNoDups(rebuilt, missing);
    assert PassOk(s', p);
    forall k | k in Changed(s.conns, s.latest, wanted)
      ensures k !in Missing(s.conns, s.latest, wanted, s.claims)
      ensures forall q :: q in s.passes && q != p ==> k !in Held(s.passes[q].stage)
    {
      assert k in rebuilt;
      assert k in Held(s'.passes[p].stage);
      forall q | q in s.passes && q != p ensures k !in Held(s.passes[q].stage) {
        assert s'.passes[q] == s.passes[q];
      }
    }
  }

  lemma DecideInv(s: Pool, p: nat, rebuilt: seq<string>, missing: seq<string>)
    requires Inv(s) && Enabled(s, Decide(p, rebuilt, missing))
    requires Rebuildable(s, p, s.passes[p].stage.wanted)
    ensures Inv(Exec(s, Decide(p, rebuilt, missing)))
  {
    var wanted := s.passes[p].stage.wanted;
    var s' := Exec(s, Decide(p, rebuilt, missing));
    var ks := rebuilt + missing;
    QueueItems(ks, s.latest);
    forall q | q in s.passes && q != p
      ensures PassOk(s', q) && Held(s.passes[q].stage) !! (set k | k in ks)
    {
      DecideOther(s, p, q, rebuilt, missing);
    }
    DecideOwn(s, p, rebuilt, missing);
  }

  lemma DecideOwn(s: Pool, p: nat, rebuilt: seq<string>, missing: seq<string>)
    requires Inv(s) && Enabled(s, Decide(p, rebuilt, missing))
    requires Rebuildable(s, p, s.passes[p].stage.wanted)
    ensures PassOk(Exec(s, Decide(p, rebuilt, missing)), p)
  {
    var wanted := s.passes[p].stage.wanted;
    QueueItems(rebuilt + missing, s.latest);
    JoinedNoDups(rebuilt, missing);
    assert forall k :: k in Changed(s.conns, s.latest, wanted) ==> k !in Exec(s, Decide(p, rebuilt, missing)).conns;
  }

  lemma DecideOther(s: Pool, p: nat, q: nat, rebuilt: seq<string>, missing: seq<string>)
    requires Inv(s) && Enabled(s, Decide(p, rebuilt, missing)) && q in s.passes && q != p
    requires Rebuildable(s, p, s.passes[p].stage.wanted)
    ensures Held(s.passes[q].stage) !! (set k | k in rebuilt + missing)
    ensures PassOk(Exec(s, Decide(p, rebuilt, missing)), q)
  {
  }

  // --- every step, every run -------------------------------------------------------------------

  lemma StepInv(s: Pool, step: Step)
    requires Inv(s) && Enabled(s, step) && Steady(s, step)
    ensures Inv(Exec(s, step))
  {
    match step
    case Begin(p, dialler, wanted) => BeginInv(s, p, dialler, wanted);
    case Decide(p, rebuilt, missing) => DecideInv(s, p, rebuilt, missing);
    case Take(p) => TakeInv(s, p);
    case FailDial(p) => FailInv(s, p);
    case WatchDial(p) => WatchInv(s, p);
    case Install(p) => InstallInv(s, p);
    case Release(p) => ReleaseInv(s, p);
    case Finish(p) => EndInv(s, p);
    case Cancel(p) => EndInv(s, p);
    case Snapshot(ns, agents) =>
      ReplacedKeyed(s.latest, ns, agents);
      ShrinkInv(s, Exec(s, step));
    case CloseNamespace(ns) => ShrinkInv(s, Exec(s, step));
    case CloseTunnel(ac) => ShrinkInv(s, Exec(s, step));
    case LoopExit(k) => ShrinkInv(s, Exec(s, step));
    case SlotLost(k) => ShrinkInv(s, Exec(s, step));
  }

  lemma {:induction false} RunInv(s: Pool, steps: seq<Step>)
    requires Inv(s) && EnabledRun(s, steps) && SteadyRun(s, steps)
    ensures Inv(ExecAll(s, steps))
    decreases |steps|
  {
    if steps != [] {
      StepInv(s, steps[0]);
      RunInv(Exec(s, steps[0]), steps[1..]);
    }
  }

  // A pass inside establish, before its entry is installed.
  predicate Dials(s: Pool, p: nat, k: string) {
    p in s.passes && (s.passes[p].stage.Dialling? || s.passes[p].stage.Watching?) && s.passes[p].stage.cur.podKey == k
  }

  /** In every interleaving of passes, snapshots, registry changes, session ends,
      loop exits and cancellations in which decisions meet only harmless changes of
      address: at most one pass is dialling a given pod; no pass dials a pod that
      has a tunnel, so the install never finds an entry already there; and no
      tunnel in the pool has lost its dial slot to another. */
  lemma SingleDial(steps: seq<Step>, p: nat, q: nat, k: string)
    requires EnabledRun(EMPTY, steps) && SteadyRun(EMPTY, steps)
    ensures var s := ExecAll(EMPTY, steps);
      && (Dials(s, p, k) && Dials(s, q, k) ==> p == q)
      && (Dials(s, p, k) ==> k !in s.conns && k in s.claims)
      && Undisplaced(s)
  {
    RunInv(EMPTY, steps);
    var s := ExecAll(EMPTY, steps);
    if Dials(s, p, k) {
      assert PassOk(s, p);
      StageKeys(s.passes[p].stage);
      if Dials(s, q, k) {
        assert PassOk(s, q);
        StageKeys(s.passes[q].stage);
      }
    }
  }

  // --- pods that never change identity ------------------------------------------------------------

  // Every snapshot reports a pod key at one and the same identity.
  predicate Faithful(ident: string -> Identity, step: Step) {
    step.Snapshot? ==> forall ai :: ai in step.agents ==> AgentIdentity(ai) == ident(PodKeyOf(ai))
  }

  predicate ItemsKnown(items: seq<Todo>, ident: string -> Identity) {
    forall t :: t in items ==> t.podKey == PodKeyOf(t.ai) && AgentIdentity(t.ai) == ident(t.podKey)
  }

  predicate LatestKnown(latest: Latest, ident: string -> Identity) {
    Keyed(latest) && forall k :: k in latest ==> AgentIdentity(latest[k]) == ident(k)
  }

  predicate KnownBy(s: Pool, ident: string -> Identity) {
    && LatestKnown(s.latest, ident)
    && (forall k :: k in s.conns ==> ConnIdentity(s.conns[k]) == ident(k))
    && (forall p :: p in s.passes ==> ItemsKnown(Items(s.passes[p].stage), ident))
  }

  lemma {:induction false} SnapshotKnown(agents: seq<AgentPod>, ident: string -> Identity)
    requires forall ai :: ai in agents ==> AgentIdentity(ai) == ident(PodKeyOf(ai))
    ensures forall k :: k in SnapshotMap(agents) ==> AgentIdentity(SnapshotMap(agents)[k]) == ident(k)
  {
    if agents != [] {
      SnapshotKnown(agents[..|agents| - 1], ident);
    }
  }

  lemma ReplacedKnown(latest: Latest, ns: string, agents: seq<AgentPod>, ident: string -> Identity)
    requires LatestKnown(latest, ident) && OwnNamespace(ns, agents)
    requires forall ai :: ai in agents ==> AgentIdentity(ai) == ident(PodKeyOf(ai))
    ensures LatestKnown(Replaced(latest, ns, agents), ident)
  {
    ReplacedKeyed(latest, ns, agents);
    SnapshotKnown(agents, ident);
  }

  lemma ConsKnown(cur: Todo, queue: seq<Todo>, ident: string -> Identity)
    ensures ItemsKnown([cur] + queue, ident) <==> ItemsKnown([cur], ident) && ItemsKnown(queue, ident)
  {
  }

  lemma DecideKnown(s: Pool, p: nat, rebuilt: seq<string>, missing: seq<string>, ident: string -> Identity)
    requires KnownBy(s, ident) && Enabled(s, Decide(p, rebuilt, missing))
    ensures KnownBy(Exec(s, Decide(p, rebuilt, missing)), ident) && Steady(s, Decide(p, rebuilt, missing))
  {
    QueueItems(rebuilt + missing, s.latest);
  }

  lemma StepKnown(s: Pool, step: Step, ident: string -> Identity)
    requires KnownBy(s, ident) && Enabled(s, step) && Faithful(ident, step)
    ensures KnownBy(Exec(s, step), ident) && Steady(s, step)
  {
    match step
    case Decide(p, rebuilt, missing) => DecideKnown(s, p, rebuilt, missing, ident);
    case Snapshot(ns, agents) => ReplacedKnown(s.latest, ns, agents, ident);
    case Take(p) => ItemKnown(s, step, p, ident);
    case FailDial(p) => ItemKnown(s, step, p, ident);
    case WatchDial(p) => ItemKnown(s, step, p, ident);
    case Install(p) => ItemKnown(s, step, p, ident);
    case Release(p) => ItemKnown(s, step, p, ident);
    case _ =>
  }

  // The steps by which a pass works through one item.
  predicate WorksOn(step: Step, p: nat) {
    step == Take(p) || step == FailDial(p) || step == WatchDial(p) || step == Install(p) || step == Release(p)
  }

  lemma ItemKnown(s: Pool, step: Step, p: nat, ident: string -> Identity)
    requires KnownBy(s, ident) && WorksOn(step, p) && Enabled(s, step)
    ensures KnownBy(Exec(s, step), ident)
  {
    var stage := s.passes[p].stage;
    if step.Take? {
      assert [stage.queue[0]] + stage.queue[1..] == stage.queue;
    } else {
      ConsKnown(stage.cur, stage.queue, ident);
    }
  }

  /** If no pod key ever changes identity, no decision meets a changed address. */
  lemma {:induction false} SteadyByIdentity(s: Pool, steps: seq<Step>, ident: string -> Identity)
    requires KnownBy(s, ident) && EnabledRun(s, steps)
    requires forall i :: 0 <= i < |steps| ==> Faithful(ident, steps[i])
    ensures SteadyRun(s, steps)
    decreases |steps|
  {
    if steps != [] {
      StepKnown(s, steps[0], ident);
      SteadyByIdentity(Exec(s, steps[0]), steps[1..], ident);
    }
  }

  lemma SingleDialByIdentity(steps: seq<Step>, ident: string -> Identity, p: nat, q: nat, k: string)
    requires EnabledRun(EMPTY, steps) && forall i :: 0 <= i < |steps| ==> Faithful(ident, steps[i])
    ensures var s := ExecAll(EMPTY, steps);
      && (Dials(s, p, k) && Dials(s, q, k) ==> p == q)
      && (Dials(s, p, k) ==> k !in s.conns)
      && Undisplaced(s)
  {
    SteadyByIdentity(EMPTY, steps, ident);
    SingleDial(steps, p, q, k);
  }

  // --- what cancellation leaves behind ---------------------------------------------------------------

  // A claim nobody will release, on a pod nobody has a tunnel to.
  predicate Abandoned(s: Pool, k: string) {
    k in s.claims && k !in s.conns && forall p :: p in s.passes ==> k !in Held(s.passes[p].stage)
  }

  /** A pass cancelled with work left abandons the claim of every pod it had left. */
  lemma CancelAbandons(s: Pool, p: nat, t: Todo)
    requires Inv(s) && Enabled(s, Cancel(p)) && t in s.passes[p].stage.queue
    ensures Abandoned(Exec(s, Cancel(p)), t.podKey)
  {
  }

  lemma CurHeld(s: Pool, p: nat)
    requires p in s.passes && !s.passes[p].stage.Reading? && !s.passes[p].stage.Working?
    ensures Held(s.passes[p].stage) == {s.passes[p].stage.cur.podKey} + KeysOf(s.passes[p].stage.queue)
  {
  }

  lemma StepAbandoned(s: Pool, step: Step, k: string)
    requires Keyed(s.latest) && Abandoned(s, k) && Enabled(s, step)
    ensures Keyed(Exec(s, step).latest) && Abandoned(Exec(s, step), k)
  {
    match step
    case Decide(p, rebuilt, missing) => QueueItems(rebuilt + missing, s.latest);
    case Take(p) => ItemAbandoned(s, step, p, k);
    case FailDial(p) => ItemAbandoned(s, step, p, k);
    case WatchDial(p) => ItemAbandoned(s, step, p, k);
    case Install(p) => ItemAbandoned(s, step, p, k);
    case Release(p) => ItemAbandoned(s, step, p, k);
    case Snapshot(ns, agents) => ReplacedKeyed(s.latest, ns, agents);
    case _ =>
  }

  lemma ItemAbandoned(s: Pool, step: Step, p: nat, k: string)
    requires Abandoned(s, k) && WorksOn(step, p) && Enabled(s, step)
    ensures Abandoned(Exec(s, step), k) && Exec(s, step).latest == s.latest
  {
    if step.Take? {
      var queue := s.passes[p].stage.queue;
      assert [queue[0]] + queue[1..] == queue;
    } else {
      CurHeld(s, p);
    }
  }

  /** And an abandoned claim is for good: whatever happens afterwards, no pass of any
      watcher ever dials that pod again, and it never has a tunnel. */
  lemma {:induction false} AbandonedForever(s: Pool, steps: seq<Step>, k: string)
    requires Keyed(s.latest) && Abandoned(s, k) && EnabledRun(s, steps)
    ensures Abandoned(ExecAll(s, steps), k)
    ensures forall p :: !Dials(ExecAll(s, steps), p, k)
    decreases |steps|
  {
    if steps != [] {
      StepAbandoned(s, steps[0], k);
      AbandonedForever(Exec(s, steps[0]), steps[1..], k);
    } else {
      forall p | p in s.passes ensures !Dials(s, p, k) {
        if s.passes[p].stage.Dialling? || s.passes[p].stage.Watching? {
          CurHeld(s, p);
        }
      }
    }
  }
}
