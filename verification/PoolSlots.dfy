/** What the pool's books keep over every run, steady or not: where each tunnel is, who holds
    a dial slot, where tunnels lead, and what is known of a namespace. */
module PoolSlots {
  import opened Agents
  import opened PoolProtocol

  // Where a tunnel can be: in the pool under a key, dropped and on its way out, or with the
  // pass that dials it.
  datatype Place = Pooled(k: string) | Leaving(ac: AgentConn) | Dialled(p: nat)

  predicate Stands(s: Pool, a: Place, n: nat) {
    match a
    case Pooled(k) => k in s.conns && s.conns[k].serial == n
    case Leaving(ac) => ac in s.closing && ac.serial == n
    case Dialled(p) => p in s.passes && s.passes[p].stage.Watching? && s.passes[p].stage.serial == n
  }

  // The pod a tunnel is for.
  function PodAt(s: Pool, a: Place, n: nat): string
    requires Stands(s, a, n)
  {
    match a
    case Pooled(k) => k
    case Leaving(ac) => ac.podKey
    case Dialled(p) => s.passes[p].stage.cur.podKey
  }

  // Every tunnel is in one place at most, and none has a number still to come.
  ghost predicate OnePlace(s: Pool) {
    && (forall a, n: nat :: Stands(s, a, n) ==> n < s.next)
    && (forall a, b, n: nat :: Stands(s, a, n) && Stands(s, b, n) ==> a == b)
  }

  // A pod's dial slot is held by a tunnel that is in some place, for that pod.
  ghost predicate Owned(s: Pool, k: string, n: nat) { exists a :: Stands(s, a, n) && PodAt(s, a, n) == k }

  ghost predicate SlotsOwned(s: Pool) { forall k :: k in s.slots ==> Owned(s, k, s.slots[k]) }

  // Tunnels lead to addresses and ports there can be.
  predicate Leads(ip: seq<nat>, apiPort: int) { (|ip| == 4 || |ip| == 16) && apiPort != 0 }

  predicate ConnLeads(ac: AgentConn) { ac.podIP.Addr? && Leads(ac.podIP.bytes, ac.apiPort) }

  ghost predicate AllLead(s: Pool) {
    && (forall k :: k in s.conns ==> ConnLeads(s.conns[k]))
    && (forall p :: p in s.passes && s.passes[p].stage.Watching? ==>
          Leads(s.passes[p].stage.cur.ai.ip, s.passes[p].stage.cur.ai.apiPort))
  }

  // Pods are under their own keys wherever they are.
  ghost predicate AllKeyed(s: Pool) {
    && Keyed(s.latest) && ConnsKeyed(s.conns)
    && forall p, t :: p in s.passes && t in Items(s.passes[p].stage) ==> t.podKey == PodKeyOf(t.ai)
  }

  ghost predicate Books(s: Pool) { AllKeyed(s) && OnePlace(s) && SlotsOwned(s) && AllLead(s) }

  // --- every step -----------------------------------------------------------------------------

  lemma TodosKeyed(ks: seq<string>, latest: Latest)
    requires Keyed(latest) && forall k :: k in ks ==> k in latest
    ensures forall t :: t in Todos(ks, latest) ==> t.podKey == PodKeyOf(t.ai)
  {
  }

  lemma ItemsKeyed(s: Pool, step: Step, p: nat, t: Todo)
    requires AllKeyed(s) && Enabled(s, step)
    requires var s' := Exec(s, step); p in s'.passes && t in Items(s'.passes[p].stage)
    ensures t.podKey == PodKeyOf(t.ai)
  {
    if step.Decide? && step.p == p {
      TodosKeyed(step.rebuilt + step.missing, s.latest);
    } else if step == Take(p) {
      var queue := s.passes[p].stage.queue;
      assert [queue[0]] + queue[1..] == queue;
    }
  }

  lemma KeyedStep(s: Pool, step: Step)
    requires AllKeyed(s) && Enabled(s, step)
    ensures AllKeyed(Exec(s, step))
  {
    var s' := Exec(s, step);
    forall p, t | p in s'.passes && t in Items(s'.passes[p].stage) ensures t.podKey == PodKeyOf(t.ai) {
      ItemsKeyed(s, step, p, t);
    }
    if step.Snapshot? {
      ReplacedKeyed(s.latest, step.ns, step.agents);
    }
  }

  // Where a tunnel was before the step that leaves it in this place.
  function Before(s: Pool, step: Step, a: Place): Place {
    if a.Leaving? && a.ac !in s.closing then Pooled(a.ac.podKey)
    else if a.Pooled? && a.k !in s.conns && step.Install? then Dialled(step.p)
    else a
  }

  // A tunnel is dialled anew or was somewhere already.
  lemma Moved(s: Pool, step: Step, a: Place, n: nat)
    requires AllKeyed(s) && Enabled(s, step) && Stands(Exec(s, step), a, n)
    ensures (step.WatchDial? && a == Dialled(step.p) && n == s.next)
            || (Stands(s, Before(s, step, a), n)
                && PodAt(s, Before(s, step, a), n) == PodAt(Exec(s, step), a, n))
  {
  }

  lemma PlaceStep(s: Pool, step: Step)
    requires AllKeyed(s) && OnePlace(s) && Enabled(s, step)
    ensures OnePlace(Exec(s, step))
  {
    var s' := Exec(s, step);
    forall a, n: nat | Stands(s', a, n) ensures n < s'.next {
      Moved(s, step, a, n);
    }
    forall a, b, n: nat | Stands(s', a, n) && Stands(s', b, n) ensures a == b {
      Moved(s, step, a, n);
      Moved(s, step, b, n);
    }
  }

  lemma LeadStep(s: Pool, step: Step)
    requires AllLead(s) && Enabled(s, step)
    ensures AllLead(Exec(s, step))
  {
  }

  // A slot that is not taken away keeps its holder, wherever that goes.
  lemma PooledFollows(s: Pool, step: Step, k: string)
    requires ConnsKeyed(s.conns) && Enabled(s, step) && k in s.conns
    requires var s' := Exec(s, step); k in s'.slots && s'.slots[k] == s.conns[k].serial < s.next
    ensures Owned(Exec(s, step), k, s.conns[k].serial)
  {
    var s', n := Exec(s, step), s.conns[k].serial;
    if k in s'.conns {
      assert Stands(s', Pooled(k), n);
    } else {
      assert Stands(s', Leaving(s.conns[k]), n);
    }
  }

  lemma LeavingFollows(s: Pool, step: Step, ac: AgentConn)
    requires Enabled(s, step) && ac in s.closing
    requires var s' := Exec(s, step); ac.podKey in s'.slots && s'.slots[ac.podKey] == ac.serial < s.next
    ensures Owned(Exec(s, step), ac.podKey, ac.serial)
  {
    assert Stands(Exec(s, step), Leaving(ac), ac.serial);
  }

  lemma DialledFollows(s: Pool, step: Step, p: nat)
    requires Enabled(s, step) && p in s.passes && s.passes[p].stage.Watching?
    requires var k, s' := s.passes[p].stage.cur.podKey, Exec(s, step);
      k in s'.slots && s'.slots[k] == s.passes[p].stage.serial
    ensures Owned(Exec(s, step), s.passes[p].stage.cur.podKey, s.passes[p].stage.serial)
  {
    var s', k, n := Exec(s, step), s.passes[p].stage.cur.podKey, s.passes[p].stage.serial;
    if step == Install(p) {
      assert Stands(s', Pooled(k), n);
    } else {
      assert Stands(s', Dialled(p), n);
    }
  }

  lemma OwnedStep(s: Pool, step: Step)
    requires AllKeyed(s) && OnePlace(s) && SlotsOwned(s) && Enabled(s, step)
    ensures SlotsOwned(Exec(s, step))
  {
    var s' := Exec(s, step);
    forall k | k in s'.slots ensures Owned(s', k, s'.slots[k]) {
      var n := s'.slots[k];
      if step.WatchDial? && k == s.passes[step.p].stage.cur.podKey {
        assert Stands(s', Dialled(step.p), n);
      } else {
        var a :| Stands(s, a, n) && PodAt(s, a, n) == k;
        match a
        case Pooled(_) => PooledFollows(s, step, k);
        case Leaving(ac) => LeavingFollows(s, step, ac);
        case Dialled(p) => DialledFollows(s, step, p);
      }
    }
  }

  /** A slot is taken away only with its holder, or by the agent itself: while the tunnel that
      holds it is somewhere, it stays that tunnel's, unless the pod is dialled again. */
  lemma SlotStays(s: Pool, step: Step, k: string, a: Place)
    requires Books(s) && Enabled(s, step) && !step.SlotLost? && k in s.slots && Stands(Exec(s, step), a, s.slots[k])
    requires step.WatchDial? ==> s.passes[step.p].stage.cur.podKey != k
    ensures k in Exec(s, step).slots && Exec(s, step).slots[k] == s.slots[k]
  {
    var n := s.slots[k];
    Moved(s, step, a, n);
    if k !in Exec(s, step).slots || Exec(s, step).slots[k] != n {
      var gone := match step
        case Install(p) => Dialled(p)
        case CloseTunnel(ac) => Leaving(ac)
        case LoopExit(j) => Pooled(j)
        case _ => a;
      assert Stands(s, gone, n);
    }
  }

  /** In every run, whatever changes address and whoever is cancelled: every tunnel is in one
      place - in the pool under one key, on its way out, or with the one pass that dials it;
      a pod's dial slot is held by a tunnel for that pod that is in such a place; and every
      tunnel leads to an address and a port there can be. */
  lemma {:induction false} BooksKept(s: Pool, steps: seq<Step>)
    requires Books(s) && EnabledRun(s, steps)
    ensures Books(ExecAll(s, steps))
    decreases |steps|
  {
    if steps != [] {
      KeyedStep(s, steps[0]);
      PlaceStep(s, steps[0]);
      OwnedStep(s, steps[0]);
      LeadStep(s, steps[0]);
      BooksKept(Exec(s, steps[0]), steps[1..]);
    }
  }

  lemma EmptyBooks()
    ensures Books(EMPTY)
  {
  }

  /** So when no pass dials and nothing is on its way out, each slot is a pool tunnel's own. */
  lemma QuietSlots(steps: seq<Step>, k: string)
    requires EnabledRun(EMPTY, steps)
    requires var s := ExecAll(EMPTY, steps);
      s.closing == {} && (forall p :: p in s.passes ==> !s.passes[p].stage.Watching?) && k in s.slots
    ensures var s := ExecAll(EMPTY, steps); k in s.conns && s.conns[k].serial == s.slots[k] && ConnLeads(s.conns[k])
  {
    EmptyBooks();
    BooksKept(EMPTY, steps);
    var s := ExecAll(EMPTY, steps);
    assert Owned(s, k, s.slots[k]);
  }

  // --- what is known of a namespace ---------------------------------------------------------------

  // The snapshots and session ends among the steps of a run.
  function Said(steps: seq<Step>): seq<PoolEvent> {
    if steps == [] then []
    else
      Said(steps[..|steps| - 1]) +
      match steps[|steps| - 1] {
        case Snapshot(ns, agents) => [PoolEvent.Snapshot(ns, agents)]
        case CloseNamespace(ns) => [SessionClosed(ns)]
        case _ => []
      }
  }

  lemma {:induction false} RunEnds(s: Pool, steps: seq<Step>)
    requires EnabledRun(s, steps) && steps != []
    ensures var init, last := steps[..|steps| - 1], steps[|steps| - 1];
      EnabledRun(s, init) && Enabled(ExecAll(s, init), last) && ExecAll(s, steps) == Exec(ExecAll(s, init), last)
    decreases |steps|
  {
    var init := steps[..|steps| - 1];
    if |steps| > 1 {
      RunEnds(Exec(s, steps[0]), steps[1..]);
      assert steps[1..][..|steps| - 2] == init[1..];
    }
  }

  lemma {:induction false} LatestIsSaid(steps: seq<Step>)
    requires EnabledRun(EMPTY, steps)
    ensures ProperEvents(Said(steps)) && ExecAll(EMPTY, steps).latest == LatestAfter(Said(steps))
    decreases |steps|
  {
    if steps != [] {
      RunEnds(EMPTY, steps);
      LatestIsSaid(steps[..|steps| - 1]);
      var before := Said(steps[..|steps| - 1]);
      assert Said(steps) == before || Said(steps)[..|Said(steps)| - 1] == before;
    }
  }

  /** At the end of any run, what the pool knows of a namespace's pods is what the last
      snapshot of that namespace said, or nothing if its session has ended since. */
  lemma KnownIsLastSaid(steps: seq<Step>, ns: string)
    requires EnabledRun(EMPTY, steps)
    ensures Only(ExecAll(EMPTY, steps).latest, ns) == LastSaid(Said(steps), ns)
  {
    LatestIsSaid(steps);
    LatestIsLastSaid(Said(steps), ns);
  }
}
