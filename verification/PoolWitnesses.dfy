/** Runs of the pool, from nothing, in which what its comments rule out happens. */
module PoolWitnesses {
  import opened Agents
  import opened TunnelPool
  import opened PassLaws
  import opened PoolProtocol
  import opened PoolSafety
  import opened PoolExact
  import opened PoolRefinement
  import opened SessionEnds

  // One pod, reported and dialled by a watcher's pass from an empty pool.
  predicate Lone(a: AgentPod) { '.' !in a.ns && Dialable(a) }

  lemma OneReported(latest: Latest, a: AgentPod)
    requires forall k :: k in latest ==> latest[k].ns == a.ns
    ensures Replaced(latest, a.ns, [a]) == map[PodKeyOf(a) := a]
  {
    assert [a][..0] == [] && SnapshotMap([]) == map[];
    assert SnapshotMap([a]) == map[PodKeyOf(a) := a];
  }

  function FirstPass(a: AgentPod, dialler: string): seq<Step> {
    [Step.Snapshot(a.ns, [a])]
    + PassSteps(0, dialler, {AgentKeyOf(a)}, [], [PodKeyOf(a)], [Todo(PodKeyOf(a), a)], [true])
  }

  lemma FirstPassRun(a: AgentPod, dialler: string)
    requires Lone(a)
    ensures EnabledRun(EMPTY, FirstPass(a, dialler))
    ensures var s := ExecAll(EMPTY, FirstPass(a, dialler));
      && s.passes == map[] && s.latest == map[PodKeyOf(a) := a] && s.claims == {}
      && s.conns == map[PodKeyOf(a) := Tunnel(a, 0, dialler)]
  {
    var k, snap := PodKeyOf(a), Step.Snapshot(a.ns, [a]);
    var s := Exec(EMPTY, snap);
    OneReported(EMPTY.latest, a);
    var queue := Todos([] + [k], s.latest);
    assert [] + [k] == [k] && queue == [Todo(k, a)];
    PassIsARun(s, 0, dialler, {AgentKeyOf(a)}, [], [k], [true]);
    StepThen(EMPTY, snap, PassSteps(0, dialler, {AgentKeyOf(a)}, [], [k], queue, [true]));
    assert [true][1..] == [];
  }

  // The pod comes back at another address, and a second pass queues it twice and dials
  // it once.
  function SecondPass(a: AgentPod, a': AgentPod, dialler: string): seq<Step> {
    var k := PodKeyOf(a);
    [Step.Snapshot(a.ns, [a']), Begin(1, dialler, {AgentKeyOf(a)}), Decide(1, [k], [k])]
    + QueueSteps(1, [Todo(k, a'), Todo(k, a')], [true])
  }

  // The first of its two dials, which works.
  lemma FirstOfTwo(s: Pool, dialler: string, t: Todo)
    requires s.passes == map[1 := Pass(dialler, Working([t, t]))] && t.podKey == PodKeyOf(t.ai) && Dialable(t.ai)
    requires s.claims == {t.podKey} && t.podKey !in s.conns
    ensures EnabledRun(s, QueueSteps(1, [t, t], [true]))
    ensures var s' := ExecAll(s, QueueSteps(1, [t, t], [true]));
      s'.passes == map[1 := Pass(dialler, Working([t]))] && s'.claims == {} && t.podKey in s'.conns
  {
    QueueRun(s, 1, dialler, [t, t], [true]);
    var s' := ExecAll(s, QueueSteps(1, [t, t], [true]));
    assert [true][1..] == [] && [t, t][1..] == [t];
    assert RunQueue(View(s), [t, t], [true], dialler) == EstablishStep(View(s), t.ai, true, dialler);
    assert s'.passes.Keys == {1} by { assert s'.passes.Keys == (s'.passes - {1}).Keys + {1}; }
  }

  lemma SecondPassRun(a: AgentPod, a': AgentPod, dialler: string)
    requires Lone(a) && Lone(a') && PodKeyOf(a') == PodKeyOf(a) && a'.ns == a.ns && AgentKeyOf(a') == AgentKeyOf(a)
    requires AgentIdentity(a') != AgentIdentity(a)
    ensures EnabledRun(EMPTY, FirstPass(a, dialler) + SecondPass(a, a', dialler))
    ensures var s := ExecAll(EMPTY, FirstPass(a, dialler) + SecondPass(a, a', dialler));
      && s.passes == map[1 := Pass(dialler, Working([Todo(PodKeyOf(a), a')]))]
      && s.claims == {} && PodKeyOf(a) in s.conns
  {
    var k, first := PodKeyOf(a), FirstPass(a, dialler);
    FirstPassRun(a, dialler);
    var s0 := ExecAll(EMPTY, first);
    var snap, begin, decide := Step.Snapshot(a.ns, [a']), Begin(1, dialler, {AgentKeyOf(a)}), Decide(1, [k], [k]);
    var s1 := Exec(s0, snap);
    OneReported(s0.latest, a');
    var s2 := Exec(s1, begin);
    var s3 := Exec(s2, decide);
    var queue := Todos([k] + [k], s1.latest);
    assert queue == [Todo(k, a'), Todo(k, a')];
    FirstOfTwo(s3, dialler, Todo(k, a'));
    ThreeSteps(s0, snap, begin, decide);
    RunsJoin(s0, [snap, begin, decide], QueueSteps(1, queue, [true]));
    RunsJoin(EMPTY, first, SecondPass(a, a', dialler));
  }

  /** A pod that changes its address is dialled while it has a tunnel. */
  lemma Redialled(a: AgentPod, a': AgentPod, dialler: string) returns (steps: seq<Step>)
    requires Lone(a) && Lone(a') && PodKeyOf(a') == PodKeyOf(a) && a'.ns == a.ns && AgentKeyOf(a') == AgentKeyOf(a)
    requires AgentIdentity(a') != AgentIdentity(a)
    ensures EnabledRun(EMPTY, steps)
    ensures var s := ExecAll(EMPTY, steps); Dials(s, 1, PodKeyOf(a)) && PodKeyOf(a) in s.conns
  {
    var before := FirstPass(a, dialler) + SecondPass(a, a', dialler);
    SecondPassRun(a, a', dialler);
    OneStep(ExecAll(EMPTY, before), Take(1));
    RunsJoin(EMPTY, before, [Take(1)]);
    steps := before + [Take(1)];
  }

  /** The same pass cancelled instead: work was left, and no claim is left behind. */
  lemma CancelledHarmlessly() returns (steps: seq<Step>)
    ensures EnabledRun(EMPTY, steps) && HasCancel(steps)
    ensures ExecAll(EMPTY, steps).claims == {} && !Leaked(ExecAll(EMPTY, steps))
  {
    var a := AgentPod("agent-0", "shop", "cart", [10, 0, 0, 7], 8000);
    var before := FirstPass(a, "shop") + SecondPass(a, a.(apiPort := 8001), "shop");
    SecondPassRun(a, a.(apiPort := 8001), "shop");
    OneStep(ExecAll(EMPTY, before), Cancel(1));
    RunsJoin(EMPTY, before, [Cancel(1)]);
    steps := before + [Cancel(1)];
    assert steps[|before|].Cancel?;
  }

  /** For one: a node-agent pod that comes back on another port. */
  lemma RedialledPort() returns (steps: seq<Step>)
    ensures EnabledRun(EMPTY, steps)
    ensures var s := ExecAll(EMPTY, steps); Dials(s, 1, "agent-0.shop") && "agent-0.shop" in s.conns
  {
    var a := AgentPod("agent-0", "shop", "cart", [10, 0, 0, 7], 8000);
    assert PodKeyOf(a) == "agent-0.shop";
    steps := Redialled(a, a.(apiPort := 8001), "shop");
  }

  /** A pass cancelled before its first dial: the claim stays, and no pass holds it. */
  lemma LeftBehind() returns (steps: seq<Step>)
    ensures EnabledRun(EMPTY, steps) && Abandoned(ExecAll(EMPTY, steps), "agent-0.shop")
  {
    var a := AgentPod("agent-0", "shop", "cart", [10, 0, 0, 7], 8000);
    var k := "agent-0.shop";
    assert PodKeyOf(a) == k;
    var snap, begin, decide := Step.Snapshot("shop", [a]), Begin(0, "shop", {AgentKeyOf(a)}), Decide(0, [], [k]);
    var s1 := Exec(EMPTY, snap);
    OneReported(EMPTY.latest, a);
    var s2 := Exec(s1, begin);
    assert [] + [k] == [k];
    FourSteps(EMPTY, snap, begin, decide, Cancel(0));
    steps := [snap, begin, decide, Cancel(0)];
  }

  /** The watcher of one namespace dials another's pod, and the end of its session takes
      that tunnel down. */
  lemma TakenDown() returns (steps: seq<Step>, ending: seq<Step>)
    ensures EnabledRun(EMPTY, steps) && EnabledRun(ExecAll(EMPTY, steps), ending)
    ensures var s := ExecAll(EMPTY, steps); var k := "agent-0.shop";
      && k in s.conns && s.conns[k].ns == "shop"
      && ending != [] && ending[0] == CloseNamespace("billing") && k !in ExecAll(s, ending).conns
  {
    var a := AgentPod("agent-0", "shop", "cart", [10, 0, 0, 7], 8000);
    var k := "agent-0.shop";
    assert PodKeyOf(a) == k;
    FirstPassRun(a, "billing");
    steps, ending := FirstPass(a, "billing"), EndSteps("billing", [k]);
    var s := ExecAll(EMPTY, steps);
    assert "shop"[0] != "billing"[0];
    assert Orphaned(s.conns, "billing") == {k};
    EndRun(s, "billing", [k]);
  }
}
