/** The pass as one call is a run of the protocol: what a pass does when nothing comes
    between its steps is what the pool's class does. */
module PoolRefinement {
  import opened Agents
  import opened TunnelPool
  import opened PoolProtocol

  // The pool as a single pass sees it.
  function View(s: Pool): PoolState { PoolState(s.conns, s.claims, s.next) }

  function ItemSteps(p: nat, ai: AgentPod, dialled: bool): seq<Step> {
    if Dialable(ai) && dialled then [Take(p), WatchDial(p), Install(p), Release(p)]
    else [Take(p), FailDial(p), Release(p)]
  }

  function QueueSteps(p: nat, queue: seq<Todo>, dials: seq<bool>): seq<Step>
    requires |dials| <= |queue|
    decreases |dials|
  {
    if dials == [] then [] else ItemSteps(p, queue[0].ai, dials[0]) + QueueSteps(p, queue[1..], dials[1..])
  }

  lemma {:induction false} RunsJoin(s: Pool, a: seq<Step>, b: seq<Step>)
    requires EnabledRun(s, a) && EnabledRun(ExecAll(s, a), b)
    ensures EnabledRun(s, a + b) && ExecAll(s, a + b) == ExecAll(ExecAll(s, a), b)
    decreases |a|
  {
    if a == [] {
      assert a + b == b;
    } else {
      assert (a + b)[0] == a[0] && (a + b)[1..] == a[1..] + b;
      RunsJoin(Exec(s, a[0]), a[1..], b);
    }
  }

  lemma OneStep(s: Pool, step: Step)
    requires Enabled(s, step)
    ensures EnabledRun(s, [step]) && ExecAll(s, [step]) == Exec(s, step)
  {
  }

  // A pass about to look at its context, with this much left.
  predicate Stands(s: Pool, p: nat, dialler: string, queue: seq<Todo>) {
    p in s.passes && s.passes[p] == Pass(dialler, Working(queue))
  }

  lemma ItemRun(s: Pool, p: nat, dialler: string, queue: seq<Todo>, dialled: bool)
    requires Stands(s, p, dialler, queue) && queue != [] && queue[0].podKey == PodKeyOf(queue[0].ai)
    ensures EnabledRun(s, ItemSteps(p, queue[0].ai, dialled))
    ensures var s' := ExecAll(s, ItemSteps(p, queue[0].ai, dialled));
      && Stands(s', p, dialler, queue[1..]) && s'.latest == s.latest && s'.passes - {p} == s.passes - {p}
      && View(s') == EstablishStep(View(s), queue[0].ai, dialled, dialler)
  {
    var s1 := Exec(s, Take(p));
    if Dialable(queue[0].ai) && dialled {
      var s2 := Exec(s1, WatchDial(p));
      var s3 := Exec(s2, Install(p));
      FourSteps(s, Take(p), WatchDial(p), Install(p), Release(p));
    } else {
      var s2 := Exec(s1, FailDial(p));
      ThreeSteps(s, Take(p), FailDial(p), Release(p));
    }
  }

  lemma ThreeSteps(s: Pool, a: Step, b: Step, c: Step)
    requires Enabled(s, a) && Enabled(Exec(s, a), b) && Enabled(Exec(Exec(s, a), b), c)
    ensures EnabledRun(s, [a, b, c]) && ExecAll(s, [a, b, c]) == Exec(Exec(Exec(s, a), b), c)
  {
    var s2 := Exec(Exec(s, a), b);
    OneStep(s2, c);
    assert [b, c][1..] == [c] && [a, b, c][1..] == [b, c];
  }

  lemma FourSteps(s: Pool, a: Step, b: Step, c: Step, d: Step)
    requires Enabled(s, a) && Enabled(Exec(s, a), b) && Enabled(Exec(Exec(s, a), b), c)
    requires Enabled(Exec(Exec(Exec(s, a), b), c), d)
    ensures EnabledRun(s, [a, b, c, d]) && ExecAll(s, [a, b, c, d]) == Exec(Exec(Exec(Exec(s, a), b), c), d)
  {
    ThreeSteps(Exec(s, a), b, c, d);
    assert [a, b, c, d][1..] == [b, c, d];
  }

  lemma {:induction false} QueueRun(s: Pool, p: nat, dialler: string, queue: seq<Todo>, dials: seq<bool>)
    requires Stands(s, p, dialler, queue) && |dials| <= |queue|
    requires forall i :: 0 <= i < |queue| ==> queue[i].podKey == PodKeyOf(queue[i].ai)
    ensures EnabledRun(s, QueueSteps(p, queue, dials))
    ensures var s' := ExecAll(s, QueueSteps(p, queue, dials));
      && Stands(s', p, dialler, queue[|dials|..]) && s'.latest == s.latest && s'.passes - {p} == s.passes - {p}
      && View(s') == RunQueue(View(s), queue, dials, dialler)
    decreases |dials|
  {
    if dials == [] {
      assert queue[0..] == queue;
    } else {
      var first, rest := ItemSteps(p, queue[0].ai, dials[0]), QueueSteps(p, queue[1..], dials[1..]);
      ItemRun(s, p, dialler, queue, dials[0]);
      var s1 := ExecAll(s, first);
      QueueRun(s1, p, dialler, queue[1..], dials[1..]);
      RunsJoin(s, first, rest);
      assert queue[1..][|dials| - 1..] == queue[|dials|..];
    }
  }

  function PassSteps(p: nat, dialler: string, wanted: set<string>, rebuilt: seq<string>, missing: seq<string>,
                     queue: seq<Todo>, dials: seq<bool>): seq<Step>
    requires |dials| <= |queue|
  {
    [Begin(p, dialler, wanted)] + ([Decide(p, rebuilt, missing)]
      + (QueueSteps(p, queue, dials) + [Ending(p, queue, dials)]))
  }

  function Ending(p: nat, queue: seq<Todo>, dials: seq<bool>): Step {
    if |dials| == |queue| then Finish(p) else Cancel(p)
  }

  /** A whole pass, run to its end or cancelled on the way, is a run of the protocol
      that starts and ends between passes, and leaves the pool as the call leaves it. */
  lemma PassIsARun(s: Pool, p: nat, dialler: string, wanted: set<string>, rebuilt: seq<string>, missing: seq<string>,
                   dials: seq<bool>)
    requires p !in s.passes && Keyed(s.latest)
    requires Enumerates(rebuilt, Changed(s.conns, s.latest, wanted))
    requires Enumerates(missing, Missing(s.conns, s.latest, wanted, s.claims))
    requires |dials| <= |rebuilt + missing|
    ensures var queue := Todos(rebuilt + missing, s.latest);
      var steps := PassSteps(p, dialler, wanted, rebuilt, missing, queue, dials);
      && EnabledRun(s, steps)
      && ExecAll(s, steps).passes == s.passes && ExecAll(s, steps).latest == s.latest
      && View(ExecAll(s, steps)) == RunQueue(PoolState(Kept(s.conns, s.latest, wanted),
                                                       s.claims + (set k | k in rebuilt + missing), s.next),
                                             queue, dials, dialler)
  {
    var queue := Todos(rebuilt + missing, s.latest);
    QueueKeys(rebuilt + missing, s.latest);
    var begin, decide := Begin(p, dialler, wanted), Decide(p, rebuilt, missing);
    var s1 := Exec(s, begin);
    var s2 := Exec(s1, decide);
    var rest := QueueSteps(p, queue, dials) + [Ending(p, queue, dials)];
    WorkRun(s2, p, dialler, queue, dials);
    StepThen(s1, decide, rest);
    StepThen(s, begin, [decide] + rest);
    assert s2.passes - {p} == s.passes;
  }

  lemma QueueKeys(ks: seq<string>, latest: Latest)
    requires Keyed(latest) && forall k :: k in ks ==> k in latest
    ensures var queue := Todos(ks, latest); forall i :: 0 <= i < |queue| ==> queue[i].podKey == PodKeyOf(queue[i].ai)
  {
  }

  lemma StepThen(s: Pool, step: Step, rest: seq<Step>)
    requires Enabled(s, step) && EnabledRun(Exec(s, step), rest)
    ensures EnabledRun(s, [step] + rest) && ExecAll(s, [step] + rest) == ExecAll(Exec(s, step), rest)
  {
  }

  // The dialling half and its end.
  lemma WorkRun(s: Pool, p: nat, dialler: string, queue: seq<Todo>, dials: seq<bool>)
    requires Stands(s, p, dialler, queue) && |dials| <= |queue|
    requires forall i :: 0 <= i < |queue| ==> queue[i].podKey == PodKeyOf(queue[i].ai)
    ensures var steps := QueueSteps(p, queue, dials) + [Ending(p, queue, dials)];
      && EnabledRun(s, steps)
      && ExecAll(s, steps).passes == s.passes - {p} && ExecAll(s, steps).latest == s.latest
      && View(ExecAll(s, steps)) == RunQueue(View(s), queue, dials, dialler)
  {
    var work, last := QueueSteps(p, queue, dials), Ending(p, queue, dials);
    QueueRun(s, p, dialler, queue, dials);
    OneStep(ExecAll(s, work), last);
    RunsJoin(s, work, [last]);
  }
}
