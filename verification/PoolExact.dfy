/** Exactly when the pool's protocol goes wrong: when a claim is left behind for good,
    and which decisions lead to two passes dialling one pod. */
module PoolExact {
  import opened Agents
  import opened TunnelPool
  import opened PoolProtocol
  import opened PoolSafety
  import opened PoolRefinement

  // --- claims ---------------------------------------------------------------------------------

  predicate HasCancel(steps: seq<Step>) { exists i :: 0 <= i < |steps| && steps[i].Cancel? }

  // Every claim is some pass's, which will release it.
  ghost predicate ClaimsHeld(s: Pool) {
    forall k :: k in s.claims ==> exists p :: p in s.passes && k in Held(s.passes[p].stage)
  }

  // A pass that moved on has let go of no pod but one it released.
  lemma PassMoved(s: Pool, s': Pool, p: nat, released: set<string>)
    requires ClaimsHeld(s) && p in s.passes && p in s'.passes && s'.claims <= s.claims - released
    requires s'.passes - {p} == s.passes - {p}
    requires Held(s.passes[p].stage) <= Held(s'.passes[p].stage) + released
    ensures ClaimsHeld(s')
  {
    forall k | k in s'.claims ensures exists q :: q in s'.passes && k in Held(s'.passes[q].stage) {
      var q :| q in s.passes && k in Held(s.passes[q].stage);
      if q != p {
        assert q in s.passes - {p};
        assert s'.passes[q] == s.passes[q];
      }
    }
  }

  lemma ItemClaims(s: Pool, step: Step, p: nat)
    requires ClaimsHeld(s) && WorksOn(step, p) && Enabled(s, step)
    ensures ClaimsHeld(Exec(s, step))
  {
    var s', stage := Exec(s, step), s.passes[p].stage;
    if step.Take? {
      assert [stage.queue[0]] + stage.queue[1..] == stage.queue;
      PassMoved(s, s', p, {});
    } else {
      CurHeld(s, p);
      PassMoved(s, s', p, if step.Release? then {stage.cur.podKey} else {});
    }
  }

  lemma DecideClaims(s: Pool, p: nat, rebuilt: seq<string>, missing: seq<string>)
    requires ClaimsHeld(s) && Keyed(s.latest) && Enabled(s, Decide(p, rebuilt, missing))
    ensures ClaimsHeld(Exec(s, Decide(p, rebuilt, missing)))
  {
    var s' := Exec(s, Decide(p, rebuilt, missing));
    QueueItems(rebuilt + missing, s.latest);
    forall k | k in s'.claims ensures exists q :: q in s'.passes && k in Held(s'.passes[q].stage) {
      if k in rebuilt + missing {
        assert k in Held(s'.passes[p].stage);
      } else {
        var q :| q in s.passes && k in Held(s.passes[q].stage);
        assert q in s'.passes && s'.passes[q] == s.passes[q];
      }
    }
  }

  // A pass that is not in the way comes or goes.
  lemma PassesChanged(s: Pool, s': Pool)
    requires ClaimsHeld(s) && s'.claims == s.claims
    requires forall q :: q in s.passes && Held(s.passes[q].stage) != {} ==>
                         q in s'.passes && s'.passes[q] == s.passes[q]
    ensures ClaimsHeld(s')
  {
    forall k | k in s'.claims ensures exists q :: q in s'.passes && k in Held(s'.passes[q].stage) {
      var q :| q in s.passes && k in Held(s.passes[q].stage);
      assert q in s'.passes && s'.passes[q] == s.passes[q];
    }
  }

  lemma StepClaims(s: Pool, step: Step)
    requires ClaimsHeld(s) && Keyed(s.latest) && Enabled(s, step) && !step.Cancel?
    ensures ClaimsHeld(Exec(s, step)) && Keyed(Exec(s, step).latest)
  {
    match step
    case Decide(p, rebuilt, missing) => DecideClaims(s, p, rebuilt, missing);
    case Take(p) => ItemClaims(s, step, p);
    case FailDial(p) => ItemClaims(s, step, p);
    case WatchDial(p) => ItemClaims(s, step, p);
    case Install(p) => ItemClaims(s, step, p);
    case Release(p) => ItemClaims(s, step, p);
    case Snapshot(ns, agents) =>
      ReplacedKeyed(s.latest, ns, agents);
      PassesChanged(s, Exec(s, step));
    case Begin(p, dialler, wanted) => PassesChanged(s, Exec(s, step));
    case Finish(p) => PassesChanged(s, Exec(s, step));
    case CloseNamespace(ns) => PassesChanged(s, Exec(s, step));
    case CloseTunnel(ac) => PassesChanged(s, Exec(s, step));
    case LoopExit(k) => PassesChanged(s, Exec(s, step));
    case SlotLost(k) => PassesChanged(s, Exec(s, step));
    case _ =>
  }

  /** In any run without a cancellation, harmless decisions or not, every claim is held
      by a pass at every moment, and with no pass under way there is none. */
  lemma {:induction false} NoCancelNoLeak(s: Pool, steps: seq<Step>)
    requires ClaimsHeld(s) && Keyed(s.latest) && EnabledRun(s, steps) && !HasCancel(steps)
    ensures ClaimsHeld(ExecAll(s, steps))
    ensures ExecAll(s, steps).passes == map[] ==> ExecAll(s, steps).claims == {}
    decreases |steps|
  {
    if steps != [] {
      CancelLater(steps);
      StepClaims(s, steps[0]);
      NoCancelNoLeak(Exec(s, steps[0]), steps[1..]);
    }
  }

  // A claim is left behind.
  ghost predicate Leaked(s: Pool) { exists k :: Abandoned(s, k) }

  lemma {:induction false} LeaksFrom(s: Pool, steps: seq<Step>)
    requires Inv(s) && ClaimsHeld(s) && EnabledRun(s, steps) && SteadyRun(s, steps)
    ensures Leaked(ExecAll(s, steps)) <==> HasCancel(steps)
    decreases |steps|
  {
    if steps != [] {
      var step, s', rest := steps[0], Exec(s, steps[0]), steps[1..];
      StepInv(s, step);
      CancelLater(steps);
      if step.Cancel? {
        var t := s.passes[step.p].stage.queue[0];
        CancelAbandons(s, step.p, t);
        AbandonedForever(s', rest, t.podKey);
        assert Abandoned(ExecAll(s, steps), t.podKey);
      } else {
        StepClaims(s, step);
        LeaksFrom(s', rest);
        assert ExecAll(s, steps) == ExecAll(s', rest);
      }
    }
  }

  lemma CancelLater(steps: seq<Step>)
    requires steps != []
    ensures HasCancel(steps) <==> steps[0].Cancel? || HasCancel(steps[1..])
  {
    var rest := steps[1..];
    if i :| 0 < i < |steps| && steps[i].Cancel? {
      assert rest[i - 1].Cancel?;
    }
    if i :| 0 <= i < |rest| && rest[i].Cancel? {
      assert steps[i + 1].Cancel?;
    }
  }

  /** In every run of harmless decisions a claim is left behind, for good and without a
      holder, if and only if some pass was cancelled with work left. */
  lemma LeaksWhen(steps: seq<Step>)
    requires EnabledRun(EMPTY, steps) && SteadyRun(EMPTY, steps)
    ensures Leaked(ExecAll(EMPTY, steps)) <==> HasCancel(steps)
  {
    LeaksFrom(EMPTY, steps);
  }

  // --- any run ------------------------------------------------------------------------------

  // A claimed pod with a tunnel is one a pass has just dealt with.
  predicate Placed(s: Pool) {
    forall k :: k in s.claims && k in s.conns ==>
      exists p :: p in s.passes && ReleasedBy(s, p, k)
  }

  predicate ReleasedBy(s: Pool, p: nat, k: string) {
    p in s.passes && s.passes[p].stage.Releasing? && s.passes[p].stage.cur.podKey == k
  }

  lemma StepPlaced(s: Pool, step: Step)
    requires Placed(s) && Keyed(s.latest) && Enabled(s, step)
    ensures Placed(Exec(s, step))
  {
    var s' := Exec(s, step);
    forall k | k in s'.claims && k in s'.conns ensures exists p :: p in s'.passes && ReleasedBy(s', p, k) {
      if k in s.claims && k in s.conns {
        var p :| p in s.passes && ReleasedBy(s, p, k);
        assert ReleasedBy(s', p, k);
      } else if step.Install? {
        assert ReleasedBy(s', step.p, k);
      }
    }
  }

  // Cancelling this pass leaves a claim that no other pass has in its hands.
  predicate Strands(s: Pool, p: nat) {
    p in s.passes && exists k :: k in Held(s.passes[p].stage) && k in s.claims && HeldOnlyBy(s, p, k)
  }

  predicate HeldOnlyBy(s: Pool, p: nat, k: string) {
    forall q :: q in s.passes && k in Held(s.passes[q].stage) ==> q == p
  }

  // Some cancellation of the run did.
  ghost predicate Stranding(s: Pool, steps: seq<Step>)
    requires EnabledRun(s, steps)
    decreases |steps|
  {
    steps != []
    && ((steps[0].Cancel? && Strands(s, steps[0].p)) || Stranding(Exec(s, steps[0]), steps[1..]))
  }

  lemma StrandsLeak(s: Pool, p: nat) returns (k: string)
    requires Placed(s) && Enabled(s, Cancel(p)) && Strands(s, p)
    ensures Abandoned(Exec(s, Cancel(p)), k)
  {
    k :| k in Held(s.passes[p].stage) && k in s.claims && HeldOnlyBy(s, p, k);
    forall q | q in s.passes ensures !ReleasedBy(s, q, k) {
      if s.passes[q].stage.Releasing? {
        CurHeld(s, q);
      }
    }
  }

  lemma HarmlessCancel(s: Pool, p: nat)
    requires ClaimsHeld(s) && Enabled(s, Cancel(p)) && !Strands(s, p)
    ensures ClaimsHeld(Exec(s, Cancel(p)))
  {
    var s' := Exec(s, Cancel(p));
    forall k | k in s'.claims ensures exists q :: q in s'.passes && k in Held(s'.passes[q].stage) {
      var q :| q in s.passes && k in Held(s.passes[q].stage);
      if q == p {
        assert !HeldOnlyBy(s, p, k);
        var other :| other in s.passes && k in Held(s.passes[other].stage) && other != p;
        assert other in s'.passes && s'.passes[other] == s.passes[other];
      } else {
        assert q in s'.passes && s'.passes[q] == s.passes[q];
      }
    }
  }

  lemma {:induction false} LeaksFromAny(s: Pool, steps: seq<Step>)
    requires ClaimsHeld(s) && Placed(s) && Keyed(s.latest) && EnabledRun(s, steps)
    ensures Leaked(ExecAll(s, steps)) <==> Stranding(s, steps)
    decreases |steps|
  {
    if steps != [] {
      var step, s', rest := steps[0], Exec(s, steps[0]), steps[1..];
      if step.Cancel? && Strands(s, step.p) {
        var k := StrandsLeak(s, step.p);
        AbandonedForever(s', rest, k);
        assert Abandoned(ExecAll(s, steps), k);
      } else {
        if step.Cancel? {
          HarmlessCancel(s, step.p);
        } else {
          StepClaims(s, step);
        }
        StepPlaced(s, step);
        LeaksFromAny(s', rest);
      }
    }
  }

  /** In every run, whatever its decisions met, a claim is left behind if and only if some
      pass was cancelled with a pod in its hands that was still claimed and in no other
      pass's hands. */
  lemma LeaksExactly(steps: seq<Step>)
    requires EnabledRun(EMPTY, steps)
    ensures Leaked(ExecAll(EMPTY, steps)) <==> Stranding(EMPTY, steps)
  {
    LeaksFromAny(EMPTY, steps);
  }

  // --- decisions ------------------------------------------------------------------------------

  // One pass at most is dialling any pod, and none a pod that has a tunnel.
  ghost predicate SingleDialling(s: Pool) {
    && (forall p, q, k :: Dials(s, p, k) && Dials(s, q, k) ==> p == q)
    && (forall p, k :: Dials(s, p, k) ==> k !in s.conns)
  }

  // It stays so as long as every further decision is harmless.
  ghost predicate SafeFrom(s: Pool) {
    forall steps :: EnabledRun(s, steps) && SteadyRun(s, steps) ==> SingleDialling(ExecAll(s, steps))
  }

  lemma InvSingle(s: Pool)
    requires Inv(s)
    ensures SingleDialling(s)
  {
    forall p, k | Dials(s, p, k) ensures k in Held(s.passes[p].stage) && k !in s.conns {
      assert PassOk(s, p);
      StageKeys(s.passes[p].stage);
    }
  }

  // Every tunnel is at its pod's reported identity, so no decision meets a changed one.
  predicate Settled(s: Pool) {
    && Keyed(s.latest)
    && forall c :: c in s.conns ==> c in s.latest && AgentIdentity(s.latest[c]) == ConnIdentity(s.conns[c])
  }

  predicate TodosKeyed(queue: seq<Todo>) { forall i :: 0 <= i < |queue| ==> queue[i].podKey == PodKeyOf(queue[i].ai) }

  // A pass still has k to dial, and nothing shows that it does: no claim, no tunnel.
  predicate Exposed(s: Pool, p: nat, i: nat, k: string) {
    && p in s.passes && s.passes[p].stage.Working? && TodosKeyed(s.passes[p].stage.queue)
    && i < |s.passes[p].stage.queue| && s.passes[p].stage.queue[i].podKey == k
    && k in s.latest && k !in s.claims && k !in s.conns && Settled(s)
  }

  // --- runs without surprises -------------------------------------------------------------------

  lemma {:induction false} SteadyJoin(s: Pool, a: seq<Step>, b: seq<Step>)
    requires EnabledRun(s, a) && SteadyRun(s, a)
    requires EnabledRun(ExecAll(s, a), b) && SteadyRun(ExecAll(s, a), b)
    ensures EnabledRun(s, a + b) && SteadyRun(s, a + b) && ExecAll(s, a + b) == ExecAll(ExecAll(s, a), b)
    decreases |a|
  {
    RunsJoin(s, a, b);
    if a == [] {
      assert a + b == b;
    } else {
      assert (a + b)[0] == a[0] && (a + b)[1..] == a[1..] + b;
      SteadyJoin(Exec(s, a[0]), a[1..], b);
    }
  }

  lemma {:induction false} NoDecisionSteady(s: Pool, steps: seq<Step>)
    requires EnabledRun(s, steps) && forall i :: 0 <= i < |steps| ==> !steps[i].Decide?
    ensures SteadyRun(s, steps)
    decreases |steps|
  {
    if steps != [] {
      NoDecisionSteady(Exec(s, steps[0]), steps[1..]);
    }
  }

  function Failures(n: nat): seq<bool> { seq(n, i => false) }

  lemma {:induction false} FailedSteps(p: nat, queue: seq<Todo>, n: nat)
    requires n <= |queue|
    ensures forall i :: 0 <= i < |QueueSteps(p, queue, Failures(n))| ==> !QueueSteps(p, queue, Failures(n))[i].Decide?
    decreases n
  {
    if n > 0 {
      assert Failures(n)[1..] == Failures(n - 1);
      FailedSteps(p, queue[1..], n - 1);
    }
  }

  lemma {:induction false} FailedQueue(ps: PoolState, queue: seq<Todo>, n: nat, dialler: string)
    requires n <= |queue|
    ensures RunQueue(ps, queue, Failures(n), dialler).conns == ps.conns
    ensures RunQueue(ps, queue, Failures(n), dialler).claims <= ps.claims
    ensures n > 0 && TodosKeyed(queue) ==> queue[n - 1].podKey !in RunQueue(ps, queue, Failures(n), dialler).claims
    decreases n
  {
    if n > 0 {
      assert Failures(n)[1..] == Failures(n - 1);
      FailedQueue(EstablishStep(ps, queue[0].ai, false, dialler), queue[1..], n - 1, dialler);
    }
  }

  // A pass whose next n dials all fail gets past them, and nothing else happens.
  lemma FailAway(s: Pool, p: nat, dialler: string, queue: seq<Todo>, n: nat) returns (steps: seq<Step>)
    requires Stands(s, p, dialler, queue) && TodosKeyed(queue) && n <= |queue|
    ensures EnabledRun(s, steps) && SteadyRun(s, steps)
    ensures var s' := ExecAll(s, steps);
      && Stands(s', p, dialler, queue[n..]) && s'.passes - {p} == s.passes - {p}
      && s'.latest == s.latest && s'.conns == s.conns && s'.claims <= s.claims
      && (n > 0 ==> queue[n - 1].podKey !in s'.claims)
  {
    steps := QueueSteps(p, queue, Failures(n));
    QueueRun(s, p, dialler, queue, Failures(n));
    FailedSteps(p, queue, n);
    NoDecisionSteady(s, steps);
    FailedQueue(View(s), queue, n, dialler);
  }

  // --- an exposed pod is dialled twice ------------------------------------------------------------

  lemma FreshPass(passes: map<nat, Pass>) returns (q: nat)
    ensures q !in passes
  {
    q := 0;
    var rest := passes.Keys;
    while q in passes
      invariant forall i :: 0 <= i < q ==> i in passes
      invariant rest <= passes.Keys && forall i :: i in rest ==> i >= q
      invariant forall i :: i in passes && i >= q ==> i in rest
      decreases rest
    {
      rest := rest - {q};
      q := q + 1;
    }
  }

  lemma Enumeration(s: set<string>) returns (ks: seq<string>)
    ensures Enumerates(ks, s)
  {
    ks := [];
    var rest := s;
    while rest != {}
      invariant rest <= s && Enumerates(ks, s - rest)
    {
      var k :| k in rest;
      rest := rest - {k};
      ks := ks + [k];
    }
  }

  // A new pass that wants k's workload takes k first.
  lemma NewPassTakes(s: Pool, p: nat, i: nat, k: string) returns (steps: seq<Step>, q: nat)
    requires Exposed(s, p, i, k)
    ensures q != p && EnabledRun(s, steps) && SteadyRun(s, steps)
    ensures var s' := ExecAll(s, steps); Dials(s', q, k) && s'.passes - {q} == s.passes
  {
    q := FreshPass(s.passes);
    var wanted := {AgentKeyOf(s.latest[k])};
    var missing := Enumeration(Missing(s.conns, s.latest, wanted, s.claims) - {k});
    missing := [k] + missing;
    var begin, decide, take := Begin(q, "", wanted), Decide(q, [], missing), Take(q);
    var s1 := Exec(s, begin);
    assert Changed(s.conns, s.latest, wanted) == {};
    assert Enabled(s1, decide);
    var s2 := Exec(s1, decide);
    assert Todos([] + missing, s.latest)[0].podKey == k;
    ThreeSteps(s, begin, decide, take);
    assert Steady(s1, decide);
    steps := [begin, decide, take];
    SteadyThree(s, begin, decide, take);
    assert ExecAll(s, steps).passes - {q} == s.passes;
  }

  lemma SteadyThree(s: Pool, a: Step, b: Step, c: Step)
    requires Enabled(s, a) && Enabled(Exec(s, a), b) && Enabled(Exec(Exec(s, a), b), c)
    requires Steady(s, a) && Steady(Exec(s, a), b) && Steady(Exec(Exec(s, a), b), c)
    ensures EnabledRun(s, [a, b, c]) && SteadyRun(s, [a, b, c])
  {
    ThreeSteps(s, a, b, c);
    assert [a, b, c][1..] == [b, c] && [b, c][1..] == [c] && [c][1..] == [];
    assert SteadyRun(Exec(Exec(s, a), b), [c]);
    assert SteadyRun(Exec(s, a), [b, c]);
  }

  lemma ExposedBreaks(s: Pool, p: nat, i: nat, k: string) returns (steps: seq<Step>, q: nat)
    requires Exposed(s, p, i, k)
    ensures q != p && EnabledRun(s, steps) && SteadyRun(s, steps)
    ensures Dials(ExecAll(s, steps), p, k) && Dials(ExecAll(s, steps), q, k)
  {
    var first;
    first, q := NewPassTakes(s, p, i, k);
    var s1 := ExecAll(s, first);
    var dialler, queue := s.passes[p].dialler, s.passes[p].stage.queue;
    assert s.passes[p] == s1.passes[p] by { assert p in s1.passes - {q}; }
    var next := FailAway(s1, p, dialler, queue, i);
    var s2 := ExecAll(s1, next);
    OneStep(s2, Take(p));
    assert [Take(p)][1..] == [];
    SteadyJoin(s1, next, [Take(p)]);
    SteadyJoin(s, first, next + [Take(p)]);
    steps := first + (next + [Take(p)]);
    assert q in s1.passes - {p} && q in s2.passes - {p};
    assert s2.passes[q] == s1.passes[q];
  }

  // --- an unsteady decision exposes a pod -----------------------------------------------------------

  // A changed pod is also missing: it stands in the queue twice.
  lemma QueuedTwice(s: Pool, p: nat, rebuilt: seq<string>, missing: seq<string>, k: string)
    returns (steps: seq<Step>, i: nat)
    requires Inv(s) && Enabled(s, Decide(p, rebuilt, missing)) && k in rebuilt && k in missing
    ensures var s1 := Exec(s, Decide(p, rebuilt, missing));
      && EnabledRun(s1, steps) && SteadyRun(s1, steps) && Exposed(ExecAll(s1, steps), p, i, k)
  {
    var s1, queue := Exec(s, Decide(p, rebuilt, missing)), Todos(rebuilt + missing, s.latest);
    QueueKeys(rebuilt + missing, s.latest);
    var a, b := TwoPlaces(s, rebuilt, missing, k);
    steps, i := TwiceExposed(s1, p, s.passes[p].dialler, queue, a, b);
  }

  lemma TwiceExposed(s: Pool, p: nat, dialler: string, queue: seq<Todo>, a: nat, b: nat)
    returns (steps: seq<Step>, i: nat)
    requires Stands(s, p, dialler, queue) && TodosKeyed(queue) && Settled(s)
    requires a < b < |queue| && queue[a].podKey == queue[b].podKey
    requires queue[a].podKey in s.latest && queue[a].podKey !in s.conns
    ensures EnabledRun(s, steps) && SteadyRun(s, steps) && Exposed(ExecAll(s, steps), p, i, queue[a].podKey)
  {
    steps := FailAway(s, p, dialler, queue, a + 1);
    i := b - (a + 1);
    assert queue[a + 1..][i] == queue[b];
  }

  lemma TwoPlaces(s: Pool, rebuilt: seq<string>, missing: seq<string>, k: string) returns (a: nat, b: nat)
    requires (forall j :: j in rebuilt + missing ==> j in s.latest) && k in rebuilt && k in missing
    ensures var queue := Todos(rebuilt + missing, s.latest); a < b < |queue| && queue[a].podKey == queue[b].podKey == k
  {
    a :| 0 <= a < |rebuilt| && rebuilt[a] == k;
    var j :| 0 <= j < |missing| && missing[j] == k;
    b := |rebuilt| + j;
    assert (rebuilt + missing)[a] == k && (rebuilt + missing)[b] == k;
  }

  // Another pass has just dialled it and is about to release its claim.
  lemma ReleasedUnder(s: Pool, p: nat, rebuilt: seq<string>, missing: seq<string>, k: string, q: nat)
    returns (steps: seq<Step>, i: nat)
    requires Inv(s) && Enabled(s, Decide(p, rebuilt, missing)) && k in rebuilt
    requires q in s.passes && q != p && k in Held(s.passes[q].stage)
    ensures var s1 := Exec(s, Decide(p, rebuilt, missing));
      && EnabledRun(s1, steps) && SteadyRun(s1, steps) && Exposed(ExecAll(s1, steps), p, i, k)
  {
    var s1, queue := Exec(s, Decide(p, rebuilt, missing)), Todos(rebuilt + missing, s.latest);
    QueueKeys(rebuilt + missing, s.latest);
    assert PassOk(s, q) && k in s.conns && s1.passes[q] == s.passes[q];
    assert s.passes[q].stage.Releasing?;
    CurHeld(s, q);
    assert s.passes[q].stage.cur.podKey == k;
    var a :| 0 <= a < |rebuilt| && rebuilt[a] == k;
    assert queue[a].podKey == k;
    steps, i := [Release(q)], a;
    OneStep(s1, Release(q));
    NoDecisionSteady(s1, steps);
  }

  lemma UnsteadyBreaks(s: Pool, p: nat, rebuilt: seq<string>, missing: seq<string>)
    returns (steps: seq<Step>, q: nat, k: string)
    requires Inv(s) && Enabled(s, Decide(p, rebuilt, missing)) && !Rebuildable(s, p, s.passes[p].stage.wanted)
    ensures var s1 := Exec(s, Decide(p, rebuilt, missing));
      && EnabledRun(s1, steps) && SteadyRun(s1, steps)
      && q != p && Dials(ExecAll(s1, steps), p, k) && Dials(ExecAll(s1, steps), q, k)
  {
    var wanted, s1 := s.passes[p].stage.wanted, Exec(s, Decide(p, rebuilt, missing));
    k :| k in Changed(s.conns, s.latest, wanted)
         && (k in Missing(s.conns, s.latest, wanted, s.claims)
             || exists q :: q in s.passes && q != p && k in Held(s.passes[q].stage));
    var first, i;
    if k in Missing(s.conns, s.latest, wanted, s.claims) {
      first, i := QueuedTwice(s, p, rebuilt, missing, k);
    } else {
      var other :| other in s.passes && other != p && k in Held(s.passes[other].stage);
      first, i := ReleasedUnder(s, p, rebuilt, missing, k, other);
    }
    var next;
    next, q := ExposedBreaks(ExecAll(s1, first), p, i, k);
    SteadyJoin(s1, first, next);
    steps := first + next;
  }

  /** A decision is safe - no run from it in which every further decision is harmless has
      two passes dialling one pod, or one dialling a pod with a tunnel - if and only if
      each changed address it meets is neither queued again as missing nor in another
      pass's hands. */
  lemma DecisionSafeWhen(s: Pool, p: nat, rebuilt: seq<string>, missing: seq<string>)
    requires Inv(s) && Enabled(s, Decide(p, rebuilt, missing))
    ensures SafeFrom(Exec(s, Decide(p, rebuilt, missing))) <==> Rebuildable(s, p, s.passes[p].stage.wanted)
  {
    var s1 := Exec(s, Decide(p, rebuilt, missing));
    if Rebuildable(s, p, s.passes[p].stage.wanted) {
      DecideInv(s, p, rebuilt, missing);
      forall steps | EnabledRun(s1, steps) && SteadyRun(s1, steps) ensures SingleDialling(ExecAll(s1, steps)) {
        RunInv(s1, steps);
        InvSingle(ExecAll(s1, steps));
      }
    } else {
      var steps, q, k := UnsteadyBreaks(s, p, rebuilt, missing);
      assert !SingleDialling(ExecAll(s1, steps));
    }
  }
}
