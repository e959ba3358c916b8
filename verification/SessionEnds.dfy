/** The end of a session as the protocol runs it: its namespace is closed, then every dial
    loop that runs under its watcher's context ends, whatever namespace its pod is in. */
module SessionEnds {
  import opened Agents
  import opened PassLaws
  import opened PoolProtocol
  import opened PoolRefinement

  // The tunnels left by the closing that run under this watcher's context.
  function Orphaned(conns: Conns, ns: string): set<string> {
    set k | k in conns && conns[k].ns != ns && conns[k].dialler == ns
  }

  function LoopExits(ks: seq<string>): seq<Step> { seq(|ks|, i requires 0 <= i < |ks| => LoopExit(ks[i])) }

  function EndSteps(ns: string, ks: seq<string>): seq<Step> { [CloseNamespace(ns)] + LoopExits(ks) }

  lemma {:induction false} LoopsEnd(s: Pool, ks: seq<string>)
    requires NoDups(ks) && forall k :: k in ks ==> k in s.conns
    ensures EnabledRun(s, LoopExits(ks))
    ensures ExecAll(s, LoopExits(ks)).conns == map k | k in s.conns && k !in ks :: s.conns[k]
    decreases |ks|
  {
    if ks != [] {
      var s', rest := Exec(s, LoopExit(ks[0])), ks[1..];
      assert LoopExits(ks)[1..] == LoopExits(rest);
      assert ks == [ks[0]] + rest && ks[0] !in rest;
      LoopsEnd(s', rest);
    }
  }

  /** The end of a session is a run of the protocol, and what it leaves is every tunnel
      that neither is of that namespace nor was dialled by its watcher. */
  lemma EndRun(s: Pool, ns: string, ks: seq<string>)
    requires Enumerates(ks, Orphaned(s.conns, ns))
    ensures EnabledRun(s, EndSteps(ns, ks)) && ExecAll(s, EndSteps(ns, ks)).conns == SessionEnded(s.conns, ns)
  {
    var s' := Exec(s, CloseNamespace(ns));
    LoopsEnd(s', ks);
    StepThen(s, CloseNamespace(ns), LoopExits(ks));
  }

  // --- who dialled a tunnel, by the run's own account -----------------------------------------

  // This step puts k's tunnel in the pool, for a pass of this watcher.
  ghost predicate Installs(s: Pool, step: Step, k: string, ns: string) {
    && step.Install? && Enabled(s, step)
    && s.passes[step.p].dialler == ns && s.passes[step.p].stage.cur.podKey == k && k !in s.conns
  }

  // k has a tunnel now and at every moment of the run.
  ghost predicate StaysUp(s: Pool, steps: seq<Step>, k: string)
    requires EnabledRun(s, steps)
    decreases |steps|
  {
    k in s.conns && (steps == [] || StaysUp(Exec(s, steps[0]), steps[1..], k))
  }

  // Somewhere in the run a pass of this watcher installed k's tunnel, and it stayed.
  ghost predicate InstalledFor(s: Pool, steps: seq<Step>, k: string, ns: string)
    requires EnabledRun(s, steps)
    decreases |steps|
  {
    steps != []
    && ((Installs(s, steps[0], k, ns) && StaysUp(Exec(s, steps[0]), steps[1..], k))
        || InstalledFor(Exec(s, steps[0]), steps[1..], k, ns))
  }

  // A step leaves the tunnels it leaves as they are.
  lemma StepKeeps(s: Pool, step: Step, k: string)
    requires Enabled(s, step) && k in Exec(s, step).conns
    ensures k in s.conns ==> Exec(s, step).conns[k] == s.conns[k]
    ensures k !in s.conns ==> Installs(s, step, k, Exec(s, step).conns[k].dialler)
  {
  }

  lemma {:induction false} StaysSame(s: Pool, steps: seq<Step>, k: string)
    requires EnabledRun(s, steps) && StaysUp(s, steps, k)
    ensures k in ExecAll(s, steps).conns && ExecAll(s, steps).conns[k] == s.conns[k]
    decreases |steps|
  {
    if steps != [] {
      StaysSame(Exec(s, steps[0]), steps[1..], k);
      StepKeeps(s, steps[0], k);
    }
  }

  lemma {:induction false} DialledBy(s: Pool, steps: seq<Step>, k: string, ns: string)
    requires EnabledRun(s, steps)
    ensures k in ExecAll(s, steps).conns && ExecAll(s, steps).conns[k].dialler == ns
            <==> InstalledFor(s, steps, k, ns) || (StaysUp(s, steps, k) && s.conns[k].dialler == ns)
    decreases |steps|
  {
    if steps != [] {
      var s', rest := Exec(s, steps[0]), steps[1..];
      DialledBy(s', rest, k, ns);
      if k in s'.conns {
        StepKeeps(s, steps[0], k);
      }
    }
  }

  /** At the end of any run, the end of a session takes exactly the tunnels of its
      namespace and those, in any namespace, that a pass of its watcher installed and
      that have been up since. */
  lemma SessionEndTakes(steps: seq<Step>, ns: string, ks: seq<string>, k: string)
    requires EnabledRun(EMPTY, steps)
    requires var s := ExecAll(EMPTY, steps); Enumerates(ks, Orphaned(s.conns, ns)) && k in s.conns
    ensures var s := ExecAll(EMPTY, steps);
      && EnabledRun(s, EndSteps(ns, ks))
      && (k !in ExecAll(s, EndSteps(ns, ks)).conns <==> s.conns[k].ns == ns || InstalledFor(EMPTY, steps, k, ns))
  {
    EndRun(ExecAll(EMPTY, steps), ns, ks);
    DialledBy(EMPTY, steps, k, ns);
  }
}
