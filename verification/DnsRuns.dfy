/** Whole runs of the DNS-redirect controller: several schedules sharing one text,
    outsiders editing it, API calls failing in any way, and restarts. */
module DnsRuns {
  import opened Text
  import opened HostsText
  import opened HostsRefinement
  import opened HostsLaws
  import opened DnsController

  datatype System = System(text: string, states: map<string, State>)

  function StateOf(sys: System, n: string): State {
    if n in sys.states then sys.states[n] else FRESH
  }

  // A schedule the controller has ticked at least once and found shut.
  predicate Shut(st: State) { st.since != Never && !st.open }

  // One step: a tick of one schedule, an outsider's edit, or a replaced pod.
  datatype Step =
    | TickOf(sc: Redirect, want: bool, now: int, api: Api, drift: string)
    | Outside(text: string)
    | Restart

  function Exec(sys: System, step: Step): System {
    match step
    case TickOf(sc, want, now, api, drift) =>
      var (st, text) := Tick(StateOf(sys, sc.name), sys.text, sc, want, now, api, drift);
      System(text, sys.states[sc.name := st])
    case Outside(text) => sys.(text := text)
    case Restart => sys.(states := map[])
  }

  function ExecAll(sys: System, steps: seq<Step>): System
    decreases |steps|
  {
    if steps == [] then sys else ExecAll(Exec(sys, steps[0]), steps[1..])
  }

  // What an outsider's edit may do: keep each tag on at most one line, and not
  // bring a tag in while that schedule's window is shut. Taking a line out,
  // changing it, or editing anything else is free.
  predicate Tolerable(sys: System, names: set<string>, text: string) {
    forall n :: n in names ==>
      && |HeldIn(text, HostsTag(n))| <= 1
      && (Shut(StateOf(sys, n)) && HeldIn(sys.text, HostsTag(n)) == [] ==> HeldIn(text, HostsTag(n)) == [])
  }

  /** Outsiders are that free: a text may be anything that has each tag once at most, if it
      has none that was not there of a schedule whose window has been found shut. */
  lemma OutsidersMay(sys: System, names: set<string>, text: string)
    requires forall n :: n in names ==> |HeldIn(text, HostsTag(n))| <= 1
    requires forall n :: n in names && n in sys.states && sys.states[n].since != Never && !sys.states[n].open ==>
               HeldIn(text, HostsTag(n)) == [] || HeldIn(sys.text, HostsTag(n)) != []
    ensures Allowed(sys, names, Outside(text))
  {
  }

  function Entering(sys: System, sc: Redirect, want: bool, now: int): System {
    sys.(states := sys.states[sc.name := Entered(StateOf(sys, sc.name), want, now)])
  }

  predicate Allowed(sys: System, names: set<string>, step: Step) {
    match step
    case TickOf(sc, want, now, api, drift) =>
      WellFormed(sc) && sc.name in names && Tolerable(Entering(sys, sc, want, now), names, drift)
    case Outside(text) => Tolerable(sys, names, text)
    case Restart => true
  }

  predicate AllowedRun(sys: System, names: set<string>, steps: seq<Step>)
    decreases |steps|
  {
    steps == [] || (Allowed(sys, names, steps[0]) && AllowedRun(Exec(sys, steps[0]), names, steps[1..]))
  }

  // --- the invariant ------------------------------------------------------------------------

  predicate Sound(st: State, text: string, n: string) {
    && |HeldIn(text, HostsTag(n))| <= 1
    && (!st.applied && st.swept ==> HeldIn(text, HostsTag(n)) == [] && Shut(st))
  }

  predicate Inv(sys: System, names: set<string>) {
    forall n :: n in names ==> Sound(StateOf(sys, n), sys.text, n)
  }

  /** What one write leaves each schedule holding. */
  lemma WriteHeld(text: string, sc: Redirect, present: bool, api: Api, m: string)
    requires WellFormed(sc) && ValidName(m)
    ensures var w, q := WriteLine(text, sc, present, api), HeldIn(text, HostsTag(m));
      var q' := HeldIn(w.text, HostsTag(m));
      var done := if present then [HostsLine(sc)] + AfterFirst(q) else AfterFirst(q);
      && (m != sc.name ==> q' == q)
      && (m == sc.name ==> (w.ok ==> q' == done) && (q' == q || q' == done))
  {
    WriteTakes(text, sc, present, api);
    if present {
      ApplyHeld(text, sc, m);
    } else {
      RemoveHeld(text, sc.name, m);
    }
  }

  function Next(text: string, sc: Redirect, present: bool): string {
    if present then Apply(text, HostsLine(sc), HostsTag(sc.name)).0 else Remove(text, HostsTag(sc.name)).0
  }

  // A write leaves the edited text or the one it found, and reports well only of the first.
  lemma WriteTakes(text: string, sc: Redirect, present: bool, api: Api)
    requires WellFormed(sc)
    ensures var w := WriteLine(text, sc, present, api);
      (w.text == text || w.text == Next(text, sc, present)) && (w.ok ==> w.text == Next(text, sc, present))
  {
  }

  lemma WriteOwn(text: string, sc: Redirect, present: bool, api: Api)
    requires WellFormed(sc) && |HeldIn(text, HostsTag(sc.name))| <= 1
    ensures var w := WriteLine(text, sc, present, api); var q := HeldIn(w.text, HostsTag(sc.name));
      |q| <= 1 && (w.ok && !present ==> q == [])
  {
    WriteHeld(text, sc, present, api, sc.name);
  }

  lemma CheckOwn(st: State, text: string, sc: Redirect, now: int, api: Api, drift: string)
    requires WellFormed(sc) && st.applied
    requires |HeldIn(text, HostsTag(sc.name))| <= 1 && |HeldIn(drift, HostsTag(sc.name))| <= 1
    ensures var (st', text') := Checked(st, text, sc, now, api, drift);
      |HeldIn(text', HostsTag(sc.name))| <= 1 && (st'.applied || !st'.swept)
  {
    WriteOwn(drift, sc, true, api);
  }

  lemma TickOwn(st: State, text: string, sc: Redirect, want: bool, now: int, api: Api, drift: string)
    requires WellFormed(sc) && Sound(st, text, sc.name) && |HeldIn(drift, HostsTag(sc.name))| <= 1
    ensures var (st', text') := Tick(st, text, sc, want, now, api, drift); Sound(st', text', sc.name)
  {
    if want && !st.applied {
      WriteOwn(text, sc, true, api);
    } else if want {
      CheckOwn(Entered(st, want, now), text, sc, now, api, drift);
    } else if st.applied || !st.swept {
      WriteOwn(text, sc, false, api);
    }
  }

  /** Ticking one schedule leaves every other schedule's lines as it found them:
      the text's at the read, or the drifted text's at the write. */
  lemma TickOther(st: State, text: string, sc: Redirect, want: bool, now: int, api: Api, drift: string, m: string)
    requires WellFormed(sc) && ValidName(m) && m != sc.name
    ensures var q := HeldIn(Tick(st, text, sc, want, now, api, drift).1, HostsTag(m));
      q == HeldIn(text, HostsTag(m)) || q == HeldIn(drift, HostsTag(m))
  {
    WriteHeld(text, sc, want, api, m);
    WriteHeld(drift, sc, want, api, m);
  }

  lemma StepInv(sys: System, names: set<string>, step: Step)
    requires ValidNames(names) && Inv(sys, names) && Allowed(sys, names, step)
    ensures Inv(Exec(sys, step), names)
  {
    var sys' := Exec(sys, step);
    forall n | n in names ensures Sound(StateOf(sys', n), sys'.text, n) {
      assert Sound(StateOf(sys, n), sys.text, n);
      match step
      case Outside(text) =>
      case Restart =>
      case TickOf(sc, want, now, api, drift) =>
        var mid := Entering(sys, sc, want, now);
        assert |HeldIn(drift, HostsTag(n))| <= 1;
        if n == sc.name {
          TickOwn(StateOf(sys, n), sys.text, sc, want, now, api, drift);
        } else {
          assert StateOf(mid, n) == StateOf(sys, n) == StateOf(sys', n);
          TickOther(StateOf(sys, sc.name), sys.text, sc, want, now, api, drift, n);
        }
    }
  }

  /** In every run - any ticks of any schedules in any order, any wanted states, any
      mixture of API failures, any restarts, outsiders within their bounds - a
      schedule that believes itself closed and swept has no line in the text. */
  lemma {:induction false} RunInv(sys: System, names: set<string>, steps: seq<Step>)
    requires ValidNames(names) && Inv(sys, names) && AllowedRun(sys, names, steps)
    ensures Inv(ExecAll(sys, steps), names)
    decreases |steps|
  {
    if steps != [] {
      StepInv(sys, names, steps[0]);
      RunInv(Exec(sys, steps[0]), names, steps[1..]);
    }
  }

  // A pod starting over any text that keeps each tag to one line.
  predicate Starting(sys: System, names: set<string>) {
    sys.states == map[] && forall n :: n in names ==> |HeldIn(sys.text, HostsTag(n))| <= 1
  }

  /** No live redirect is ever forgotten: after any run, a tick that finds the
      window shut leaves the line gone, or leaves a problem on the status and a
      state from which the next tick of a shut window tries again. When its calls
      work, the line is gone. */
  lemma NeverForgotten(sys: System, names: set<string>, steps: seq<Step>, sc: Redirect, now: int, api: Api,
                       drift: string)
    requires ValidNames(names) && Starting(sys, names) && AllowedRun(sys, names, steps)
    requires var end := ExecAll(sys, steps); Allowed(end, names, TickOf(sc, false, now, api, drift))
    ensures var end := Exec(ExecAll(sys, steps), TickOf(sc, false, now, api, drift));
      var st, held := StateOf(end, sc.name), HeldIn(end.text, HostsTag(sc.name));
      && (held != [] ==> st.problem != NoProblem && (st.applied || !st.swept))
      && (api.get && api.put == Stored ==> held == [] && st.problem == NoProblem && st.swept && !st.applied)
  {
    RunInv(sys, names, steps);
    var end := ExecAll(sys, steps);
    assert Sound(StateOf(end, sc.name), end.text, sc.name);
    WriteHeld(end.text, sc, false, api, sc.name);
  }

  /** A pod that is replaced remembers nothing, and so takes nothing on trust: whatever the
      text has become, a schedule's first tick after it, if its calls work, takes a line
      out that the window does not want, and puts one in that it does. */
  lemma RestartStartsOver(sys: System, sc: Redirect, want: bool, now: int, drift: string)
    requires WellFormed(sc) && |HeldIn(sys.text, HostsTag(sc.name))| <= 1
    ensures var end := Exec(Exec(sys, Restart), TickOf(sc, want, now, WORKING, drift));
      HeldIn(end.text, HostsTag(sc.name)) == if want then [HostsLine(sc)] else []
  {
    WriteHeld(sys.text, sc, want, WORKING, sc.name);
  }

  // --- what the status says ------------------------------------------------------------------

  lemma WriteTells(text: string, sc: Redirect, api: Api)
    requires WellFormed(sc)
    ensures var w := WriteLine(text, sc, true, api); w.ok ==> Find(w.text, HostsTag(sc.name)) == (HostsLine(sc), true)
  {
    ApplyIdempotent(text, sc);
    ApplyChanged(text, sc);
  }

  lemma HaveTells(text: string, sc: Redirect)
    requires WellFormed(sc) && Have(text, sc) == HostsLine(sc)
    ensures Find(text, HostsTag(sc.name)) == (HostsLine(sc), true)
  {
  }

  // The schedule's own line in a text, by what its fields say to a resolver.
  predicate Redirected(text: string, sc: Redirect) {
    var (line, found) := Find(text, HostsTag(sc.name));
    found && |Fields(line)| >= 2 && Fields(line)[0] == sc.redirectTo && Fields(line)[1] == sc.hostname
  }

  lemma LineRedirects(text: string, sc: Redirect)
    requires WellFormed(sc) && Find(text, HostsTag(sc.name)) == (HostsLine(sc), true)
    ensures Redirected(text, sc)
  {
    LineReadsBack(sc);
  }

  lemma UpShows(st: State, text: string, sc: Redirect, want: bool, now: int, api: Api, drift: string)
    requires WellFormed(sc)
    ensures var (st', text') := Tick(st, text, sc, want, now, api, drift);
      && st'.open == want
      && (st'.up <==> st'.open && st'.problem == NoProblem)
      && (st'.up ==> Find(text', HostsTag(sc.name)) == (HostsLine(sc), true))
  {
    if want && !st.applied {
      WriteTells(text, sc, api);
    } else if want {
      if Have(text, sc) == HostsLine(sc) {
        HaveTells(text, sc);
      } else {
        WriteTells(drift, sc, api);
      }
    }
  }

  /** After every tick, whatever the API answered: the status says open exactly as
      wanted, up if and only if open without a problem, and up means the exact line
      was in the text: an entry for the host name at the redirect's address. */
  lemma StatusTells(st: State, text: string, sc: Redirect, want: bool, now: int, api: Api, drift: string)
    requires WellFormed(sc)
    ensures var (st', text') := Tick(st, text, sc, want, now, api, drift);
      && st'.open == want
      && (st'.up <==> st'.open && st'.problem == NoProblem)
      && (st'.up ==> Find(text', HostsTag(sc.name)) == (HostsLine(sc), true) && Redirected(text', sc))
  {
    UpShows(st, text, sc, want, now, api, drift);
    var (st', text') := Tick(st, text, sc, want, now, api, drift);
    if st'.up {
      LineRedirects(text', sc);
    }
  }

  // --- recycling --------------------------------------------------------------------------------

  // A schedule whose ticks have all worked so far, seen between ticks.
  predicate Settled(st: State) { st.since != Never ==> st.swept && st.applied == st.open }

  // Whether a tick moves the schedule to the other side of its window; the first
  // tick always does.
  predicate Moves(st: State, want: bool) { st.since == Never || want != st.open }

  // Whether the text still has to change for the wanted side.
  predicate Differs(text: string, sc: Redirect, want: bool) {
    if want then Find(text, HostsTag(sc.name)) != (HostsLine(sc), true) else Find(text, HostsTag(sc.name)).1
  }

  /** Without API failures, a tick recycles pods if and only if it moves the window
      and the text was not already as wanted: never for an adopted line, and never
      for a line the drift check puts back. */
  lemma RecyclesWhen(st: State, text: string, sc: Redirect, want: bool, now: int, drift: string)
    requires WellFormed(sc) && Settled(st) && (st.since == Never ==> st == FRESH)
    ensures var st' := Tick(st, text, sc, want, now, WORKING, drift).0;
      && Settled(st') && st'.since != Never && st'.open == want
      && st'.recycles == st.recycles + if Moves(st, want) && Differs(text, sc, want) then 1 else 0
  {
  }

  // One schedule's ticks without API failures, each meeting whatever text others
  // have made of it by then.
  datatype Meeting = Meeting(want: bool, now: int, text: string, drift: string)

  function Ticks(st: State, sc: Redirect, ms: seq<Meeting>): State
    decreases |ms|
  {
    if ms == [] then st
    else Ticks(Tick(st, ms[0].text, sc, ms[0].want, ms[0].now, WORKING, ms[0].drift).0, sc, ms[1..])
  }

  // How often the wanted state changes along them, counting the first tick.
  function Changes(open: bool, first: bool, ms: seq<Meeting>): nat
    decreases |ms|
  {
    if ms == [] then 0
    else (if first || ms[0].want != open then 1 else 0) + Changes(ms[0].want, false, ms[1..])
  }

  /** So in any run without API failures pods are recycled at most once per change of
      the wanted state, however often others fight over the line in between. */
  lemma {:induction false} RecyclesAtMost(st: State, sc: Redirect, ms: seq<Meeting>)
    requires WellFormed(sc) && Settled(st) && (st.since == Never ==> st == FRESH)
    ensures Ticks(st, sc, ms).recycles <= st.recycles + Changes(st.open, st.since == Never, ms)
    decreases |ms|
  {
    if ms != [] {
      var m := ms[0];
      RecyclesWhen(st, m.text, sc, m.want, m.now, m.drift);
      RecyclesAtMost(Tick(st, m.text, sc, m.want, m.now, WORKING, m.drift).0, sc, ms[1..]);
    }
  }

  /** The case failures open: a write that took effect and was reported failed is
      adopted by the next tick, and the pods are not recycled for it at all. */
  lemma UnheardWriteIsAdopted(st: State, text: string, sc: Redirect, now: int, later: int, drift: string)
    requires WellFormed(sc) && !st.applied && Differs(text, sc, true)
    ensures var (st1, text1) := Tick(st, text, sc, true, now, Api(true, true, StoredUnheard), drift);
      var (st2, text2) := Tick(st1, text1, sc, true, later, WORKING, drift);
      && st1.problem == Opening && !Differs(text1, sc, true)
      && st2.up && text2 == text1 && st2.recycles == st.recycles
  {
    ApplyChanged(text, sc);
    ApplyIdempotent(text, sc);
  }
}
