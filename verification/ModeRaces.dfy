/** The mode check and the add as the separate steps they are: any number of callers, each
    checking and then adding, with anything in between. */
module ModeRaces {
  import opened Registry
  import opened HandlerInvariant

  // What a caller carries from its check to its add: the entry, and when it checked.
  datatype Cleared = Cleared(e: Entry, since: nat)

  // clock counts the acts so far, and added is the act that put each entry in.
  datatype Race = Race(r: Table, added: map<ServiceKey, nat>, cleared: map<nat, Cleared>, clock: nat)

  const QUIET := Race(map[], map[], map[], 0)

  // Update is any change in place: reports, tunnels, deadlines.
  datatype Act =
    | Check(caller: nat, e: Entry)
    | Add(caller: nat, now: int)
    | GiveUp(caller: nat)
    | Remove(k: ServiceKey)
    | Update(r: Table)

  predicate SameIntercepts(r: Table, r': Table) {
    r'.Keys == r.Keys
    && forall k :: k in r ==> KeyOf(r'[k]) == KeyOf(r[k]) && r'[k].name == r[k].name && r'[k].global == r[k].global
  }

  predicate Enabled(s: Race, a: Act) {
    match a
    case Check(c, e) => c !in s.cleared && !InConflict(s.r, e)
    case Add(c, now) => c in s.cleared
    case GiveUp(c) => c in s.cleared
    case Remove(k) => true
    case Update(r) => SameIntercepts(s.r, r)
  }

  function Acted(s: Race, a: Act): Race
    requires Enabled(s, a)
  {
    match a
    case Check(c, e) => s.(cleared := s.cleared[c := Cleared(e, s.clock)])
    case Add(c, now) =>
      var e, rest := s.cleared[c].e, s.cleared - {c};
      if NameTaken(s.r, e) then s.(cleared := rest)
      else s.(r := Added(s.r, e, now), added := s.added[KeyOf(e) := s.clock], cleared := rest)
    case GiveUp(c) => s.(cleared := s.cleared - {c})
    case Remove(k) => s.(r := s.r - {k}, added := s.added - {k})
    case Update(r) => s.(r := r)
  }

  function Exec(s: Race, a: Act): Race
    requires Enabled(s, a)
  {
    Acted(s, a).(clock := s.clock + 1)
  }

  predicate EnabledRun(s: Race, acts: seq<Act>)
    decreases |acts|
  {
    acts == [] || (Enabled(s, acts[0]) && EnabledRun(Exec(s, acts[0]), acts[1..]))
  }

  // --- what is kept whatever happens -----------------------------------------------------------

  // What conflicts with a cleared entry was put in after its check.
  predicate LaterOnly(s: Race)
    requires s.added.Keys == s.r.Keys
  {
    forall c, k :: c in s.cleared && k in s.r && Conflicts(s.r, s.cleared[c].e, k) ==>
                   s.added[k] >= s.cleared[c].since
  }

  ghost predicate Kept(s: Race) {
    && Keyed(s.r) && s.added.Keys == s.r.Keys && LaterOnly(s)
    && forall c :: c in s.cleared ==> s.cleared[c].since <= s.clock
  }

  lemma StepKept(s: Race, a: Act)
    requires s.added.Keys == s.r.Keys && Kept(s) && Enabled(s, a)
    ensures Kept(Exec(s, a))
  {
    var s' := Exec(s, a);
    forall c, k | c in s'.cleared && k in s'.r && Conflicts(s'.r, s'.cleared[c].e, k)
      ensures s'.added[k] >= s'.cleared[c].since
    {
      if c in s.cleared && k in s.r && s'.added[k] == s.added[k] && s'.cleared[c] == s.cleared[c] {
        assert Conflicts(s.r, s.cleared[c].e, k) || s'.added[k] == s.clock;
      }
    }
  }

  // --- races -----------------------------------------------------------------------------------

  // A caller adds although somebody has put in a conflicting entry since it checked.
  predicate Overtaken(s: Race, a: Act)
    requires s.added.Keys == s.r.Keys
  {
    a.Add? && a.caller in s.cleared && !NameTaken(s.r, s.cleared[a.caller].e)
    && exists k :: k in s.r && Conflicts(s.r, s.cleared[a.caller].e, k) && s.added[k] >= s.cleared[a.caller].since
  }

  ghost predicate SomeOvertaken(s: Race, acts: seq<Act>)
    requires Kept(s) && EnabledRun(s, acts)
    decreases |acts|
  {
    acts != []
    && (Overtaken(s, acts[0]) || (StepKept(s, acts[0]); SomeOvertaken(Exec(s, acts[0]), acts[1..])))
  }

  // No workload carries both modes, now and at every moment of the run.
  ghost predicate OneModeThroughout(s: Race, acts: seq<Act>)
    requires EnabledRun(s, acts)
    decreases |acts|
  {
    OneMode(s.r) && (acts == [] || OneModeThroughout(Exec(s, acts[0]), acts[1..]))
  }

  /** One act breaks the one mode exactly when it is an add that was overtaken. */
  lemma StepMode(s: Race, a: Act)
    requires Kept(s) && OneMode(s.r) && Enabled(s, a)
    ensures OneMode(Exec(s, a).r) <==> !Overtaken(s, a)
  {
    if a.Add? && !NameTaken(s.r, s.cleared[a.caller].e) {
      var e := s.cleared[a.caller].e;
      ModeCheckExact(s.r, e, a.now);
      if InConflict(s.r, e) {
        var k :| k in s.r && Conflicts(s.r, e, k);
        assert s.added[k] >= s.cleared[a.caller].since;
      }
    }
  }

  lemma {:induction false} ModesFrom(s: Race, acts: seq<Act>)
    requires Kept(s) && OneMode(s.r) && EnabledRun(s, acts)
    ensures OneModeThroughout(s, acts) <==> !SomeOvertaken(s, acts)
    decreases |acts|
  {
    if acts != [] {
      StepKept(s, acts[0]);
      StepMode(s, acts[0]);
      if !Overtaken(s, acts[0]) {
        ModesFrom(Exec(s, acts[0]), acts[1..]);
      }
    }
  }

  /** In any run of checks and adds by any number of callers, no workload ever carries both
      modes if and only if no caller adds after somebody else put in, since its check, an
      entry that conflicts with its own. */
  lemma ModesHoldWhen(acts: seq<Act>)
    requires EnabledRun(QUIET, acts)
    ensures OneModeThroughout(QUIET, acts) <==> !SomeOvertaken(QUIET, acts)
  {
    ModesFrom(QUIET, acts);
  }

  function Someone(workID: string, global: bool): Entry {
    Entry(workID, "shop", "cart", workID, global, "", "", "cart", 80, "", 0, 0, Status("", ""), [], 0)
  }

  /** It does happen: two callers on one workload, of two modes, both check and both add. */
  lemma RaceAtWork()
    ensures exists acts :: EnabledRun(QUIET, acts) && !OneModeThroughout(QUIET, acts)
  {
    var a, b := Someone("one", true), Someone("two", false);
    var s1 := Exec(QUIET, Check(0, a));
    var s2 := Exec(s1, Check(1, b));
    var s3 := Exec(s2, Add(0, 1));
    assert KeyOf(a).workID == "one" && KeyOf(b).workID == "two" && "one" != "two";
    assert !NameTaken(s3.r, b);
    var s4 := Exec(s3, Add(1, 1));
    assert s4.r[KeyOf(a)].global != s4.r[KeyOf(b)].global && AgentKey(s4.r[KeyOf(a)]) == AgentKey(s4.r[KeyOf(b)]);
    assert !OneMode(s4.r);
    var d := [Add(1, 1)];
    var c := [Add(0, 1)] + d;
    var e := [Check(1, b)] + c;
    var acts := [Check(0, a)] + e;
    assert acts[1..] == e && e[1..] == c && c[1..] == d && d[1..] == [];
    assert EnabledRun(s4, []) && !OneModeThroughout(s4, []);
    assert EnabledRun(s3, d) && !OneModeThroughout(s3, d);
    assert EnabledRun(s2, c) && !OneModeThroughout(s2, c);
    assert EnabledRun(s1, e) && !OneModeThroughout(s1, e);
    assert EnabledRun(QUIET, acts) && !OneModeThroughout(QUIET, acts);
  }
}
