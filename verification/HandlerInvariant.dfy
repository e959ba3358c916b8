/** What the registry keeps, one operation at a time: entries under their own keys, names
    unique, one mode a workload, only schedules' intercepts without a deadline. */
module HandlerInvariant {
  import opened Registry
  import opened Handlers

  // What is declared at start: the server's settings and its intercept schedules.
  // Names of DNS schedules are reserved too.
  datatype Setting = Setting(cfg: Config, scs: set<Scheduled>)

  // What loading the schedule file guarantees.
  ghost predicate Declared(s: Setting) {
    && (forall sc :: sc in s.scs ==> sc.name in s.cfg.reserved && sc.name != "")
    && (forall a, b :: a in s.scs && b in s.scs && a.name == b.name ==> a == b)
  }

  // A preview as a request describes it.
  predicate Requested(e: Entry) { !e.global && e.schedule == "" && e.expiresAt == 0 && e.raisedAt == 0 }

  // --- the invariant -----------------------------------------------------------------------

  ghost predicate Keyed(r: Table) { forall k :: k in r ==> KeyOf(r[k]) == k }

  ghost predicate NamesUnique(r: Table) { forall j, k :: j in r && k in r && r[j].name == r[k].name ==> j == k }

  // A workload runs in one intercept mode at a time.
  ghost predicate OneMode(r: Table) {
    forall j, k :: j in r && k in r && AgentKey(r[j]) == AgentKey(r[k]) ==> r[j].global == r[k].global
  }

  // Scheduled intercepts are the global ones, stand under reserved work ids, and
  // never expire; every other preview shares its work id's deadline, and has one
  // if and only if there is a lifetime.
  predicate Sorted(e: Entry, cfg: Config) {
    && e.global == (e.schedule != "") == (e.workID in cfg.reserved)
    && (e.expiresAt != 0 <==> !e.global && cfg.lifetime > 0)
  }

  ghost predicate AllSorted(r: Table, cfg: Config) { forall k :: k in r ==> Sorted(r[k], cfg) }

  ghost predicate OneDeadline(r: Table) {
    forall j, k :: j in r && k in r && j.workID == k.workID ==> r[j].expiresAt == r[k].expiresAt
  }

  ghost predicate Inv(r: Table, cfg: Config) {
    Keyed(r) && NamesUnique(r) && OneMode(r) && AllSorted(r, cfg) && OneDeadline(r)
  }

  lemma InvSubset(r: Table, r': Table, cfg: Config)
    requires Inv(r, cfg) && r'.Keys <= r.Keys && forall k :: k in r' ==> r'[k] == r[k]
    ensures Inv(r', cfg)
  {
  }

  // What is said of an intercept and its tunnels may change, and nothing else.
  predicate SameBut(e: Entry, e': Entry) {
    e' == e.(status := e'.status, agentPods := e'.agentPods, reported := e'.reported)
  }

  lemma InvUpdated(r: Table, r': Table, cfg: Config)
    requires Inv(r, cfg) && r'.Keys == r.Keys && forall k :: k in r ==> SameBut(r[k], r'[k])
    ensures Inv(r', cfg)
  {
  }

  lemma InvNoted(r: Table, cfg: Config, name: string, status: Status)
    requires Inv(r, cfg)
    ensures Inv(Noted(r, name, status), cfg)
  {
    InvUpdated(r, Noted(r, name, status), cfg);
  }

  lemma InvTouched(r: Table, cfg: Config, workID: string, until: int)
    requires Inv(r, cfg) && cfg.lifetime > 0 && until > 0
    ensures Inv(Touched(r, workID, until), cfg)
  {
    TouchedShape(r, workID, until);
    var r' := Touched(r, workID, until);
    forall k | k in r'
      ensures Sorted(r'[k], cfg) && (r'[k] == r[k] || (k.workID == workID && r'[k].expiresAt == until))
    {
      assert Sorted(r[k], cfg);
    }
    forall j, k | j in r' && k in r' && j.workID == k.workID ensures r'[j].expiresAt == r'[k].expiresAt {
      assert Sorted(r[j], cfg) && Sorted(r[k], cfg);
    }
  }

  /** The mode check is exact: taking an entry in keeps every workload in one mode if
      and only if the check finds no conflict. */
  lemma ModeCheckExact(r: Table, e: Entry, now: int)
    requires Keyed(r) && OneMode(r)
    ensures OneMode(Added(r, e, now)) <==> !InConflict(r, e)
  {
    var r' := Added(r, e, now);
    if InConflict(r, e) {
      var k :| k in r && Conflicts(r, e, k);
      assert r'[k] == r[k] && r'[KeyOf(e)].global == e.global && AgentKey(r'[KeyOf(e)]) == AgentKey(e);
    } else {
      forall k | k in r && k != KeyOf(e) && AgentKey(r[k]) == AgentKey(e) ensures r[k].global == e.global {
        assert !Conflicts(r, e, k);
      }
    }
  }

  /** So is the name check. */
  lemma NameCheckExact(r: Table, e: Entry, now: int)
    requires Keyed(r) && NamesUnique(r)
    ensures NamesUnique(Added(r, e, now)) <==> !NameTaken(r, e)
  {
    var r' := Added(r, e, now);
    if NameTaken(r, e) {
      var k :| k in r && r[k].name == e.name && k != KeyOf(e);
      assert r'[k] == r[k] && r'[KeyOf(e)].name == e.name;
    }
  }

  /** What two callers leave that both check the mode before either adds: one mode, if
      and only if they do not conflict with each other. The name check has no such
      gap, being part of the add. */
  lemma ChecksBeforeAdds(r: Table, a: Entry, b: Entry, now: int)
    requires Keyed(r) && OneMode(r) && !InConflict(r, a) && !InConflict(r, b)
    ensures OneMode(Added(Added(r, a, now), b, now)) <==>
            KeyOf(a) == KeyOf(b) || AgentKey(a) != AgentKey(b) || a.global == b.global
  {
    var r1 := Added(r, a, now);
    ModeCheckExact(r, a, now);
    ModeCheckExact(r1, b, now);
    forall k | k in r && k != KeyOf(a) ensures !Conflicts(r1, b, k) {
      assert r1[k] == r[k] && !Conflicts(r, b, k);
    }
    assert InConflict(r1, b) <==> Conflicts(r1, b, KeyOf(a));
  }

  // A table as it stands after an add and before the deadline is set.
  lemma InvAdded(r: Table, e: Entry, cfg: Config, now: int)
    requires Inv(r, cfg) && !InConflict(r, e) && !NameTaken(r, e)
    requires Sorted(e, cfg) && forall k :: k in r && k.workID == e.workID ==> r[k].expiresAt == e.expiresAt
    ensures Inv(Added(r, e, now), cfg)
  {
    ModeCheckExact(r, e, now);
    NameCheckExact(r, e, now);
  }

  lemma TouchedShape(r: Table, workID: string, until: int)
    requires Keyed(r) && NamesUnique(r) && OneMode(r)
    ensures var r' := Touched(r, workID, until); Keyed(r') && NamesUnique(r') && OneMode(r')
  {
  }

  lemma InvOpened(r: Table, st: IState, sc: Scheduled, s: Setting, session: bool, raised: bool, shown: Status, now: int)
    requires Inv(r, s.cfg) && Declared(s) && sc in s.scs && ScheduleKey(sc) !in r
    ensures Inv(OpenedWindow(r, st, sc, session, raised, shown, now).0, s.cfg)
  {
    var e := ScheduleEntry(sc);
    if session && !InConflict(r, e) && !NameTaken(r, e) {
      forall k | k in r && k.workID == e.workID ensures r[k].expiresAt == 0 {
        assert Sorted(r[k], s.cfg) && KeyOf(r[k]) == k;
      }
      var r1 := Added(r, e, now);
      InvAdded(r, e, s.cfg, now);
      if !raised {
        InvSubset(r1, r1 - {KeyOf(e)}, s.cfg);
      } else {
        InvNoted(r1, s.cfg, e.name, shown);
      }
    }
  }

  lemma InvReRaised(r: Table, st: IState, sc: Scheduled, s: Setting, w: TickWorld, now: int)
    requires Inv(r, s.cfg) && Declared(s) && sc in s.scs
    ensures Inv(ReRaised(r, st, sc, w, now).0, s.cfg)
  {
    InvSubset(r, r - {ScheduleKey(sc)}, s.cfg);
    InvOpened(r - {ScheduleKey(sc)}, st.(up := false, reRaises := st.reRaises + 1), sc, s, w.sessionNow, w.raised,
        w.shown, now);
  }

  lemma InvTicked(r: Table, st0: IState, sc: Scheduled, s: Setting, want: bool, w: TickWorld, now: int)
    requires Inv(r, s.cfg) && Declared(s) && sc in s.scs
    ensures Inv(Ticked(r, st0, sc, want, w, now).0, s.cfg)
  {
    var st := EnteredWindow(st0, want, now);
    var k := ScheduleKey(sc);
    if want && k !in r {
      InvOpened(r, st, sc, s, w.session, w.raised, w.shown, now);
    } else if want {
      InvChecked(r, st, sc, s, w, now);
    } else {
      InvSubset(r, r - {k}, s.cfg);
    }
  }

  lemma InvChecked(r: Table, st: IState, sc: Scheduled, s: Setting, w: TickWorld, now: int)
    requires Inv(r, s.cfg) && Declared(s) && sc in s.scs && ScheduleKey(sc) in r
    ensures Inv(CheckedWindow(r, st, sc, w, now).0, s.cfg)
  {
    match w.answer
    case NotFound => InvReRaised(r, st, sc, s, w, now);
    case AskFailed =>
    case Got(disposition, shown) =>
      var r1 := Noted(r, r[ScheduleKey(sc)].name, shown);
      InvNoted(r, s.cfg, r[ScheduleKey(sc)].name, shown);
      InvReRaised(r1, st, sc, s, w, now);
  }
}
