/** What an entry carries - its deadline, what the manager said of it, its tunnels - and what
    a schedule's state dates from, told by the events of the run behind them. */
module EntryHistory {
  import opened Registry
  import opened Handlers
  import opened HandlerInvariant
  import opened RegistryRuns
  import opened RegistryHistory
  import opened PostLaws
  import opened Answers

  // --- deadlines ---------------------------------------------------------------------------------

  // Whether this event sets a work id's deadline: a POST for it that is taken, or the end
  // of an expiry of it that was not confirmed.
  predicate Sets(sys: System, s: Setting, ev: Event, id: string) {
    match ev
    case Post(e, w) => e.workID == id && Takes(sys, s, ev, KeyOf(e))
    case ExpiryEnd(gone, until) => !gone && sys.reaping.Polling? && sys.reaping.id == id
    case _ => false
  }

  function SetTo(s: Setting, ev: Event): int
    requires ev.Post? || ev.ExpiryEnd?
  {
    if ev.Post? then ev.w.now + s.cfg.lifetime else ev.until
  }

  // The deadline last set, or the one given.
  function LastDeadline(sys: System, s: Setting, evs: seq<Event>, id: string, at: int): int
    decreases |evs|
  {
    if evs == [] then at
    else LastDeadline(Exec(sys, s, evs[0]), s, evs[1..], id, if Sets(sys, s, evs[0], id) then SetTo(s, evs[0]) else at)
  }

  lemma PostDeadline(r: Table, e: Entry, cfg: Config, w: AddWorld, k: ServiceKey)
    requires Inv(r, cfg) && Requested(e) && cfg.lifetime > 0
    ensures var (r', reply) := AddHandled(r, e, cfg, w);
      k in r' ==> if k.workID == e.workID && reply in [Raised, Rolled, Unchanged]
                  then r'[k].expiresAt == w.now + cfg.lifetime
                  else k in r && r'[k].expiresAt == r[k].expiresAt
  {
    if k.workID != e.workID {
      OthersUntouched(r, e, cfg, w, k);
    } else if AddHandled(r, e, cfg, w).1 !in [Raised, Rolled, Unchanged] {
      FailedPost(r, e, cfg, w);
    } else if k in r {
      assert Sorted(r[k], cfg);
    }
  }

  lemma StepDeadline(sys: System, s: Setting, ev: Event, k: ServiceKey)
    requires Declared(s) && Good(sys, s) && Possible(sys, s, ev)
    requires s.cfg.lifetime > 0 && k.workID !in s.cfg.reserved
    ensures var r' := Exec(sys, s, ev).r;
      k in r' ==> if Sets(sys, s, ev, k.workID) then r'[k].expiresAt == SetTo(s, ev)
                  else k in sys.r && r'[k].expiresAt == sys.r[k].expiresAt
  {
    match ev
    case Post(e, w) => PostDeadline(sys.r, e, s.cfg, w, k);
    case TickOf(sc, want, tw, now) => TickSpares(sys.r, StateOf(sys, sc), sc, want, tw, now, k);
    case _ =>
      if k in sys.r {
        assert Sorted(sys.r[k], s.cfg) && KeyOf(sys.r[k]) == k;
      }
  }

  lemma {:induction false} DeadlineFrom(sys: System, s: Setting, evs: seq<Event>, k: ServiceKey, at: int)
    requires Declared(s) && Good(sys, s) && PossibleRun(sys, s, evs)
    requires s.cfg.lifetime > 0 && k.workID !in s.cfg.reserved
    requires k in sys.r ==> sys.r[k].expiresAt == at
    ensures var end := ExecAll(sys, s, evs);
      k in end.r ==> end.r[k].expiresAt == LastDeadline(sys, s, evs, k.workID, at)
    decreases |evs|
  {
    if evs != [] {
      var id := k.workID;
      StepGood(sys, s, evs[0]);
      StepDeadline(sys, s, evs[0], k);
      DeadlineFrom(Exec(sys, s, evs[0]), s, evs[1..], k, if Sets(sys, s, evs[0], id) then SetTo(s, evs[0]) else at);
    }
  }

  /** In every run a registered preview expires a lifetime after the last POST of its work
      id that was taken, whichever of its services that was for, or when the recheck of
      its last unconfirmed expiry is due, if that came later. */
  lemma DeadlineIsLastSet(s: Setting, evs: seq<Event>, k: ServiceKey)
    requires Declared(s) && PossibleRun(START, s, evs) && k in ExecAll(START, s, evs).r
    requires s.cfg.lifetime > 0 && k.workID !in s.cfg.reserved
    ensures ExecAll(START, s, evs).r[k].expiresAt == LastDeadline(START, s, evs, k.workID, 0)
  {
    StartGood(s);
    DeadlineFrom(START, s, evs, k, 0);
  }

  // --- what is said of an intercept -----------------------------------------------------------

  // Whether the manager speaks of k's intercept in this event, and what it says: on raising
  // it, when a schedule asks, or in a report under the intercept's name.
  predicate Speaks(sys: System, s: Setting, ev: Event, k: ServiceKey) {
    match ev
    case Report(name, status) => k in sys.r && sys.r[k].name == name
    case TickOf(sc, want, tw, now) =>
      ScheduleKey(sc) == k && (Raises(sys, s, ev, k) || (want && k in sys.r && tw.session && tw.answer.Got?))
    case _ => Raises(sys, s, ev, k)
  }

  function Spoken(sys: System, s: Setting, ev: Event, k: ServiceKey): Status
    requires Speaks(sys, s, ev, k)
  {
    match ev
    case Post(e, w) => w.status
    case Report(name, status) => status
    case TickOf(sc, want, tw, now) => if Raises(sys, s, ev, k) then tw.shown else tw.answer.shown
  }

  function LastWord(sys: System, s: Setting, evs: seq<Event>, k: ServiceKey, word: Status): Status
    decreases |evs|
  {
    if evs == [] then word
    else LastWord(Exec(sys, s, evs[0]), s, evs[1..], k,
                  if Speaks(sys, s, evs[0], k) then Spoken(sys, s, evs[0], k) else word)
  }

  lemma PostSays(r: Table, e: Entry, cfg: Config, w: AddWorld, k: ServiceKey)
    requires Keyed(r) && NamesUnique(r)
    ensures var (r', reply) := AddHandled(r, e, cfg, w);
      k in r' ==> if k == KeyOf(e) && reply == Raised then Carries(r'[k], w.status, e.agentPods, e.reported)
                  else k in r && Carries(r'[k], r[k].status, r[k].agentPods, r[k].reported)
  {
    var reply := AddHandled(r, e, cfg, w).1;
    if reply !in [Raised, Rolled, Unchanged] {
      FailedPost(r, e, cfg, w);
    } else if reply == Raised {
      RaiseSays(r - {KeyOf(e)}, e, cfg, w, k);
    } else if reply == Unchanged {
      ExtendedSays(r, cfg, e.workID, w.now, k);
    } else if k == KeyOf(e) {
      RollCarries(r, e, cfg, w);
    } else {
      ExtendedSays(Added(r, Carried(r[KeyOf(e)], e), w.now), cfg, e.workID, w.now, k);
    }
  }

  lemma RaiseSays(r: Table, e: Entry, cfg: Config, w: AddWorld, k: ServiceKey)
    requires Keyed(r) && NamesUnique(r) && RegisterAndRaise(r, e, cfg, w).1 == Raised
    ensures var r' := RegisterAndRaise(r, e, cfg, w).0;
      k in r' ==> if k == KeyOf(e) then Carries(r'[k], w.status, e.agentPods, e.reported)
                  else k in r && Carries(r'[k], r[k].status, r[k].agentPods, r[k].reported)
  {
    var r1 := Added(r, e, w.now);
    assert k in r && k != KeyOf(e) ==> r[k].name != e.name;
    assert k in r1 ==> Carries(r1[k], r1[k].status, r1[k].agentPods, r1[k].reported);
    ExtendedSays(Noted(r1, e.name, w.status), cfg, e.workID, w.now, k);
  }

  lemma ExtendedSays(r: Table, cfg: Config, workID: string, now: int, k: ServiceKey)
    ensures var r' := Extended(r, cfg, workID, now);
      (k in r' <==> k in r) && (k in r ==> r'[k] == r[k].(expiresAt := r'[k].expiresAt))
  {
  }

  // What an entry has from the manager and from the tunnel pool.
  predicate Carries(e: Entry, status: Status, pods: seq<string>, reported: nat) {
    e.status == status && e.agentPods == pods && e.reported == reported
  }

  lemma OpenSays(r: Table, st: IState, sc: Scheduled, session: bool, raised: bool, shown: Status, now: int,
                 k: ServiceKey)
    requires ScheduleKey(sc) !in r
    ensures var (r', st') := OpenedWindow(r, st, sc, session, raised, shown, now);
      k in r' ==> if k == ScheduleKey(sc) then st'.raises > st.raises && Carries(r'[k], shown, [], 0)
                  else k in r && r'[k] == r[k]
  {
    var e := ScheduleEntry(sc);
    if k in r && !NameTaken(r, e) {
      assert r[k].name != e.name;
    }
  }

  lemma ReRaiseSays(r: Table, st: IState, sc: Scheduled, w: TickWorld, now: int, k: ServiceKey)
    ensures var (r', st') := ReRaised(r, st, sc, w, now);
      k in r' ==> if k == ScheduleKey(sc) then st'.raises > st.raises && Carries(r'[k], w.shown, [], 0)
                  else k in r && r'[k] == r[k]
  {
    OpenSays(r - {ScheduleKey(sc)}, st.(up := false, reRaises := st.reRaises + 1), sc, w.sessionNow, w.raised,
        w.shown, now, k);
  }

  // A report under one intercept's name is about that intercept alone.
  lemma NotedAlone(r: Table, j: ServiceKey, status: Status, k: ServiceKey)
    requires NamesUnique(r) && j in r && k in r
    ensures Noted(r, r[j].name, status)[k] == if k == j then r[k].(status := status) else r[k]
  {
  }

  lemma AnswerSays(r: Table, st: IState, sc: Scheduled, w: TickWorld, now: int, k: ServiceKey)
    requires NamesUnique(r) && ScheduleKey(sc) in r && w.answer.Got?
    ensures var (r', st') := CheckedWindow(r, st, sc, w, now);
      && st'.raises >= st.raises
      && (k in r' ==> if k == ScheduleKey(sc) && st'.raises > st.raises then Carries(r'[k], w.shown, [], 0)
                      else k in r && r'[k] == if k == ScheduleKey(sc) then r[k].(status := Word(r[k], w)) else r[k])
  {
    var r1 := Noted(r, r[ScheduleKey(sc)].name, w.answer.shown);
    assert k in r1 <==> k in r;
    if k in r {
      NotedAlone(r, ScheduleKey(sc), w.answer.shown, k);
    }
    ReRaiseSays(r1, st, sc, w, now, k);
  }

  lemma CheckSays(r: Table, st: IState, sc: Scheduled, w: TickWorld, now: int, k: ServiceKey)
    requires NamesUnique(r) && ScheduleKey(sc) in r
    ensures var (r', st') := CheckedWindow(r, st, sc, w, now);
      && st'.raises >= st.raises
      && (k in r' ==> if k == ScheduleKey(sc) && st'.raises > st.raises then Carries(r'[k], w.shown, [], 0)
                      else k in r && r'[k] == if k == ScheduleKey(sc) then r[k].(status := Word(r[k], w)) else r[k])
  {
    match w.answer
    case NotFound => ReRaiseSays(r, st, sc, w, now, k);
    case AskFailed =>
    case Got(disposition, shown) => AnswerSays(r, st, sc, w, now, k);
  }

  lemma TickSays(r: Table, st: IState, sc: Scheduled, want: bool, w: TickWorld, now: int, k: ServiceKey)
    requires NamesUnique(r)
    ensures var (r', st') := Ticked(r, st, sc, want, w, now);
      k in r' ==> if k == ScheduleKey(sc) && st'.raises > st.raises then Carries(r'[k], w.shown, [], 0)
                  else k in r && r'[k] == if k == ScheduleKey(sc) && want then r[k].(status := Word(r[k], w)) else r[k]
  {
    var entered := EnteredWindow(st, want, now);
    if want && ScheduleKey(sc) !in r {
      OpenSays(r, entered, sc, w.session, w.raised, w.shown, now, k);
    } else if want {
      CheckSays(r, entered, sc, w, now, k);
    }
  }

  lemma StepWord(sys: System, s: Setting, ev: Event, k: ServiceKey)
    requires Declared(s) && Good(sys, s) && Possible(sys, s, ev)
    ensures var r' := Exec(sys, s, ev).r;
      k in r' ==> if Speaks(sys, s, ev, k) then r'[k].status == Spoken(sys, s, ev, k)
                  else k in sys.r && r'[k].status == sys.r[k].status
  {
    match ev
    case Post(e, w) => PostSays(sys.r, e, s.cfg, w, k);
    case TickOf(sc, want, tw, now) => TickSays(sys.r, StateOf(sys, sc), sc, want, tw, now, k);
    case _ =>
  }

  lemma {:induction false} WordFrom(sys: System, s: Setting, evs: seq<Event>, k: ServiceKey, word: Status)
    requires Declared(s) && Good(sys, s) && PossibleRun(sys, s, evs)
    requires k in sys.r ==> sys.r[k].status == word
    ensures var end := ExecAll(sys, s, evs); k in end.r ==> end.r[k].status == LastWord(sys, s, evs, k, word)
    decreases |evs|
  {
    if evs != [] {
      StepGood(sys, s, evs[0]);
      StepWord(sys, s, evs[0], k);
      WordFrom(Exec(sys, s, evs[0]), s, evs[1..], k,
               if Speaks(sys, s, evs[0], k) then Spoken(sys, s, evs[0], k) else word);
    }
  }

  // --- tunnels -----------------------------------------------------------------------------------

  // What the pool has told of a workload: the pods it has tunnels to, and how many there are.
  datatype Tunnelling = Tunnelling(pods: seq<string>, reported: nat)

  // What k has of the pool after this event, if it had this before.
  function ToldBy(sys: System, s: Setting, ev: Event, k: ServiceKey, told: Tunnelling): Tunnelling {
    if ev.Tunnels? && ev.agentKey == k.workload + "." + k.ns then Tunnelling(ev.pods, ev.reported)
    else if !Raises(sys, s, ev, k) then told
    else if ev.Post? then Tunnelling(ev.e.agentPods, ev.e.reported)
    else Tunnelling([], 0)
  }

  function LastTold(sys: System, s: Setting, evs: seq<Event>, k: ServiceKey, told: Tunnelling): Tunnelling
    decreases |evs|
  {
    if evs == [] then told else LastTold(Exec(sys, s, evs[0]), s, evs[1..], k, ToldBy(sys, s, evs[0], k, told))
  }

  predicate Has(e: Entry, told: Tunnelling) { e.agentPods == told.pods && e.reported == told.reported }

  lemma StepTold(sys: System, s: Setting, ev: Event, k: ServiceKey, told: Tunnelling)
    requires Declared(s) && Good(sys, s) && Possible(sys, s, ev) && (k in sys.r ==> Has(sys.r[k], told))
    ensures var r' := Exec(sys, s, ev).r; k in r' ==> Has(r'[k], ToldBy(sys, s, ev, k, told))
  {
    match ev
    case Post(e, w) => PostSays(sys.r, e, s.cfg, w, k);
    case TickOf(sc, want, tw, now) => TickSays(sys.r, StateOf(sys, sc), sc, want, tw, now, k);
    case _ =>
      if k in sys.r {
        assert KeyOf(sys.r[k]) == k;
      }
  }

  lemma {:induction false} ToldFrom(sys: System, s: Setting, evs: seq<Event>, k: ServiceKey, told: Tunnelling)
    requires Declared(s) && Good(sys, s) && PossibleRun(sys, s, evs) && (k in sys.r ==> Has(sys.r[k], told))
    ensures var end := ExecAll(sys, s, evs); k in end.r ==> Has(end.r[k], LastTold(sys, s, evs, k, told))
    decreases |evs|
  {
    if evs != [] {
      StepGood(sys, s, evs[0]);
      StepTold(sys, s, evs[0], k, told);
      ToldFrom(Exec(sys, s, evs[0]), s, evs[1..], k, ToldBy(sys, s, evs[0], k, told));
    }
  }

  /** In every run a registered preview shows the manager's last word on its intercept, and
      the tunnels its workload was last told of since it was raised. */
  lemma ShowsLastSaid(s: Setting, evs: seq<Event>, k: ServiceKey)
    requires Declared(s) && PossibleRun(START, s, evs) && k in ExecAll(START, s, evs).r
    ensures var e := ExecAll(START, s, evs).r[k];
      && e.status == LastWord(START, s, evs, k, Status("", ""))
      && Has(e, LastTold(START, s, evs, k, Tunnelling([], 0)))
  {
    StartGood(s);
    WordFrom(START, s, evs, k, Status("", ""));
    ToldFrom(START, s, evs, k, Tunnelling([], 0));
  }

  // --- how long a window has been as it is ------------------------------------------------------

  // The instant of the schedule's first tick, or of the last one at which the window was
  // found on the other side than at the tick before.
  function LastMove(evs: seq<Event>, sc: Scheduled, ticked: bool, open: bool, at: int): int
    decreases |evs|
  {
    if evs == [] then at
    else if !Of(evs[0], sc) then LastMove(evs[1..], sc, ticked, open, at)
    else LastMove(evs[1..], sc, true, evs[0].want, if ticked && evs[0].want == open then at else evs[0].now)
  }

  lemma TickSince(r: Table, st: IState, sc: Scheduled, want: bool, w: TickWorld, now: int)
    ensures var st', entered := Ticked(r, st, sc, want, w, now).1, EnteredWindow(st, want, now);
      st'.open == entered.open && st'.since == entered.since
  {
  }

  lemma StepSince(sys: System, s: Setting, ev: Event, sc: Scheduled)
    requires Declared(s) && Good(sys, s) && Possible(sys, s, ev) && sc in s.scs
    ensures var st, st' := StateOf(sys, sc), StateOf(Exec(sys, s, ev), sc);
      if !Of(ev, sc) then st' == st
      else st'.open == ev.want
           && st'.since == (if st.since != 0 && ev.want == st.open then st.since else ev.now)
  {
    if Of(ev, sc) {
      TickSince(sys.r, StateOf(sys, sc), sc, ev.want, ev.tw, ev.now);
    } else {
      OnlyItsOwnTicks(sys, s, ev, sc);
    }
  }

  lemma {:induction false} SinceFrom(sys: System, s: Setting, evs: seq<Event>, sc: Scheduled)
    requires Declared(s) && Good(sys, s) && PossibleRun(sys, s, evs) && sc in s.scs
    ensures var st := StateOf(sys, sc);
      StateOf(ExecAll(sys, s, evs), sc).since == LastMove(evs, sc, st.since != 0, st.open, st.since)
    decreases |evs|
  {
    if evs != [] {
      StepGood(sys, s, evs[0]);
      StepSince(sys, s, evs[0], sc);
      SinceFrom(Exec(sys, s, evs[0]), s, evs[1..], sc);
    }
  }

  /** In every run a schedule's state dates from the tick that last found its window moved. */
  lemma SinceIsLastMove(s: Setting, evs: seq<Event>, sc: Scheduled)
    requires Declared(s) && PossibleRun(START, s, evs) && sc in s.scs
    ensures StateOf(ExecAll(START, s, evs), sc).since == LastMove(evs, sc, false, false, 0)
  {
    StartGood(s);
    SinceFrom(START, s, evs, sc);
  }

  // --- what is registered -------------------------------------------------------------------------

  // Whether k is left registered by this event, if it was or was not before: it is raised,
  // or it was there and is not deleted, confirmed gone, displaced or lost.
  predicate LeftBy(sys: System, s: Setting, ev: Event, k: ServiceKey, was: bool) {
    Raises(sys, s, ev, k) || (was && match ev {
      case Post(e, w) =>
        KeyOf(e) != k || Intercepted(sys.r, e) || RefusedAtOnce(AddHandled(sys.r, e, s.cfg, w).1)
      case DeleteWork(workID) => workID != k.workID || workID in s.cfg.reserved
      case DeleteService(key) => key != k || k.workID in s.cfg.reserved
      case ExpiryEnd(gone, until) => !gone || !sys.reaping.Polling? || sys.reaping.id != k.workID
      case TickOf(sc, want, tw, now) => ScheduleKey(sc) != k || (want && k in sys.r && !Lost(sys.r[k], tw, now))
      case _ => true
    })
  }

  lemma ReRaiseRegisters(r: Table, st: IState, sc: Scheduled, w: TickWorld, now: int, k: ServiceKey)
    ensures var (r', st') := ReRaised(r, st, sc, w, now);
      k in r' <==> if k == ScheduleKey(sc) then st'.raises > st.raises else k in r
  {
  }

  lemma CheckRegisters(r: Table, st: IState, sc: Scheduled, w: TickWorld, now: int, k: ServiceKey)
    requires Tells(r, st, sc) && ScheduleKey(sc) in r
    ensures var (r', st') := CheckedWindow(r, st, sc, w, now);
      k in r' <==> if k == ScheduleKey(sc) then st'.raises > st.raises || !Lost(r[k], w, now) else k in r
  {
    match w.answer
    case NotFound => ReRaiseRegisters(r, st, sc, w, now, k);
    case AskFailed =>
    case Got(disposition, shown) => ReRaiseRegisters(Noted(r, r[ScheduleKey(sc)].name, shown), st, sc, w, now, k);
  }

  lemma TickRegisters(r: Table, st: IState, sc: Scheduled, want: bool, w: TickWorld, now: int, k: ServiceKey)
    requires Tells(r, st, sc)
    ensures var (r', st') := Ticked(r, st, sc, want, w, now);
      k in r' <==> if k != ScheduleKey(sc) then k in r
                   else st'.raises > st.raises || (want && k in r && !Lost(r[k], w, now))
  {
    var entered := EnteredWindow(st, want, now);
    if want && ScheduleKey(sc) in r {
      CheckRegisters(r, entered, sc, w, now, k);
    }
  }

  lemma PostRegisters(r: Table, e: Entry, cfg: Config, w: AddWorld, k: ServiceKey)
    ensures var (r', reply) := AddHandled(r, e, cfg, w);
      k in r' <==> if k != KeyOf(e) then k in r
                   else reply == Raised || (k in r && (Intercepted(r, e) || RefusedAtOnce(reply)))
  {
  }

  lemma StepLeaves(sys: System, s: Setting, ev: Event, k: ServiceKey)
    requires Declared(s) && Good(sys, s) && Possible(sys, s, ev)
    ensures k in Exec(sys, s, ev).r <==> LeftBy(sys, s, ev, k, k in sys.r)
  {
    match ev
    case Post(e, w) => PostRegisters(sys.r, e, s.cfg, w, k);
    case TickOf(sc, want, tw, now) =>
      assert Telling(sys, sc);
      TickRegisters(sys.r, StateOf(sys, sc), sc, want, tw, now, k);
    case _ =>
  }

  function LeftByAll(sys: System, s: Setting, evs: seq<Event>, k: ServiceKey, was: bool): bool
    decreases |evs|
  {
    if evs == [] then was else LeftByAll(Exec(sys, s, evs[0]), s, evs[1..], k, LeftBy(sys, s, evs[0], k, was))
  }

  lemma {:induction false} LeftFrom(sys: System, s: Setting, evs: seq<Event>, k: ServiceKey)
    requires Declared(s) && Good(sys, s) && PossibleRun(sys, s, evs)
    ensures k in ExecAll(sys, s, evs).r <==> LeftByAll(sys, s, evs, k, k in sys.r)
    decreases |evs|
  {
    if evs != [] {
      StepGood(sys, s, evs[0]);
      StepLeaves(sys, s, evs[0], k);
      LeftFrom(Exec(sys, s, evs[0]), s, evs[1..], k);
    }
  }

  /** In every run a preview is registered if and only if it was raised, and since then has
      not been deleted, nor its work id, nor confirmed gone, nor displaced by a POST to
      another target that failed, nor - for a schedule's - shut or lost and not raised. */
  lemma RegisteredWhen(s: Setting, evs: seq<Event>, k: ServiceKey)
    requires Declared(s) && PossibleRun(START, s, evs)
    ensures k in ExecAll(START, s, evs).r <==> LeftByAll(START, s, evs, k, false)
  {
    StartGood(s);
    LeftFrom(START, s, evs, k);
  }
}
