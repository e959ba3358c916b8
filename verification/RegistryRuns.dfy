/** Whole runs of the server over one registry: posts, deletions, expiries, ticks of
    the intercept schedules, tunnel counts and manager reports, one handler or tick
    at a time. An expiry is two steps, and anything may happen while it polls. */
module RegistryRuns {
  import opened Registry
  import opened Handlers
  import opened Expiry
  import opened HandlerInvariant
  import opened PostInvariant

  // What the reaper is at: the work ids it found due and has not come to yet, and the
  // one whose objects it is waiting to see gone, with the namespaces it looks in.
  datatype Reaping = Resting | Polling(id: string, nss: set<string>)

  datatype System = System(r: Table, states: map<string, IState>, due: set<string>, reaping: Reaping)

  function StateOf(sys: System, sc: Scheduled): IState { if sc.name in sys.states then sys.states[sc.name] else FRESH }

  datatype Event =
    | Post(e: Entry, w: AddWorld)
    | DeleteWork(workID: string)
    | DeleteService(key: ServiceKey)
    | ReapTick(now: int)
    | ExpiryStart(workID: string)
    | ExpiryEnd(gone: bool, until: int)
    | TickOf(sc: Scheduled, want: bool, tw: TickWorld, now: int)
    | Tunnels(agentKey: string, pods: seq<string>, reported: nat)
    | Report(name: string, status: Status)

  function Exec(sys: System, s: Setting, ev: Event): System {
    match ev
    case Post(e, w) => sys.(r := AddHandled(sys.r, e, s.cfg, w).0)
    case DeleteWork(workID) => sys.(r := RemoveWorkHandled(sys.r, s.cfg, workID))
    case DeleteService(key) => sys.(r := RemoveServiceHandled(sys.r, s.cfg, key))
    case ReapTick(now) => sys.(due := DueIn(sys.r, now))
    case ExpiryStart(workID) =>
      sys.(due := sys.due - {workID}, reaping := Polling(workID, NamespacesOf(sys.r, workID)))
    case ExpiryEnd(gone, until) => sys.(r := Ended(sys, gone, until), reaping := Resting)
    case TickOf(sc, want, tw, now) =>
      var (r, st) := Ticked(sys.r, StateOf(sys, sc), sc, want, tw, now);
      sys.(r := r, states := sys.states[sc.name := st])
    case Tunnels(agentKey, pods, reported) => sys.(r := Tunnelled(sys.r, agentKey, pods, reported))
    case Report(name, status) => sys.(r := Noted(sys.r, name, status))
  }

  // The poll's end: the route goes only when the objects are confirmed gone, and
  // otherwise the deadline moves out - of whatever the registry has by then.
  function Ended(sys: System, gone: bool, until: int): Table {
    if sys.reaping.Polling? then ExpiryHandled(sys.r, sys.reaping.id, gone, until) else sys.r
  }

  // Which events can happen: expiry only with a lifetime and one work id at a time, of
  // those found due at the last tick of the reaper, ticks only of declared schedules,
  // clocks past zero.
  predicate Possible(sys: System, s: Setting, ev: Event) {
    match ev
    case Post(e, w) => Requested(e) && w.now > 0
    case ReapTick(now) => s.cfg.lifetime > 0 && sys.due == {} && sys.reaping.Resting?
    case ExpiryStart(workID) => workID in sys.due && sys.reaping.Resting?
    case ExpiryEnd(gone, until) => s.cfg.lifetime > 0 && sys.reaping.Polling? && until > 0
    case TickOf(sc, want, tw, now) => sc in s.scs && now > 0
    case _ => true
  }

  /** The reaper goes on from one work id to the next until none is left that it found due,
      and then may look again. */
  lemma ReaperGoesOn(sys: System, s: Setting, gone: bool, until: int)
    ensures var next := Exec(sys, s, ExpiryEnd(gone, until));
      && (forall id :: id in sys.due ==> Possible(next, s, ExpiryStart(id)))
      && (forall now :: sys.due == {} && s.cfg.lifetime > 0 ==> Possible(next, s, ReapTick(now)))
  {
  }

  function ExecAll(sys: System, s: Setting, evs: seq<Event>): System
    decreases |evs|
  {
    if evs == [] then sys else ExecAll(Exec(sys, s, evs[0]), s, evs[1..])
  }

  predicate PossibleRun(sys: System, s: Setting, evs: seq<Event>)
    decreases |evs|
  {
    evs == [] || (Possible(sys, s, evs[0]) && PossibleRun(Exec(sys, s, evs[0]), s, evs[1..]))
  }

  // --- every step ------------------------------------------------------------------------------

  lemma StepInv(sys: System, s: Setting, ev: Event)
    requires Declared(s) && Inv(sys.r, s.cfg) && Possible(sys, s, ev)
    ensures Inv(Exec(sys, s, ev).r, s.cfg)
  {
    match ev
    case Post(e, w) => InvPost(sys.r, e, s.cfg, w);
    case DeleteWork(workID) => InvSubset(sys.r, Exec(sys, s, ev).r, s.cfg);
    case DeleteService(key) => InvSubset(sys.r, Exec(sys, s, ev).r, s.cfg);
    case ReapTick(now) =>
    case ExpiryStart(workID) =>
    case ExpiryEnd(gone, until) =>
      if gone {
        InvSubset(sys.r, WithoutWork(sys.r, sys.reaping.id), s.cfg);
      } else {
        InvTouched(sys.r, s.cfg, sys.reaping.id, until);
      }
    case TickOf(sc, want, tw, now) => InvTicked(sys.r, StateOf(sys, sc), sc, s, want, tw, now);
    case Tunnels(agentKey, pods, reported) => InvUpdated(sys.r, Tunnelled(sys.r, agentKey, pods, reported), s.cfg);
    case Report(name, status) => InvNoted(sys.r, s.cfg, name, status);
  }

  // --- what a schedule's state says ---------------------------------------------------------

  // The intercept this schedule declares: everyone's traffic, and no deadline.
  predicate Declares(sc: Scheduled, e: Entry) {
    && e.workID == e.schedule == sc.name && e.ns == sc.ns && e.workload == sc.workload
    && e.name == sc.interceptName && e.portID == sc.portID && e.targetService == sc.targetService
    && e.targetPort == sc.targetPort && e.image == "" && e.global && e.expiresAt == 0
  }

  // Open without a problem is up; up is open and registered; shut is unregistered; and
  // what is registered is the intercept declared, raised when the state has it.
  ghost predicate Tells(r: Table, st: IState, sc: Scheduled) {
    var k := ScheduleKey(sc);
    && (st.open && st.problem == NoTrouble ==> st.up)
    && (st.up ==> st.open && k in r)
    && (k in r ==> st.open && Declares(sc, r[k]) && r[k].raisedAt == st.raisedAt)
  }

  ghost predicate Telling(sys: System, sc: Scheduled) { Tells(sys.r, StateOf(sys, sc), sc) }

  lemma OpenedTells(r: Table, st: IState, sc: Scheduled, session: bool, raised: bool, shown: Status, now: int)
    requires st.open && ScheduleKey(sc) !in r
    ensures var (r', st') := OpenedWindow(r, st, sc, session, raised, shown, now); st'.open && Tells(r', st', sc)
  {
  }

  lemma ReRaiseTells(r: Table, st: IState, sc: Scheduled, w: TickWorld, now: int)
    requires st.open
    ensures var (r', st') := ReRaised(r, st, sc, w, now); st'.open && Tells(r', st', sc)
  {
    OpenedTells(r - {ScheduleKey(sc)}, st.(up := false, reRaises := st.reRaises + 1), sc, w.sessionNow, w.raised,
        w.shown, now);
  }

  lemma CheckTells(r: Table, st: IState, sc: Scheduled, w: TickWorld, now: int)
    requires Tells(r, st, sc) && st.open && ScheduleKey(sc) in r
    ensures var (r', st') := CheckedWindow(r, st, sc, w, now); st'.open && Tells(r', st', sc)
  {
    match w.answer
    case NotFound => ReRaiseTells(r, st, sc, w, now);
    case AskFailed =>
    case Got(disposition, shown) => ReRaiseTells(Noted(r, r[ScheduleKey(sc)].name, shown), st, sc, w, now);
  }

  /** After every tick, whatever the manager answered: the state is open as wanted and
      still telling; a shut tick leaves the schedule unregistered and not up. */
  lemma TickTells(sys: System, s: Setting, sc: Scheduled, want: bool, w: TickWorld, now: int)
    requires Telling(sys, sc)
    ensures var sys' := Exec(sys, s, TickOf(sc, want, w, now));
      && Telling(sys', sc) && StateOf(sys', sc).open == want
      && (!want ==> ScheduleKey(sc) !in sys'.r && !StateOf(sys', sc).up)
  {
    var st := StateOf(sys, sc);
    TicksTell(sys.r, st, sc, want, w, now);
    var (r', st') := Ticked(sys.r, st, sc, want, w, now);
    var sys' := Exec(sys, s, TickOf(sc, want, w, now));
    assert sys'.r == r' && StateOf(sys', sc) == st';
  }

  lemma TicksTell(r: Table, st0: IState, sc: Scheduled, want: bool, w: TickWorld, now: int)
    requires Tells(r, st0, sc)
    ensures var (r', st') := Ticked(r, st0, sc, want, w, now);
      Tells(r', st', sc) && st'.open == want && (!want ==> ScheduleKey(sc) !in r' && !st'.up)
  {
    var st := EnteredWindow(st0, want, now);
    if want && ScheduleKey(sc) !in r {
      OpenedTells(r, st, sc, w.session, w.raised, w.shown, now);
    } else if want {
      CheckTells(r, st, sc, w, now);
    }
  }

  lemma PostSpares(r: Table, e: Entry, cfg: Config, w: AddWorld, k: ServiceKey)
    requires Keyed(r) && k.workID in cfg.reserved
    ensures var r' := AddHandled(r, e, cfg, w).0; (k in r' <==> k in r) && (k in r ==> SameBut(r[k], r'[k]))
  {
  }

  lemma OpenSpares(r: Table, st: IState, sc: Scheduled, session: bool, raised: bool, shown: Status, now: int,
                   k: ServiceKey)
    requires k.workID != sc.name
    ensures var r' := OpenedWindow(r, st, sc, session, raised, shown, now).0;
      (k in r' <==> k in r) && (k in r ==> SameBut(r[k], r'[k]))
  {
  }

  lemma ReRaiseSpares(r: Table, st: IState, sc: Scheduled, w: TickWorld, now: int, k: ServiceKey)
    requires k.workID != sc.name
    ensures var r' := ReRaised(r, st, sc, w, now).0; (k in r' <==> k in r) && (k in r ==> SameBut(r[k], r'[k]))
  {
  }

  lemma TickSpares(r: Table, st: IState, sc: Scheduled, want: bool, w: TickWorld, now: int, k: ServiceKey)
    requires k.workID != sc.name
    ensures var r' := Ticked(r, st, sc, want, w, now).0; (k in r' <==> k in r) && (k in r ==> SameBut(r[k], r'[k]))
  {
    var entered := EnteredWindow(st, want, now);
    var key := ScheduleKey(sc);
    if want && key !in r {
      OpenSpares(r, entered, sc, w.session, w.raised, w.shown, now, k);
    } else if want && w.session {
      match w.answer
      case NotFound => ReRaiseSpares(r, entered, sc, w, now, k);
      case AskFailed =>
      case Got(disposition, shown) => ReRaiseSpares(Noted(r, r[key].name, shown), entered, sc, w, now, k);
    }
  }

  /** A scheduled intercept comes and goes only by its own ticks: no post, deletion,
      expiry or other schedule registers it, evicts it or moves its deadline. */
  lemma OnlyItsOwnTicks(sys: System, s: Setting, ev: Event, sc: Scheduled)
    requires Declared(s) && Inv(sys.r, s.cfg) && Unreserved(sys, s.cfg) && Possible(sys, s, ev)
    requires sc in s.scs && !(ev.TickOf? && ev.sc == sc)
    ensures var sys' := Exec(sys, s, ev);
      && (ScheduleKey(sc) in sys'.r <==> ScheduleKey(sc) in sys.r)
      && StateOf(sys', sc) == StateOf(sys, sc)
      && (ScheduleKey(sc) in sys.r ==> SameBut(sys.r[ScheduleKey(sc)], sys'.r[ScheduleKey(sc)]))
  {
    match ev
    case Post(e, w) => PostSpares(sys.r, e, s.cfg, w, ScheduleKey(sc));
    case TickOf(other, want, tw, now) =>
      TickSpares(sys.r, StateOf(sys, other), other, want, tw, now, ScheduleKey(sc));
    case _ =>
  }

  // --- whole runs ------------------------------------------------------------------------------

  // The reaper is never after a schedule's intercept.
  predicate Unreserved(sys: System, cfg: Config) {
    && (forall id :: id in sys.due ==> id !in cfg.reserved)
    && (sys.reaping.Polling? ==> sys.reaping.id !in cfg.reserved)
  }

  lemma StepUnreserved(sys: System, s: Setting, ev: Event)
    requires Inv(sys.r, s.cfg) && Unreserved(sys, s.cfg) && Possible(sys, s, ev)
    ensures Unreserved(Exec(sys, s, ev), s.cfg)
  {
    if ev.ReapTick? {
      forall k | k in sys.r && PastDeadline(sys.r[k], ev.now) ensures k.workID !in s.cfg.reserved {
        assert Sorted(sys.r[k], s.cfg) && KeyOf(sys.r[k]) == k;
      }
    }
  }

  ghost predicate Good(sys: System, s: Setting) {
    Inv(sys.r, s.cfg) && Unreserved(sys, s.cfg) && forall sc :: sc in s.scs ==> Telling(sys, sc)
  }

  const START := System(map[], map[], {}, Resting)

  lemma StepGood(sys: System, s: Setting, ev: Event)
    requires Declared(s) && Good(sys, s) && Possible(sys, s, ev)
    ensures Good(Exec(sys, s, ev), s)
  {
    StepInv(sys, s, ev);
    StepUnreserved(sys, s, ev);
    forall sc | sc in s.scs ensures Telling(Exec(sys, s, ev), sc) {
      if ev.TickOf? && ev.sc == sc {
        TickTells(sys, s, sc, ev.want, ev.tw, ev.now);
      } else {
        OnlyItsOwnTicks(sys, s, ev, sc);
      }
    }
  }

  /** In every run from a start: entries stand under their own keys, intercept names are
      unique, no workload carries both modes, only schedules' intercepts are global and
      only they are without a deadline, a work id's deadlines are one, and every
      schedule's status is true of the registry. */
  lemma {:induction false} RunGood(sys: System, s: Setting, evs: seq<Event>)
    requires Declared(s) && Good(sys, s) && PossibleRun(sys, s, evs)
    ensures Good(ExecAll(sys, s, evs), s)
    decreases |evs|
  {
    if evs != [] {
      StepGood(sys, s, evs[0]);
      RunGood(Exec(sys, s, evs[0]), s, evs[1..]);
    }
  }

  lemma StartGood(s: Setting)
    ensures Good(START, s)
  {
  }
}
