/** What the registry's entries and the schedules' states say of the run behind them: how
    old a preview is, and why a schedule shows itself up. */
module RegistryHistory {
  import opened Registry
  import opened Handlers
  import opened HandlerInvariant
  import opened RegistryRuns
  import opened PostLaws

  // --- ages -------------------------------------------------------------------------------------

  // Whether this event raises k's intercept, by a POST or by a schedule's tick, and when.
  predicate Raises(sys: System, s: Setting, ev: Event, k: ServiceKey) {
    match ev
    case Post(e, w) => KeyOf(e) == k && AddHandled(sys.r, e, s.cfg, w).1 == Raised
    case TickOf(sc, want, tw, now) =>
      ScheduleKey(sc) == k && Exec(sys, s, ev).states[sc.name].raises > StateOf(sys, sc).raises
    case _ => false
  }

  function When(ev: Event): int
    requires ev.Post? || ev.TickOf?
  {
    if ev.Post? then ev.w.now else ev.now
  }

  // The instant of the last event that raised it, or the one given.
  function LastRaise(sys: System, s: Setting, evs: seq<Event>, k: ServiceKey, at: int): int
    decreases |evs|
  {
    if evs == [] then at
    else LastRaise(Exec(sys, s, evs[0]), s, evs[1..], k, if Raises(sys, s, evs[0], k) then When(evs[0]) else at)
  }

  lemma PostAge(r: Table, e: Entry, cfg: Config, w: AddWorld, k: ServiceKey)
    requires Keyed(r) && NamesUnique(r) && Requested(e) && w.now > 0 && forall j :: j in r ==> r[j].raisedAt != 0
    ensures var (r', reply) := AddHandled(r, e, cfg, w);
      k in r' ==> if k == KeyOf(e) && reply == Raised then r'[k].raisedAt == w.now
                  else k in r && r'[k].raisedAt == r[k].raisedAt
  {
    var reply := AddHandled(r, e, cfg, w).1;
    if k.workID != e.workID {
      OthersUntouched(r, e, cfg, w, k);
    } else if k == KeyOf(e) && reply == Rolled {
      RollCarries(r, e, cfg, w);
    }
  }

  lemma OpenAge(r: Table, st: IState, sc: Scheduled, session: bool, raised: bool, shown: Status, now: int,
                k: ServiceKey)
    requires ScheduleKey(sc) !in r && now > 0
    ensures var (r', st') := OpenedWindow(r, st, sc, session, raised, shown, now);
      && (st'.raises > st.raises <==> ScheduleKey(sc) in r')
      && (k in r' ==> if k == ScheduleKey(sc) then r'[k].raisedAt == now else k in r && r'[k].raisedAt == r[k].raisedAt)
  {
  }

  lemma TickAge(r: Table, st: IState, sc: Scheduled, want: bool, w: TickWorld, now: int, k: ServiceKey)
    requires now > 0
    ensures var (r', st') := Ticked(r, st, sc, want, w, now);
      k in r' ==> if k == ScheduleKey(sc) && st'.raises > st.raises then r'[k].raisedAt == now
                  else k in r && r'[k].raisedAt == r[k].raisedAt
  {
    var entered := EnteredWindow(st, want, now);
    if want && ScheduleKey(sc) !in r {
      OpenAge(r, entered, sc, w.session, w.raised, w.shown, now, k);
    } else if want && w.session {
      match w.answer
      case NotFound => ReRaiseAge(r, entered, sc, w, now, k);
      case AskFailed =>
      case Got(disposition, shown) => ReRaiseAge(Noted(r, r[ScheduleKey(sc)].name, shown), entered, sc, w, now, k);
    }
  }

  lemma ReRaiseAge(r: Table, st: IState, sc: Scheduled, w: TickWorld, now: int, k: ServiceKey)
    requires now > 0
    ensures var (r', st') := ReRaised(r, st, sc, w, now);
      k in r' ==> if k == ScheduleKey(sc) then st'.raises > st.raises && r'[k].raisedAt == now
                  else k in r && r'[k].raisedAt == r[k].raisedAt
  {
    OpenAge(r - {ScheduleKey(sc)}, st.(up := false, reRaises := st.reRaises + 1), sc,
            w.sessionNow, w.raised, w.shown, now, k);
  }

  lemma StepAge(sys: System, s: Setting, ev: Event, k: ServiceKey)
    requires Declared(s) && Good(sys, s) && Possible(sys, s, ev) && forall j :: j in sys.r ==> sys.r[j].raisedAt != 0
    ensures var r' := Exec(sys, s, ev).r;
      k in r' ==> if Raises(sys, s, ev, k) then r'[k].raisedAt == When(ev) > 0
                  else k in sys.r && r'[k].raisedAt == sys.r[k].raisedAt
  {
    match ev
    case Post(e, w) => PostAge(sys.r, e, s.cfg, w, k);
    case TickOf(sc, want, tw, now) => TickAge(sys.r, StateOf(sys, sc), sc, want, tw, now, k);
    case _ =>
  }

  lemma {:induction false} AgeFrom(sys: System, s: Setting, evs: seq<Event>, k: ServiceKey, at: int)
    requires Declared(s) && Good(sys, s) && PossibleRun(sys, s, evs)
    requires forall j :: j in sys.r ==> sys.r[j].raisedAt != 0
    requires k in sys.r ==> sys.r[k].raisedAt == at
    ensures var end := ExecAll(sys, s, evs); k in end.r ==> end.r[k].raisedAt == LastRaise(sys, s, evs, k, at)
    decreases |evs|
  {
    if evs != [] {
      forall j ensures var r' := Exec(sys, s, evs[0]).r; j in r' ==> r'[j].raisedAt != 0 {
        StepAge(sys, s, evs[0], j);
      }
      StepGood(sys, s, evs[0]);
      StepAge(sys, s, evs[0], k);
      AgeFrom(Exec(sys, s, evs[0]), s, evs[1..], k, if Raises(sys, s, evs[0], k) then When(evs[0]) else at);
    }
  }

  /** In every run a preview's age counts from the last time its intercept was raised:
      retries, rolls to a new image, extensions, put-off expiries, reports and other
      services' events do not make it younger. */
  lemma AgeIsLastRaise(s: Setting, evs: seq<Event>, k: ServiceKey)
    requires Declared(s) && PossibleRun(START, s, evs) && k in ExecAll(START, s, evs).r
    ensures ExecAll(START, s, evs).r[k].raisedAt == LastRaise(START, s, evs, k, 0)
  {
    StartGood(s);
    AgeFrom(START, s, evs, k, 0);
  }

  /** So does a schedule's grace: while its intercept is registered, the state's own instant
      of raising is that of the last tick that raised it. */
  lemma GraceFromLastRaise(s: Setting, evs: seq<Event>, sc: Scheduled)
    requires Declared(s) && PossibleRun(START, s, evs) && sc in s.scs
    requires ScheduleKey(sc) in ExecAll(START, s, evs).r
    ensures StateOf(ExecAll(START, s, evs), sc).raisedAt == LastRaise(START, s, evs, ScheduleKey(sc), 0)
  {
    StartGood(s);
    RunGood(START, s, evs);
    AgeIsLastRaise(s, evs, ScheduleKey(sc));
    assert Telling(ExecAll(START, s, evs), sc);
  }

  // --- what is sent where --------------------------------------------------------------------

  // Whether this event is a POST for k that is taken.
  predicate Takes(sys: System, s: Setting, ev: Event, k: ServiceKey) {
    ev.Post? && KeyOf(ev.e) == k && AddHandled(sys.r, ev.e, s.cfg, ev.w).1 in [Raised, Rolled, Unchanged]
  }

  // What the last POST for k that was taken asked for, or the route given.
  function LastRoute(sys: System, s: Setting, evs: seq<Event>, k: ServiceKey, route: Route): Route
    decreases |evs|
  {
    if evs == [] then route
    else LastRoute(Exec(sys, s, evs[0]), s, evs[1..], k,
                   if Takes(sys, s, evs[0], k) then RouteOf(evs[0].e) else route)
  }

  lemma StepRoute(sys: System, s: Setting, ev: Event, k: ServiceKey)
    requires Declared(s) && Good(sys, s) && Possible(sys, s, ev) && k.workID !in s.cfg.reserved
    ensures var r' := Exec(sys, s, ev).r;
      k in r' ==> if Takes(sys, s, ev, k) then RouteOf(r'[k]) == RouteOf(ev.e)
                  else k in sys.r && RouteOf(r'[k]) == RouteOf(sys.r[k])
  {
    match ev
    case Post(e, w) =>
      if AddHandled(sys.r, e, s.cfg, w).1 in [Raised, Rolled, Unchanged] {
        Taken(sys.r, e, s.cfg, w);
      } else {
        FailedPost(sys.r, e, s.cfg, w);
      }
    case TickOf(sc, want, tw, now) => TickSpares(sys.r, StateOf(sys, sc), sc, want, tw, now, k);
    case _ =>
  }

  lemma {:induction false} RouteFrom(sys: System, s: Setting, evs: seq<Event>, k: ServiceKey, route: Route)
    requires Declared(s) && Good(sys, s) && PossibleRun(sys, s, evs) && k.workID !in s.cfg.reserved
    requires k in sys.r ==> RouteOf(sys.r[k]) == route
    ensures var end := ExecAll(sys, s, evs); k in end.r ==> RouteOf(end.r[k]) == LastRoute(sys, s, evs, k, route)
    decreases |evs|
  {
    if evs != [] {
      StepGood(sys, s, evs[0]);
      StepRoute(sys, s, evs[0], k);
      RouteFrom(Exec(sys, s, evs[0]), s, evs[1..], k, if Takes(sys, s, evs[0], k) then RouteOf(evs[0].e) else route);
    }
  }

  /** In every run a preview that is registered intercepts what the last POST for it that
      was taken asked for, and sends it to that POST's image; a schedule's intercept is
      the one the schedule declares. */
  lemma RouteIsLastTaken(s: Setting, evs: seq<Event>, k: ServiceKey)
    requires Declared(s) && PossibleRun(START, s, evs) && k in ExecAll(START, s, evs).r
    ensures k.workID !in s.cfg.reserved ==>
              RouteOf(ExecAll(START, s, evs).r[k]) == LastRoute(START, s, evs, k, Route("", 0, "", ""))
    ensures forall sc :: sc in s.scs && ScheduleKey(sc) == k ==> Declares(sc, ExecAll(START, s, evs).r[k])
  {
    StartGood(s);
    if k.workID !in s.cfg.reserved {
      RouteFrom(START, s, evs, k, Route("", 0, "", ""));
    }
    RunGood(START, s, evs);
    forall sc | sc in s.scs && ScheduleKey(sc) == k ensures Declares(sc, ExecAll(START, s, evs).r[k]) {
      assert Telling(ExecAll(START, s, evs), sc);
    }
  }

  // --- why a schedule is up ------------------------------------------------------------------

  predicate Of(ev: Event, sc: Scheduled) { ev.TickOf? && ev.sc == sc }

  // A tick that has something to show for being up: it raised the intercept, or the
  // manager vouched for it with every tunnel there or its grace not over.
  predicate Grounds(sys: System, s: Setting, ev: Event, sc: Scheduled) {
    Of(ev, sc) && ev.want
    && (Exec(sys, s, ev).states[sc.name].raises == StateOf(sys, sc).raises + 1
        || (ScheduleKey(sc) in sys.r && Vouched(sys.r[ScheduleKey(sc)], ev.tw, ev.now)))
  }

  // A tick that asked and was not answered.
  predicate Unanswered(ev: Event) { ev.TickOf? && ev.want && ev.tw.session && ev.tw.answer.AskFailed? }

  predicate OnlyUnanswered(evs: seq<Event>, sc: Scheduled) {
    forall i :: 0 <= i < |evs| && Of(evs[i], sc) ==> Unanswered(evs[i])
  }

  // Some tick had grounds, and since then the manager has not answered.
  predicate Grounded(sys: System, s: Setting, evs: seq<Event>, sc: Scheduled)
    decreases |evs|
  {
    evs != [] && ((Grounds(sys, s, evs[0], sc) && OnlyUnanswered(evs[1..], sc))
                  || Grounded(Exec(sys, s, evs[0]), s, evs[1..], sc))
  }

  lemma StepUp(sys: System, s: Setting, ev: Event, sc: Scheduled)
    requires Declared(s) && Good(sys, s) && Possible(sys, s, ev) && sc in s.scs
    ensures StateOf(Exec(sys, s, ev), sc).up
            <==> Grounds(sys, s, ev, sc) || (StateOf(sys, sc).up && (Of(ev, sc) ==> Unanswered(ev)))
  {
    assert Telling(sys, sc);
    if Of(ev, sc) {
      UpMeans(sys.r, StateOf(sys, sc), sc, ev.want, ev.tw, ev.now);
    } else {
      OnlyItsOwnTicks(sys, s, ev, sc);
    }
  }

  lemma UnansweredFirst(evs: seq<Event>, sc: Scheduled)
    requires evs != []
    ensures OnlyUnanswered(evs, sc) <==> (Of(evs[0], sc) ==> Unanswered(evs[0])) && OnlyUnanswered(evs[1..], sc)
  {
    var rest := evs[1..];
    assert forall i | 0 <= i < |rest| :: rest[i] == evs[i + 1];
    assert forall i | 1 <= i < |evs| :: evs[i] == rest[i - 1];
  }

  lemma {:induction false} UpFrom(sys: System, s: Setting, evs: seq<Event>, sc: Scheduled)
    requires Declared(s) && Good(sys, s) && PossibleRun(sys, s, evs) && sc in s.scs
    ensures StateOf(ExecAll(sys, s, evs), sc).up
            <==> Grounded(sys, s, evs, sc) || (StateOf(sys, sc).up && OnlyUnanswered(evs, sc))
    decreases |evs|
  {
    if evs != [] {
      StepGood(sys, s, evs[0]);
      StepUp(sys, s, evs[0], sc);
      UnansweredFirst(evs, sc);
      UpFrom(Exec(sys, s, evs[0]), s, evs[1..], sc);
    }
  }

  /** In every run a schedule shows itself up if and only if some tick of its raised the
      intercept or had it vouched for - past the grace, with a tunnel to every reported
      pod - and every tick of its since then asked the manager and got no answer. */
  lemma UpHasGrounds(s: Setting, evs: seq<Event>, sc: Scheduled)
    requires Declared(s) && PossibleRun(START, s, evs) && sc in s.scs
    ensures StateOf(ExecAll(START, s, evs), sc).up <==> Grounded(START, s, evs, sc)
  {
    StartGood(s);
    UpFrom(START, s, evs, sc);
  }
}
