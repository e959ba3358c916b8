/** What a POST is answered and what a tick of an intercept schedule does, told by the fields
    of the request, of the previews that are live and of what the manager says. */
module Answers {
  import opened Registry
  import opened Handlers
  import opened HandlerInvariant
  import opened RegistryRuns
  import opened PostLaws

  // Another live preview of the workload, in the other mode.
  predicate Rivalled(r: Table, e: Entry) {
    exists k :: k in r && k != KeyOf(e) && SharesWorkload(r[k], e) && r[k].global != e.global
  }

  // Another live preview under the intercept's name.
  predicate Namesake(r: Table, e: Entry) { exists k :: k in r && k != KeyOf(e) && r[k].name == e.name }

  // The very intercept is live.
  predicate Intercepted(r: Table, e: Entry) {
    var k := KeyOf(e);
    && k in r && r[k].targetService == e.targetService && r[k].targetPort == e.targetPort
    && r[k].portID == e.portID
  }

  // A POST with nothing against it: no schedule's work id, one mode, a session, an image.
  predicate Admitted(r: Table, e: Entry, cfg: Config, w: AddWorld) {
    e.workID !in cfg.reserved && !Rivalled(r, e) && w.session && w.built
  }

  lemma RivalsConflict(r: Table, e: Entry)
    requires DotFree(r) && '.' !in e.ns
    ensures InConflict(r, e) <==> Rivalled(r, e)
  {
    forall k | k in r ensures AgentKey(r[k]) == AgentKey(e) <==> SharesWorkload(r[k], e) {
      AgentKeyInjective(r[k], e);
    }
    if InConflict(r, e) {
      var k :| k in r && Conflicts(r, e, k);
      assert SharesWorkload(r[k], e);
    }
    if k :| k in r && k != KeyOf(e) && SharesWorkload(r[k], e) && r[k].global != e.global {
      assert Conflicts(r, e, k);
    }
  }

  lemma NamesakesElsewhere(r: Table, e: Entry)
    ensures NameTaken(r, e) <==> Namesake(r, e)
    ensures NameTaken(r - {KeyOf(e)}, e) <==> Namesake(r, e)
  {
    if k :| k in r && k != KeyOf(e) && r[k].name == e.name {
      assert k in r - {KeyOf(e)} && (r - {KeyOf(e)})[k].name == e.name;
    }
  }

  /** A POST is taken if and only if nothing is against it and it is either the same as what
      is live, or its intercept name is free and what there is to raise can be raised; it
      is answered by what that took: nothing, a new image, or a new intercept. */
  lemma PostAnswers(r: Table, e: Entry, cfg: Config, w: AddWorld)
    requires DotFree(r) && '.' !in e.ns
    ensures var reply, k := AddHandled(r, e, cfg, w).1, KeyOf(e);
      && (reply == Reserved <==> e.workID in cfg.reserved)
      && (reply == WrongMode <==> e.workID !in cfg.reserved && Rivalled(r, e))
      && (reply == NoSession <==> e.workID !in cfg.reserved && !Rivalled(r, e) && !w.session)
      && (reply == Unchanged <==> Admitted(r, e, cfg, w) && Intercepted(r, e) && r[k].image == e.image)
      && (reply == Rolled <==>
          Admitted(r, e, cfg, w) && Intercepted(r, e) && r[k].image != e.image && !Namesake(r, e))
      && (reply == Raised <==> Admitted(r, e, cfg, w) && !Intercepted(r, e) && !Namesake(r, e) && w.raised)
      && (reply == RaiseFailed <==> Admitted(r, e, cfg, w) && !Intercepted(r, e) && !Namesake(r, e) && !w.raised)
  {
    RivalsConflict(r, e);
    NamesakesElsewhere(r, e);
  }

  // --- the ticks ------------------------------------------------------------------------------

  // What stands in the way of raising a schedule's intercept, asked in this order.
  function Obstacle(r: Table, sc: Scheduled, session: bool, raised: bool): Trouble {
    var key := ScheduleKey(sc);
    if !session then NoSessionYet
    else if exists k :: k in r && k != key && r[k].ns == sc.ns && r[k].workload == sc.workload && !r[k].global
      then Conflicting
    else if exists k :: k in r && k != key && r[k].name == sc.interceptName then Registering
    else if !raised then Raising
    else NoTrouble
  }

  // The manager has no such intercept, has an unwell one, or has had ninety seconds.
  predicate Lost(p: Entry, w: TickWorld, now: int) {
    w.session && (w.answer.NotFound? || (w.answer.Got? && (w.answer.disposition.Unhealthy?
                                         || (w.answer.disposition.Waiting? && !InGrace(p, now)))))
  }

  predicate Kept(r: Table, sc: Scheduled, w: TickWorld, now: int) {
    ScheduleKey(sc) in r && !Lost(r[ScheduleKey(sc)], w, now)
  }

  // What a tick of an open window that has to raise finds in its way: a first raise goes by
  // the session it began with, a second one by the one there is by then.
  function InTheWay(r: Table, sc: Scheduled, w: TickWorld): Trouble {
    Obstacle(r, sc, if ScheduleKey(sc) in r then w.sessionNow else w.session, w.raised)
  }

  // What the check of a kept intercept shows, if this was showing before.
  function Shown(p: Entry, was: Trouble, w: TickWorld, now: int): Trouble {
    if !w.session then SessionGone
    else if w.answer.AskFailed? then if w.cancelled then was else Asking
    else if w.answer.Got? && w.answer.disposition.Waiting? then was
    else if InGrace(p, now) || (p.agentPods != [] && |p.agentPods| >= p.reported) then NoTrouble
    else if p.agentPods == [] then NoTunnel
    else TooFewTunnels
  }

  // The manager's latest word on it.
  function Word(p: Entry, w: TickWorld): Status { if w.session && w.answer.Got? then w.answer.shown else p.status }

  lemma OpenDoes(r: Table, st: IState, sc: Scheduled, session: bool, raised: bool, shown: Status, now: int)
    requires DotFree(r) && '.' !in sc.ns && ScheduleKey(sc) !in r
    ensures var (r', st') := OpenedWindow(r, st, sc, session, raised, shown, now);
      var k, trouble := ScheduleKey(sc), Obstacle(r, sc, session, raised);
      && st'.raises == st.raises + (if trouble == NoTrouble then 1 else 0) && st'.reRaises == st.reRaises
      && st'.problem == trouble && (k in r' <==> trouble == NoTrouble)
      && (k in r' ==> r'[k].raisedAt == now && r'[k].status == shown)
  {
    RivalsConflict(r, ScheduleEntry(sc));
    NamesakesElsewhere(r, ScheduleEntry(sc));
  }

  lemma ObstacleElsewhere(r: Table, r': Table, sc: Scheduled, session: bool, raised: bool)
    requires r'.Keys == r.Keys - {ScheduleKey(sc)} && forall k :: k in r' ==> SameBut(r[k], r'[k])
    ensures Obstacle(r', sc, session, raised) == Obstacle(r, sc, session, raised)
  {
    forall k | k in r && k != ScheduleKey(sc) ensures k in r' && SameBut(r[k], r'[k]) {
    }
  }

  lemma ReRaiseDoes(r: Table, was: Table, st: IState, sc: Scheduled, w: TickWorld, now: int)
    requires DotFree(r) && '.' !in sc.ns
    requires was.Keys == r.Keys && forall k :: k in r ==> SameBut(was[k], r[k])
    ensures var (r', st') := ReRaised(r, st, sc, w, now);
      var k, trouble := ScheduleKey(sc), Obstacle(was, sc, w.sessionNow, w.raised);
      && st'.raises == st.raises + (if trouble == NoTrouble then 1 else 0) && st'.reRaises == st.reRaises + 1
      && st'.problem == trouble && (k in r' <==> trouble == NoTrouble)
      && (k in r' ==> r'[k].raisedAt == now && r'[k].status == w.shown)
  {
    var left := r - {ScheduleKey(sc)};
    ObstacleElsewhere(was, left, sc, w.sessionNow, w.raised);
    OpenDoes(left, st.(up := false, reRaises := st.reRaises + 1), sc, w.sessionNow, w.raised, w.shown, now);
  }

  lemma CheckDoes(r: Table, st: IState, sc: Scheduled, w: TickWorld, now: int)
    requires DotFree(r) && '.' !in sc.ns && Tells(r, st, sc) && ScheduleKey(sc) in r
    ensures var (r', st') := CheckedWindow(r, st, sc, w, now);
      var k, lost := ScheduleKey(sc), Lost(r[ScheduleKey(sc)], w, now);
      var trouble := Obstacle(r, sc, w.sessionNow, w.raised);
      && st'.raises == st.raises + (if lost && trouble == NoTrouble then 1 else 0)
      && st'.reRaises == st.reRaises + (if lost then 1 else 0)
      && (k in r' <==> !lost || trouble == NoTrouble) && (lost ==> st'.problem == trouble)
      && (lost && k in r' ==> r'[k].raisedAt == now && r'[k].status == w.shown)
      && (!lost ==> r'[k] == r[k].(status := Word(r[k], w)) && st'.problem == Shown(r[k], st.problem, w, now))
  {
    if w.answer.NotFound? {
      ReRaiseDoes(r, r, st, sc, w, now);
    } else if w.answer.Got? {
      ReRaiseDoes(Noted(r, r[ScheduleKey(sc)].name, w.answer.shown), r, st, sc, w, now);
    }
  }

  /** A tick of an open window raises the intercept if and only if it is not registered, or
      is lost, and nothing stands in the way - which otherwise it shows; it keeps what is
      not lost, with what the manager now says of it. A shut one has it out. */
  lemma TickDoes(r: Table, st: IState, sc: Scheduled, want: bool, w: TickWorld, now: int)
    requires DotFree(r) && '.' !in sc.ns && Tells(r, st, sc)
    ensures var (r', st') := Ticked(r, st, sc, want, w, now);
      var k, kept, trouble := ScheduleKey(sc), Kept(r, sc, w, now), InTheWay(r, sc, w);
      && st'.raises == st.raises + (if want && !kept && trouble == NoTrouble then 1 else 0)
      && st'.reRaises == st.reRaises + (if want && !kept && k in r then 1 else 0)
      && (k in r' <==> want && (kept || trouble == NoTrouble))
      && (want && !kept ==> st'.problem == trouble)
      && (k in r' && !kept ==> r'[k].raisedAt == now && r'[k].status == w.shown)
      && (want && kept ==> r'[k] == r[k].(status := Word(r[k], w)) && st'.problem == Shown(r[k], st.problem, w, now))
      && (!want ==> st'.problem == if k in r && !w.removed then ClosingFailed else NoTrouble)
  {
    var entered := EnteredWindow(st, want, now);
    if want && ScheduleKey(sc) !in r {
      OpenDoes(r, entered, sc, w.session, w.raised, w.shown, now);
    } else if want {
      CheckDoes(r, entered, sc, w, now);
    }
  }
}
