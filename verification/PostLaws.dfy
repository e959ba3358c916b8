/** What a POST promises its caller, and what an intercept schedule that shows itself
    up has to go on. */
module PostLaws {
  import opened Registry
  import opened Handlers
  import opened HandlerInvariant
  import opened RegistryRuns

  // A later entry in place of an earlier one: the same service, the same intercept.
  predicate SameService(e: Entry, e': Entry) { KeyOf(e') == KeyOf(e) && e'.name == e.name && e'.global == e.global }

  lemma ConflictsSame(r: Table, r': Table, e: Entry)
    requires Keyed(r) && KeyOf(e) in r'
    requires forall k :: k in r' && k != KeyOf(e) ==> k in r && SameService(r[k], r'[k])
    requires !InConflict(r, e)
    ensures !InConflict(r', e)
  {
    forall k | k in r' && k != KeyOf(e) ensures !Conflicts(r', e, k) {
      assert !Conflicts(r, e, k);
    }
  }

  // What a preview sends where: the service and port that are intercepted, and the image
  // the traffic goes to.
  datatype Route = Route(targetService: string, targetPort: int, portID: string, image: string)

  function RouteOf(e: Entry): Route { Route(e.targetService, e.targetPort, e.portID, e.image) }

  /** A POST that is taken leaves its own entry standing with the target and the image it
      asked for, and others where they were. */
  lemma Taken(r: Table, e: Entry, cfg: Config, w: AddWorld)
    requires Keyed(r) && AddHandled(r, e, cfg, w).1 in [Raised, Rolled, Unchanged]
    ensures var r' := AddHandled(r, e, cfg, w).0; var k := KeyOf(e);
      && k in r' && r'[k].targetService == e.targetService && r'[k].targetPort == e.targetPort
      && r'[k].portID == e.portID && r'[k].image == e.image
      && forall j :: j in r' && j != k ==> j in r && SameIntercept(r[j], r'[j])
  {
    var reply := AddHandled(r, e, cfg, w).1;
    if reply == Raised {
      TakenFresh(r - {KeyOf(e)}, e, cfg, w);
    } else if reply == Rolled {
      ExtendedSame(Added(r, Carried(r[KeyOf(e)], e), w.now), cfg, e.workID, w.now);
    } else {
      ExtendedSame(r, cfg, e.workID, w.now);
    }
  }

  lemma TakenFresh(r: Table, e: Entry, cfg: Config, w: AddWorld)
    requires Keyed(r) && RegisterAndRaise(r, e, cfg, w).1 == Raised
    ensures var r' := RegisterAndRaise(r, e, cfg, w).0; var k := KeyOf(e);
      && k in r' && RouteOf(r'[k]) == RouteOf(e)
      && forall j :: j in r' && j != k ==> j in r && SameIntercept(r[j], r'[j])
  {
    var r1 := Added(r, e, w.now);
    var r2 := Noted(r1, e.name, w.status);
    NotedSame(r1, e.name, w.status);
    ExtendedSame(r2, cfg, e.workID, w.now);
  }

  // What updates in place leave alone.
  predicate SameIntercept(e: Entry, e': Entry) { SameService(e, e') && RouteOf(e') == RouteOf(e) }

  lemma NotedSame(r: Table, name: string, status: Status)
    ensures var r' := Noted(r, name, status); r'.Keys == r.Keys && forall j :: j in r ==> SameIntercept(r[j], r'[j])
  {
  }

  lemma ExtendedSame(r: Table, cfg: Config, workID: string, now: int)
    ensures var r' := Extended(r, cfg, workID, now);
      r'.Keys == r.Keys && forall j :: j in r ==> SameIntercept(r[j], r'[j])
  {
  }

  /** A pipeline's retry disturbs nothing: the same POST again is answered as unchanged
      and only extends the work id's deadline. */
  lemma RetryDisturbsNothing(r: Table, e: Entry, cfg: Config, w: AddWorld, again: AddWorld)
    requires Keyed(r) && AddHandled(r, e, cfg, w).1 in [Raised, Rolled, Unchanged] && again.session && again.built
    ensures var r' := AddHandled(r, e, cfg, w).0;
      AddHandled(r', e, cfg, again) == (Extended(r', cfg, e.workID, again.now), Unchanged)
  {
    Taken(r, e, cfg, w);
    ConflictsSame(r, AddHandled(r, e, cfg, w).0, e);
  }

  /** A POST is its own work id's affair: every other work id's entries stay exactly as
      they are, whatever it is answered. */
  lemma OthersUntouched(r: Table, e: Entry, cfg: Config, w: AddWorld, k: ServiceKey)
    requires Keyed(r) && NamesUnique(r) && k.workID != e.workID
    ensures var r' := AddHandled(r, e, cfg, w).0; (k in r' <==> k in r) && (k in r ==> r'[k] == r[k])
  {
    if k in r && !NameTaken(r - {KeyOf(e)}, e) {
      assert (r - {KeyOf(e)})[k].name != e.name;
    }
  }

  // Replies after which the registry is as it was.
  predicate RefusedAtOnce(reply: Reply) {
    reply == Reserved || reply == WrongMode || reply == NoSession || reply == BuildFailed
  }

  /** A refused POST changes nothing; one that fails to register or raise leaves the
      service without an entry, unless it was a roll, which leaves the old one. */
  lemma FailedPost(r: Table, e: Entry, cfg: Config, w: AddWorld)
    requires AddHandled(r, e, cfg, w).1 !in [Raised, Rolled, Unchanged]
    ensures var (r', reply) := AddHandled(r, e, cfg, w);
      && (RefusedAtOnce(reply) ==> r' == r)
      && (!RefusedAtOnce(reply) ==> r' == if KeyOf(e) in r && SameTarget(r[KeyOf(e)], e) then r else r - {KeyOf(e)})
  {
    assert r - {KeyOf(e)} == Added(r - {KeyOf(e)}, e, w.now) - {KeyOf(e)};
  }

  /** A roll forward carries the live intercept's state and age to the new image. */
  lemma RollCarries(r: Table, e: Entry, cfg: Config, w: AddWorld)
    requires Keyed(r) && AddHandled(r, e, cfg, w).1 == Rolled
    ensures var k := KeyOf(e); var r' := AddHandled(r, e, cfg, w).0;
      && k in r && k in r' && r'[k].image == e.image != r[k].image
      && (r[k].raisedAt != 0 ==> r'[k].raisedAt == r[k].raisedAt)
      && r'[k].status == r[k].status && r'[k].agentPods == r[k].agentPods && r'[k].reported == r[k].reported
  {
  }

  /** A DELETE takes what was asked for out of the registry and leaves all else as it was;
      of a reserved work id it takes nothing. */
  lemma RemovalTakes(r: Table, cfg: Config, k: ServiceKey, j: ServiceKey)
    ensures var r' := RemoveServiceHandled(r, cfg, k);
      && (j in r' <==> j in r && (j != k || k.workID in cfg.reserved)) && (j in r' ==> r'[j] == r[j])
    ensures var r' := RemoveWorkHandled(r, cfg, k.workID);
      && (j in r' <==> j in r && (j.workID != k.workID || k.workID in cfg.reserved)) && (j in r' ==> r'[j] == r[j])
  {
  }

  /** A preview put in again keeps the age it had; a new one has its own, or starts now. */
  lemma AgeCarries(r: Table, e: Entry, now: int)
    ensures var k, e' := KeyOf(e), Added(r, e, now)[KeyOf(e)];
      && e' == e.(raisedAt := e'.raisedAt)
      && (k in r && r[k].raisedAt != 0 ==> e'.raisedAt == r[k].raisedAt)
      && (!(k in r && r[k].raisedAt != 0) ==> e'.raisedAt == if e.raisedAt != 0 then e.raisedAt else now)
  {
  }

  // --- what an up schedule has to go on -----------------------------------------------------

  // Ninety seconds after an intercept is raised its grace is over.
  predicate InGrace(p: Entry, now: int) { now <= p.raisedAt + 90 * 1_000_000_000 }

  // What the manager and the tunnels have to say for a registered intercept to be up.
  predicate Vouched(p: Entry, w: TickWorld, now: int) {
    w.session && w.answer.Got?
    && if w.answer.disposition.Active? then InGrace(p, now) || (p.agentPods != [] && |p.agentPods| >= p.reported)
       else w.answer.disposition.Waiting? && InGrace(p, now)
  }

  /** A schedule shows itself up after a tick if and only if the window is open and it
      was raised in this very tick, or the manager vouches for it and past the grace
      every reported pod has its tunnel, or the manager did not answer and it was up. */
  lemma UpMeans(r: Table, st: IState, sc: Scheduled, want: bool, w: TickWorld, now: int)
    requires Keyed(r) && Tells(r, st, sc)
    ensures var st' := Ticked(r, st, sc, want, w, now).1; var k := ScheduleKey(sc);
      st'.up <==> want && (st'.raises == st.raises + 1
                           || (k in r && Vouched(r[k], w, now))
                           || (k in r && w.session && w.answer.AskFailed? && st.up))
  {
    var entered := EnteredWindow(st, want, now);
    if want && ScheduleKey(sc) in r {
      CheckMeans(r, entered, sc, w, now);
    }
  }

  lemma CheckMeans(r: Table, st: IState, sc: Scheduled, w: TickWorld, now: int)
    requires Keyed(r) && ScheduleKey(sc) in r && r[ScheduleKey(sc)].raisedAt == st.raisedAt
    ensures var st' := CheckedWindow(r, st, sc, w, now).1;
      st'.up <==> st'.raises == st.raises + 1 || Vouched(r[ScheduleKey(sc)], w, now)
                  || (w.session && w.answer.AskFailed? && st.up)
  {
  }
}
