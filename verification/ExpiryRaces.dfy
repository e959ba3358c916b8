/** What a POST in the middle of an expiry risks: the due work ids are read before the
    polls, and a poll that ends well takes whatever the work id has by then. */
module ExpiryRaces {
  import opened Registry
  import opened Handlers
  import opened Expiry
  import opened HandlerInvariant
  import opened RegistryRuns
  import opened PostLaws

  // A POST of this work id that was taken, and so moved its deadline.
  predicate Contact(sys: System, s: Setting, ev: Event, id: string) {
    ev.Post? && ev.e.workID == id && AddHandled(sys.r, ev.e, s.cfg, ev.w).1 in [Raised, Rolled, Unchanged]
  }

  predicate Contacted(sys: System, s: Setting, evs: seq<Event>, id: string)
    decreases |evs|
  {
    evs != [] && (Contact(sys, s, evs[0], id) || Contacted(Exec(sys, s, evs[0]), s, evs[1..], id))
  }

  // This work id's poll has not ended yet, and no clock has run back behind now.
  predicate Pending(sys: System, s: Setting, evs: seq<Event>, id: string, now: int)
    decreases |evs|
  {
    evs == []
    || (&& !(evs[0].ExpiryEnd? && sys.reaping.Polling? && sys.reaping.id == id)
        && (evs[0].Post? ==> evs[0].w.now >= now)
        && Pending(Exec(sys, s, evs[0]), s, evs[1..], id, now))
  }

  // All of a work id's deadlines are past now, or all are still to come.
  ghost predicate AllAhead(r: Table, id: string, now: int, ahead: bool) {
    forall k :: k in r && k.workID == id ==> (r[k].expiresAt > now) == ahead
  }

  ghost predicate Within(r: Table, id: string, nss: set<string>) {
    forall k :: k in r && k.workID == id ==> k.ns in nss
  }

  lemma PostAhead(r: Table, e: Entry, cfg: Config, w: AddWorld, id: string, now: int, ahead: bool)
    requires Inv(r, cfg) && Requested(e) && cfg.lifetime > 0 && w.now >= now && AllAhead(r, id, now, ahead)
    ensures var (r', reply) := AddHandled(r, e, cfg, w);
      AllAhead(r', id, now, ahead || (e.workID == id && reply in [Raised, Rolled, Unchanged]))
  {
    var (r', reply) := AddHandled(r, e, cfg, w);
    if e.workID != id {
      forall k | k in r' && k.workID == id ensures k in r && r'[k] == r[k] {
        OthersUntouched(r, e, cfg, w, k);
      }
    } else if reply in [Raised, Rolled, Unchanged] {
      DeadlineMoves(r, e, cfg, w);
    } else {
      FailedPost(r, e, cfg, w);
    }
  }

  // A POST that was taken puts every deadline of its work id a lifetime ahead.
  lemma DeadlineMoves(r: Table, e: Entry, cfg: Config, w: AddWorld)
    requires Inv(r, cfg) && Requested(e) && cfg.lifetime > 0
    requires AddHandled(r, e, cfg, w).1 in [Raised, Rolled, Unchanged]
    ensures var r' := AddHandled(r, e, cfg, w).0;
      forall k :: k in r' && k.workID == e.workID ==> r'[k].expiresAt == w.now + cfg.lifetime
  {
    forall k | k in r && k.workID == e.workID ensures r[k].workID == e.workID && r[k].schedule == "" {
      assert Sorted(r[k], cfg) && KeyOf(r[k]) == k;
    }
    if AddHandled(r, e, cfg, w).1 == Raised {
      var r0 := if KeyOf(e) in r && SameTarget(r[KeyOf(e)], e) then r else r - {KeyOf(e)};
      RaisedMoves(r0, e, cfg, w);
    }
  }

  lemma RaisedMoves(r: Table, e: Entry, cfg: Config, w: AddWorld)
    requires Requested(e) && cfg.lifetime > 0 && RegisterAndRaise(r, e, cfg, w).1 == Raised
    requires forall k :: k in r && k.workID == e.workID ==> r[k].workID == e.workID && r[k].schedule == ""
    ensures var r' := RegisterAndRaise(r, e, cfg, w).0;
      forall k :: k in r' && k.workID == e.workID ==> r'[k].expiresAt == w.now + cfg.lifetime
  {
  }

  lemma PostWithin(r: Table, e: Entry, cfg: Config, w: AddWorld, id: string, nss: set<string>)
    requires Inv(r, cfg) && Within(r, id, nss)
    requires !(e.workID == id && AddHandled(r, e, cfg, w).1 in [Raised, Rolled, Unchanged])
    ensures Within(AddHandled(r, e, cfg, w).0, id, nss)
  {
    if e.workID != id {
      forall k | k in AddHandled(r, e, cfg, w).0 && k.workID == id ensures k in r {
        OthersUntouched(r, e, cfg, w, k);
      }
    } else {
      FailedPost(r, e, cfg, w);
    }
  }

  lemma StepAhead(sys: System, s: Setting, ev: Event, id: string, now: int, ahead: bool)
    requires Declared(s) && Good(sys, s) && Possible(sys, s, ev) && s.cfg.lifetime > 0 && id !in s.cfg.reserved
    requires AllAhead(sys.r, id, now, ahead) && Pending(sys, s, [ev], id, now)
    ensures AllAhead(Exec(sys, s, ev).r, id, now, ahead || Contact(sys, s, ev, id))
  {
    match ev
    case Post(e, w) => PostAhead(sys.r, e, s.cfg, w, id, now, ahead);
    case TickOf(sc, want, tw, t) => TickAhead(sys, s, ev, id, now, ahead);
    case ExpiryEnd(gone, until) => EndAhead(sys, s, ev, id, now, ahead);
    case _ => OtherAhead(sys, s, ev, id, now, ahead);
  }

  // Deletions take entries, and the rest moves no deadline.
  lemma OtherAhead(sys: System, s: Setting, ev: Event, id: string, now: int, ahead: bool)
    requires AllAhead(sys.r, id, now, ahead) && !ev.Post? && !ev.TickOf? && !ev.ExpiryEnd?
    ensures AllAhead(Exec(sys, s, ev).r, id, now, ahead)
  {
  }

  lemma EndAhead(sys: System, s: Setting, ev: Event, id: string, now: int, ahead: bool)
    requires Inv(sys.r, s.cfg) && ev.ExpiryEnd? && !(sys.reaping.Polling? && sys.reaping.id == id)
    requires AllAhead(sys.r, id, now, ahead)
    ensures AllAhead(Exec(sys, s, ev).r, id, now, ahead)
  {
    forall k | k in sys.r && k.workID == id ensures sys.r[k].workID == id {
      assert KeyOf(sys.r[k]) == k;
    }
  }

  lemma TickAhead(sys: System, s: Setting, ev: Event, id: string, now: int, ahead: bool)
    requires Declared(s) && Possible(sys, s, ev) && ev.TickOf? && id !in s.cfg.reserved
    requires AllAhead(sys.r, id, now, ahead)
    ensures AllAhead(Exec(sys, s, ev).r, id, now, ahead)
  {
    forall k | k in Exec(sys, s, ev).r && k.workID == id
      ensures k in sys.r && SameBut(sys.r[k], Exec(sys, s, ev).r[k])
    {
      TickSpares(sys.r, StateOf(sys, ev.sc), ev.sc, ev.want, ev.tw, ev.now, k);
    }
  }

  lemma StepWithin(sys: System, s: Setting, ev: Event, id: string, nss: set<string>)
    requires Declared(s) && Good(sys, s) && Possible(sys, s, ev) && id !in s.cfg.reserved
    requires Within(sys.r, id, nss) && !Contact(sys, s, ev, id)
    ensures Within(Exec(sys, s, ev).r, id, nss)
  {
    match ev
    case Post(e, w) => PostWithin(sys.r, e, s.cfg, w, id, nss);
    case TickOf(sc, want, tw, t) =>
      forall k | k in Exec(sys, s, ev).r && k.workID == id ensures k in sys.r {
        TickSpares(sys.r, StateOf(sys, sc), sc, want, tw, t, k);
      }
    case _ =>
  }

  lemma {:induction false} RunAhead(sys: System, s: Setting, evs: seq<Event>, id: string, now: int, ahead: bool,
                                    nss: set<string>)
    requires Declared(s) && Good(sys, s) && PossibleRun(sys, s, evs) && s.cfg.lifetime > 0 && id !in s.cfg.reserved
    requires AllAhead(sys.r, id, now, ahead) && Pending(sys, s, evs, id, now) && (!ahead ==> Within(sys.r, id, nss))
    ensures var end := ExecAll(sys, s, evs); var contact := ahead || Contacted(sys, s, evs, id);
      AllAhead(end.r, id, now, contact) && (!contact ==> Within(end.r, id, nss))
    decreases |evs|
  {
    if evs != [] {
      var sys', contact := Exec(sys, s, evs[0]), ahead || Contact(sys, s, evs[0], id);
      assert Pending(sys, s, [evs[0]], id, now);
      StepGood(sys, s, evs[0]);
      StepAhead(sys, s, evs[0], id, now, ahead);
      if !contact {
        StepWithin(sys, s, evs[0], id, nss);
      }
      RunAhead(sys', s, evs[1..], id, now, contact, nss);
    }
  }

  // An entry with time left that ending the poll in "gone" takes.
  predicate Lost(end: System, id: string, now: int, k: ServiceKey) {
    k in end.r && k !in ExpiryHandled(end.r, id, true, now) && end.r[k].expiresAt > now
  }

  /** From the tick that found a work id due to the end of its poll: what a poll that
      sees everything gone removes had time left if and only if a POST of the work id
      was taken in between. Without one, every entry removed was due at that tick and
      is in a namespace the work id was in then. */
  lemma FreshEntryLost(sys: System, s: Setting, evs: seq<Event>, id: string, now: int)
    requires Declared(s) && Good(sys, s) && PossibleRun(sys, s, evs) && s.cfg.lifetime > 0
    requires id in DueIn(sys.r, now) && Pending(sys, s, evs, id, now)
    ensures var end := ExecAll(sys, s, evs);
      && (forall k :: k in end.r && k.workID == id ==> (Lost(end, id, now, k) <==> Contacted(sys, s, evs, id)))
      && (forall k :: Lost(end, id, now, k) ==> k.workID == id)
      && (!Contacted(sys, s, evs, id) ==> NamespacesOf(end.r, id) <= NamespacesOf(sys.r, id))
  {
    var due :| due in sys.r && due.workID == id && PastDeadline(sys.r[due], now);
    assert Sorted(sys.r[due], s.cfg) && KeyOf(sys.r[due]) == due;
    forall k | k in sys.r && k.workID == id ensures sys.r[k].expiresAt <= now && k.ns in NamespacesOf(sys.r, id) {
      assert sys.r[k].expiresAt == sys.r[due].expiresAt;
    }
    RunAhead(sys, s, evs, id, now, false, NamespacesOf(sys.r, id));
  }

  /** And it happens: a preview past its deadline, a retry of its POST while the poll is
      under way, and the poll seeing the objects gone. */
  lemma LostAtWork(s: Setting, e: Entry) returns (evs: seq<Event>)
    requires Declared(s) && s.cfg.lifetime > 0 && Requested(e) && e.workID !in s.cfg.reserved
    ensures PossibleRun(START, s, evs) && PossibleRun(ExecAll(START, s, evs), s, [ExpiryEnd(true, 1)])
    ensures Lost(ExecAll(START, s, evs), e.workID, 1 + s.cfg.lifetime, KeyOf(e))
    ensures ExecAll(START, s, evs + [ExpiryEnd(true, 1)]).r == map[]
  {
    var w := AddWorld(true, true, true, Status("ACTIVE", ""), 1);
    var again, k := w.(now := 2 + s.cfg.lifetime), KeyOf(e);
    var tick := ReapTick(1 + s.cfg.lifetime);
    var first := [Post(e, w)];
    Then(START, s, [], Post(e, w));
    assert [] + [Post(e, w)] == first;
    var s1 := ExecAll(START, s, first);
    assert s1.r.Keys == {k} && s1.r[k].expiresAt == 1 + s.cfg.lifetime && PastDeadline(s1.r[k], 1 + s.cfg.lifetime);
    assert DueIn(s1.r, 1 + s.cfg.lifetime) == {e.workID};
    Then(START, s, first, tick);
    Then(START, s, first + [tick], ExpiryStart(e.workID));
    var polling := first + [tick] + [ExpiryStart(e.workID)];
    Then(START, s, polling, Post(e, again));
    evs := polling + [Post(e, again)];
    RetryDisturbsNothing(START.r, e, s.cfg, w, again);
    assert ExecAll(START, s, evs).r == Extended(s1.r, s.cfg, e.workID, again.now);
    Then(START, s, evs, ExpiryEnd(true, 1));
    assert PossibleRun(ExecAll(START, s, evs), s, [ExpiryEnd(true, 1)]);
  }

  lemma {:induction false} Then(sys: System, s: Setting, evs: seq<Event>, ev: Event)
    requires PossibleRun(sys, s, evs) && Possible(ExecAll(sys, s, evs), s, ev)
    ensures PossibleRun(sys, s, evs + [ev]) && ExecAll(sys, s, evs + [ev]) == Exec(ExecAll(sys, s, evs), s, ev)
    decreases |evs|
  {
    if evs == [] {
      assert [] + [ev] == [ev] && [ev][1..] == [];
    } else {
      assert (evs + [ev])[0] == evs[0] && (evs + [ev])[1..] == evs[1..] + [ev];
      Then(Exec(sys, s, evs[0]), s, evs[1..], ev);
    }
  }
}
