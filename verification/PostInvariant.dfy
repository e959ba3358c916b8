/** A POST keeps what the registry keeps, whichever way it goes. */
module PostInvariant {
  import opened Registry
  import opened Handlers
  import opened HandlerInvariant

  // Every preview of the work id moves to one deadline, the new one among them.
  lemma ExtendedDeadlines(r: Table, e: Entry, cfg: Config, now: int, until: int)
    requires Keyed(r) && AllSorted(r, cfg) && OneDeadline(r)
    requires Requested(e) && e.workID !in cfg.reserved && cfg.lifetime > 0 && until > 0
    ensures var r' := Touched(Added(r, e, now), e.workID, until); AllSorted(r', cfg) && OneDeadline(r')
  {
  }

  lemma AddedShape(r: Table, e: Entry, now: int)
    requires Keyed(r) && NamesUnique(r) && OneMode(r) && !InConflict(r, e) && !NameTaken(r, e)
    ensures var r' := Added(r, e, now); Keyed(r') && NamesUnique(r') && OneMode(r')
  {
    ModeCheckExact(r, e, now);
    NameCheckExact(r, e, now);
  }

  lemma ExtendedShape(r: Table, e: Entry, now: int, until: int)
    requires Keyed(r) && NamesUnique(r) && OneMode(r) && !InConflict(r, e) && !NameTaken(r, e)
    ensures var r' := Touched(Added(r, e, now), e.workID, until); Keyed(r') && NamesUnique(r') && OneMode(r')
  {
    AddedShape(r, e, now);
    TouchedShape(Added(r, e, now), e.workID, until);
  }

  lemma InvUndated(r: Table, e: Entry, cfg: Config, now: int)
    requires Inv(r, cfg) && Requested(e) && e.workID !in cfg.reserved && cfg.lifetime <= 0
    requires !InConflict(r, e) && !NameTaken(r, e)
    ensures Inv(Added(r, e, now), cfg)
  {
    forall k | k in r && k.workID == e.workID ensures r[k].expiresAt == 0 {
      assert Sorted(r[k], cfg);
    }
    InvAdded(r, e, cfg, now);
  }

  lemma InvDated(r: Table, e: Entry, cfg: Config, now: int, until: int)
    requires Inv(r, cfg) && Requested(e) && e.workID !in cfg.reserved && cfg.lifetime > 0 && until > 0
    requires !InConflict(r, e) && !NameTaken(r, e)
    ensures Inv(Touched(Added(r, e, now), e.workID, until), cfg)
  {
    ExtendedShape(r, e, now, until);
    ExtendedDeadlines(r, e, cfg, now, until);
  }

  lemma InvExtended(r: Table, e: Entry, cfg: Config, w: AddWorld)
    requires Inv(r, cfg) && Requested(e) && e.workID !in cfg.reserved && w.now > 0
    requires !InConflict(r, e) && !NameTaken(r, e)
    ensures Inv(Extended(Added(r, e, w.now), cfg, e.workID, w.now), cfg)
  {
    var r1, until := Added(r, e, w.now), w.now + cfg.lifetime;
    var r2 := if cfg.lifetime <= 0 then r1 else Touched(r1, e.workID, until);
    assert Inv(r2, cfg) by {
      if cfg.lifetime <= 0 {
        InvUndated(r, e, cfg, w.now);
      } else {
        InvDated(r, e, cfg, w.now, until);
      }
    }
    assert r2 == Extended(r1, cfg, e.workID, w.now);
  }

  lemma InvRaised(r: Table, e: Entry, cfg: Config, w: AddWorld)
    requires Inv(r, cfg) && Requested(e) && e.workID !in cfg.reserved && w.now > 0
    requires !InConflict(r, e) && !NameTaken(r, e)
    ensures Inv(Extended(Noted(Added(r, e, w.now), e.name, w.status), cfg, e.workID, w.now), cfg)
  {
    var r1 := Added(r, e, w.now);
    InvExtended(r, e, cfg, w);
    InvUpdated(Extended(r1, cfg, e.workID, w.now),
               Extended(Noted(r1, e.name, w.status), cfg, e.workID, w.now), cfg);
  }

  lemma InvRegistered(r: Table, e: Entry, cfg: Config, w: AddWorld)
    requires Inv(r, cfg) && Requested(e) && e.workID !in cfg.reserved && w.now > 0
    requires !InConflict(r, e) && KeyOf(e) !in r
    ensures Inv(RegisterAndRaise(r, e, cfg, w).0, cfg)
  {
    if !NameTaken(r, e) {
      var r1 := Added(r, e, w.now);
      if !w.raised {
        InvSubset(r, r1 - {KeyOf(e)}, cfg);
      } else {
        InvRaised(r, e, cfg, w);
      }
    }
  }

  lemma InvRolled(r: Table, prev: Entry, e: Entry, cfg: Config, w: AddWorld)
    requires Inv(r, cfg) && Requested(e) && e.workID !in cfg.reserved && w.now > 0 && !InConflict(r, e)
    ensures Inv(RolledForward(r, prev, e, cfg, w).0, cfg)
  {
    var c := Carried(prev, e);
    assert forall j | j in r :: Conflicts(r, c, j) == Conflicts(r, e, j);
    if !NameTaken(r, c) {
      InvExtended(r, c, cfg, w);
    }
  }

  lemma InvReplaced(r: Table, e: Entry, cfg: Config, w: AddWorld)
    requires Inv(r, cfg) && Requested(e) && e.workID !in cfg.reserved && w.now > 0 && !InConflict(r, e)
    ensures Inv(RegisterAndRaise(r - {KeyOf(e)}, e, cfg, w).0, cfg)
  {
    var r1 := r - {KeyOf(e)};
    InvSubset(r, r1, cfg);
    assert forall j | j in r1 :: Conflicts(r1, e, j) == Conflicts(r, e, j);
    InvRegistered(r1, e, cfg, w);
  }

  lemma InvPost(r: Table, e: Entry, cfg: Config, w: AddWorld)
    requires Inv(r, cfg) && Requested(e) && w.now > 0
    ensures Inv(AddHandled(r, e, cfg, w).0, cfg)
  {
    if e.workID !in cfg.reserved && !InConflict(r, e) && w.session && w.built {
      InvTaken(r, e, cfg, w);
    }
  }

  // A POST that got past the refusals.
  lemma InvTaken(r: Table, e: Entry, cfg: Config, w: AddWorld)
    requires Inv(r, cfg) && Requested(e) && w.now > 0
    requires e.workID !in cfg.reserved && !InConflict(r, e) && w.session && w.built
    ensures Inv(AddHandled(r, e, cfg, w).0, cfg)
  {
    if KeyOf(e) in r && SameTarget(r[KeyOf(e)], e) {
      InvSameTarget(r, e, cfg, w);
    } else {
      InvReplaced(r, e, cfg, w);
    }
  }

  lemma InvSameTarget(r: Table, e: Entry, cfg: Config, w: AddWorld)
    requires Inv(r, cfg) && Requested(e) && w.now > 0
    requires e.workID !in cfg.reserved && !InConflict(r, e) && w.session && w.built
    requires KeyOf(e) in r && SameTarget(r[KeyOf(e)], e)
    ensures Inv(AddHandled(r, e, cfg, w).0, cfg)
  {
    if r[KeyOf(e)].image == e.image {
      InvRetried(r, cfg, e.workID, w.now);
    } else {
      InvRolled(r, r[KeyOf(e)], e, cfg, w);
    }
  }

  lemma InvSame(r: Table, r': Table, cfg: Config)
    requires Inv(r, cfg) && r' == r
    ensures Inv(r', cfg)
  {
  }

  lemma InvRetried(r: Table, cfg: Config, workID: string, now: int)
    requires Inv(r, cfg) && now > 0
    ensures Inv(Extended(r, cfg, workID, now), cfg)
  {
    if cfg.lifetime > 0 {
      var until := now + cfg.lifetime;
      InvTouched(r, cfg, workID, until);
      InvSame(Touched(r, workID, until), Extended(r, cfg, workID, now), cfg);
    } else {
      InvSame(r, Extended(r, cfg, workID, now), cfg);
    }
  }
}
