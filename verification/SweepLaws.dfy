/** What runs of sweeps keep: two sightings before a teardown, hold-offs, the budget,
    how fast a backlog clears, and whose objects a sweep can touch. */
module SweepLaws {
  import opened Cluster
  import opened Confirm
  import opened OrphanSweep
  import opened Sweeper

  // One sweep of a run: the keys it found, oldest first, what it goes by, and which of
  // its teardowns could be confirmed.
  datatype Sweep = Sweep(ks: seq<OrphanKey>, v: Sight, confirmed: OrphanKey -> bool)

  // Every sweep walks everything it found. (What order it walks in matters only to
  // who goes first.)
  predicate Walks(s: Sweep) { forall k :: k in s.v.found ==> k in s.ks }

  predicate AllWalk(sws: seq<Sweep>) { forall i :: 0 <= i < |sws| ==> Walks(sws[i]) }

  // What the sweeps before the i-th have left in memory.
  function At(m: Memory, sws: seq<Sweep>, t: Terms, i: nat): Memory
    requires i <= |sws|
  {
    if i == 0 then m else After(At(m, sws, t, i - 1), sws[i - 1], t)
  }

  function After(m: Memory, s: Sweep, t: Terms): Memory { Remembered(s.ks, m, s.v, t, s.confirmed) }

  function TornAt(m: Memory, sws: seq<Sweep>, t: Terms, i: nat): seq<OrphanKey>
    requires i < |sws|
  {
    Torn(sws[i].ks, At(m, sws, t, i), sws[i].v, t)
  }

  const NOTHING := Memory({}, map[])

  // Listed, with a creation time, a lifetime ago or more, and nobody's preview.
  predicate Forsaken(v: Sight, t: Terms, k: OrphanKey) {
    k in v.found && v.found[k] != 0 && v.found[k] + t.lifetime <= v.now && !v.tracked(k)
  }

  /** A key is torn down only on its second sighting running: listed, untracked and
      over-age on this sweep and on the one before, whatever failed or changed. */
  lemma TwoSightings(sws: seq<Sweep>, t: Terms, i: nat, k: OrphanKey)
    requires i < |sws| && k in TornAt(NOTHING, sws, t, i)
    ensures i > 0 && Forsaken(sws[i].v, t, k) && Forsaken(sws[i - 1].v, t, k)
  {
    TornAmong(sws[i].ks, At(NOTHING, sws, t, i), sws[i].v, t);
  }

  // --- hold-offs ------------------------------------------------------------------------------

  ghost predicate ClocksForward(sws: seq<Sweep>) { forall i, j :: 0 <= i <= j < |sws| ==> sws[i].v.now <= sws[j].v.now }

  predicate HeldUntil(m: Memory, k: OrphanKey, until: int) { k in m.nextTry && m.nextTry[k] == until }

  lemma HoldOffStarts(m: Memory, s: Sweep, t: Terms, k: OrphanKey)
    requires Walks(s) && Orphan(s.v, t, k) && k in Torn(s.ks, m, s.v, t) && !s.confirmed(k)
    ensures HeldUntil(After(m, s, t), k, s.v.now + t.recheck)
  {
  }

  lemma HoldOffKept(m: Memory, s: Sweep, t: Terms, k: OrphanKey, until: int)
    requires Walks(s) && Orphan(s.v, t, k) && HeldUntil(m, k, until) && s.v.now < until
    ensures HeldUntil(After(m, s, t), k, until)
  {
    TornAmong(s.ks, m, s.v, t);
  }

  // While it stays sighted and the recheck is not due, its hold-off stands.
  lemma {:induction false} HoldOffStands(m: Memory, sws: seq<Sweep>, t: Terms, i: nat, j: nat, k: OrphanKey)
    requires AllWalk(sws) && ClocksForward(sws) && i < j <= |sws|
    requires k in TornAt(m, sws, t, i) && !sws[i].confirmed(k)
    requires forall l :: i <= l < j ==> Orphan(sws[l].v, t, k)
    requires sws[j - 1].v.now < sws[i].v.now + t.recheck
    ensures HeldUntil(At(m, sws, t, j), k, sws[i].v.now + t.recheck)
    decreases j
  {
    var s, before, until := sws[j - 1], At(m, sws, t, j - 1), sws[i].v.now + t.recheck;
    assert Walks(s) && Orphan(s.v, t, k);
    assert HeldUntil(After(before, s, t), k, until) by {
      if i == j - 1 {
        HoldOffStarts(before, s, t, k);
      } else {
        HoldOffStands(m, sws, t, i, j - 1, k);
        HoldOffKept(before, s, t, k, until);
      }
    }
  }

  /** A key whose teardown was not confirmed is not torn down again before the recheck
      interval is over, as long as every sweep in between sights it. */
  lemma NotRetriedEarly(m: Memory, sws: seq<Sweep>, t: Terms, i: nat, j: nat, k: OrphanKey)
    requires AllWalk(sws) && ClocksForward(sws) && i < j < |sws|
    requires k in TornAt(m, sws, t, i) && !sws[i].confirmed(k)
    requires forall l :: i <= l < j ==> Orphan(sws[l].v, t, k)
    requires sws[j].v.now < sws[i].v.now + t.recheck
    ensures k !in TornAt(m, sws, t, j)
  {
    HoldOffStands(m, sws, t, i, j, k);
    TornAmong(sws[j].ks, At(m, sws, t, j), sws[j].v, t);
  }

  /** A sweep that does not sight it clears the slate: no hold-off, and two sightings
      to go. */
  lemma UnsightedStartsOver(m: Memory, sws: seq<Sweep>, t: Terms, i: nat, k: OrphanKey)
    requires i < |sws| && !Orphan(sws[i].v, t, k)
    ensures k !in At(m, sws, t, i + 1).nextTry && k !in At(m, sws, t, i + 1).seen
    ensures i + 1 < |sws| ==> k !in TornAt(m, sws, t, i + 1)
  {
    if i + 1 < |sws| {
      TornAmong(sws[i + 1].ks, At(m, sws, t, i + 1), sws[i + 1].v, t);
    }
  }

  /** A teardown, confirmed or not, does not: the key keeps its sighting, and one that
      is found orphaned again on the very next sweep needs no second look. */
  lemma TornStaysSighted(m: Memory, sws: seq<Sweep>, t: Terms, i: nat, k: OrphanKey)
    requires i < |sws| && k in TornAt(m, sws, t, i)
    ensures k in At(m, sws, t, i + 1).seen
    ensures i + 1 < |sws| && sws[i].confirmed(k) && Orphan(sws[i + 1].v, t, k) ==>
            Ready(At(m, sws, t, i + 1), sws[i + 1].v, t, k)
  {
    TornAmong(sws[i].ks, At(m, sws, t, i), sws[i].v, t);
  }

  // --- the budget -------------------------------------------------------------------------------

  // Positions of the walk are kept by picking.
  lemma {:induction false} ReadyInOrder(ks: seq<OrphanKey>, m: Memory, v: Sight, t: Terms, p: OrphanKey, q: OrphanKey)
    requires Distinct(ks) && p in ks && q in ks
    requires exists i, j :: 0 <= i < j < |ks| && ks[i] == p && ks[j] == q
    requires Ready(m, v, t, p) && q in Torn(ks, m, v, t)
    ensures p in Torn(ks, m, v, t)
  {
    var init, k := ks[..|ks| - 1], ks[|ks| - 1];
    assert ks == init + [k];
    InitDistinct(ks);
    TornNext(init, k, m, v, t);
    var i, j :| 0 <= i < j < |ks| && ks[i] == p && ks[j] == q;
    assert init[i] == p;
    if q == k {
      // q got in, so the budget was not spent before it.
      NotTorn(init, k, m, v, t);
      TornAmong(init, m, v, t);
    } else {
      assert j < |init| && init[j] == q;
      ReadyInOrder(init, m, v, t, p, q);
    }
  }

  /** At most five a sweep, all of them ready; and a ready key is passed over only when
      five others go, each at least as old. */
  lemma OldestFirst(ks: seq<OrphanKey>, m: Memory, v: Sight, t: Terms)
    requires InOrder(ks, v.found)
    ensures var torn := Torn(ks, m, v, t);
      && |torn| <= BUDGET && (forall k :: k in torn ==> Ready(m, v, t, k))
      && forall p :: Ready(m, v, t, p) && p !in torn ==>
           |torn| == BUDGET && forall q :: q in torn ==> q in v.found && v.found[q] <= v.found[p]
  {
    TornAmong(ks, m, v, t);
    var torn := Torn(ks, m, v, t);
    forall p, q | Ready(m, v, t, p) && p !in torn && q in torn ensures q in v.found && v.found[q] <= v.found[p] {
      var i :| 0 <= i < |ks| && ks[i] == p;
      var j :| 0 <= j < |ks| && ks[j] == q;
      if i < j {
        ReadyInOrder(ks, m, v, t, p, q);
      }
      assert j < i;
      assert !Before(v.found, ks[i], ks[j]);
    }
  }

  // --- a backlog --------------------------------------------------------------------------------

  function OrphansOf(s: Sweep, t: Terms): set<OrphanKey> { Orphans(s.ks, s.v, t) }

  // A run whose teardowns all confirm, with no new orphans: what is torn down is not
  // an orphan again, and the clock does not run back.
  ghost predicate Draining(m: Memory, sws: seq<Sweep>, t: Terms)
    decreases |sws|
  {
    sws != [] ==>
      var s := sws[0];
      && Distinct(s.ks) && (forall k :: k in Torn(s.ks, m, s.v, t) ==> s.confirmed(k))
      && (|sws| > 1 ==>
            && s.v.now <= sws[1].v.now
            && OrphansOf(sws[1], t) <= OrphansOf(s, t) - (set k | k in Torn(s.ks, m, s.v, t)))
      && Draining(After(m, s, t), sws[1..], t)
  }

  // No hold-off is pending.
  ghost predicate Clear(m: Memory, now: int) { forall k :: k in m.nextTry ==> m.nextTry[k] <= now }

  lemma {:induction false} SetSize(ks: seq<OrphanKey>)
    requires Distinct(ks)
    ensures |set k | k in ks| == |ks|
  {
    if ks != [] {
      var init, k := ks[..|ks| - 1], ks[|ks| - 1];
      InitDistinct(ks);
      SetSize(init);
      assert ks == init + [k];
      assert (set x | x in ks) == (set x | x in init) + {k};
    } else {
      assert (set k | k in ks) == {};
    }
  }

  lemma {:induction false} ReadyDistinct(ks: seq<OrphanKey>, m: Memory, v: Sight, t: Terms)
    requires Distinct(ks)
    ensures Distinct(ReadyKeys(ks, m, v, t))
  {
    if ks != [] {
      InitDistinct(ks);
      ReadyDistinct(ks[..|ks| - 1], m, v, t);
      ReadyAmong(ks[..|ks| - 1], m, v, t);
    }
  }

  // When every orphan has been sighted and none is held off, a sweep clears five.
  lemma ClearsFive(s: Sweep, m: Memory, t: Terms)
    requires Distinct(s.ks) && OrphansOf(s, t) <= m.seen && Clear(m, s.v.now)
    ensures var n := |OrphansOf(s, t)|;
      |OrphansOf(s, t) - (set k | k in Torn(s.ks, m, s.v, t))| == if n <= BUDGET then 0 else n - BUDGET
  {
    var all, torn, ready := OrphansOf(s, t), Torn(s.ks, m, s.v, t), ReadyKeys(s.ks, m, s.v, t);
    ReadyAmong(s.ks, m, s.v, t);
    ReadyDistinct(s.ks, m, s.v, t);
    assert (set k | k in ready) == all;
    SetSize(ready);
    SetSize(torn);
    assert (set k | k in torn) <= all;
  }

  function Less5(n: nat): nat { if n <= BUDGET then 0 else n - BUDGET }

  lemma DrainsFive(m: Memory, sws: seq<Sweep>, t: Terms, n: nat)
    requires |sws| > 1 && Draining(m, sws, t) && Clear(m, sws[0].v.now)
    requires OrphansOf(sws[0], t) <= m.seen && |OrphansOf(sws[0], t)| <= n
    ensures |OrphansOf(sws[1], t)| <= Less5(n)
  {
    var s := sws[0];
    ClearsFive(s, m, t);
    SizeMonotone(OrphansOf(sws[1], t), OrphansOf(s, t) - (set k | k in Torn(s.ks, m, s.v, t)));
  }

  // One sweep on, every orphan has been sighted and still none is held off.
  lemma StaysClear(m: Memory, sws: seq<Sweep>, t: Terms)
    requires |sws| > 1 && Draining(m, sws, t) && Clear(m, sws[0].v.now)
    ensures var s := sws[0]; var m' := After(m, s, t);
      Draining(m', sws[1..], t) && Clear(m', sws[1].v.now) && OrphansOf(sws[1], t) <= m'.seen
  {
  }

  lemma {:induction false} Drained(m: Memory, sws: seq<Sweep>, t: Terms, n: nat)
    requires |sws| > (n + 4) / 5 && Draining(m, sws, t) && Clear(m, sws[0].v.now)
    requires OrphansOf(sws[0], t) <= m.seen && |OrphansOf(sws[0], t)| <= n
    ensures OrphansOf(sws[(n + 4) / 5], t) == {}
    decreases n
  {
    if n > 0 {
      DrainsFive(m, sws, t, n);
      StaysClear(m, sws, t);
      var s, d := sws[0], (Less5(n) + 4) / 5;
      assert d + 1 == (n + 4) / 5;
      Drained(After(m, s, t), sws[1..], t, Less5(n));
      assert sws[1..][d] == sws[d + 1];
    }
  }

  lemma SizeMonotone(a: set<OrphanKey>, b: set<OrphanKey>)
    requires a <= b
    ensures |a| <= |b|
  {
    assert b == a + (b - a);
  }

  /** A backlog of n orphans is gone after 1 + ceil(n/5) sweeps, whatever had been
      sighted before the first: the next sweep finds none. */
  lemma BacklogClears(m: Memory, sws: seq<Sweep>, t: Terms)
    requires sws != [] && Draining(m, sws, t) && Clear(m, sws[0].v.now)
    ensures var n := |OrphansOf(sws[0], t)|; |sws| > 1 + (n + 4) / 5 ==> OrphansOf(sws[1 + (n + 4) / 5], t) == {}
  {
    var s, n := sws[0], |OrphansOf(sws[0], t)|;
    if |sws| > 1 + (n + 4) / 5 {
      SizeMonotone(OrphansOf(sws[1], t), OrphansOf(s, t));
      StaysClear(m, sws, t);
      Drained(After(m, s, t), sws[1..], t, n);
    }
  }
}
