/** Sweeps, from a start, in which what their comments rule out happens. */
module SweepWitnesses {
  import opened Cluster
  import opened Confirm
  import opened OrphanSweep
  import opened Sweeper
  import opened SweepLaws

  lemma OneKey(k: OrphanKey, m: Memory, v: Sight, t: Terms)
    ensures Torn([k], m, v, t) == if Ready(m, v, t, k) then [k] else []
  {
    TornNext([], k, m, v, t);
    assert [] + [k] == [k];
  }

  /** A key is torn down, and confirmed gone, on one sweep and torn down again on the
      very next: what was made in its place had no second look. */
  lemma TornTwiceRunning() returns (sws: seq<Sweep>, t: Terms, k: OrphanKey)
    ensures |sws| == 3 && AllWalk(sws) && ClocksForward(sws)
    ensures TornAt(NOTHING, sws, t, 1) == [k] && sws[1].confirmed(k) && TornAt(NOTHING, sws, t, 2) == [k]
    ensures k in sws[2].v.found && sws[2].v.found[k] > sws[1].v.now
  {
    k, t := OrphanKey("shop", "PR-7", "cart"), Terms(10, 60);
    var s0 := Sweep([k], Sight(map[k := 1], (j: OrphanKey) => false, 100), (j: OrphanKey) => true);
    var s1 := Sweep([k], Sight(map[k := 1], (j: OrphanKey) => false, 200), (j: OrphanKey) => true);
    var s2 := Sweep([k], Sight(map[k := 250], (j: OrphanKey) => false, 300), (j: OrphanKey) => true);
    sws := [s0, s1, s2];
    OneKey(k, NOTHING, s0.v, t);
    OneKey(k, After(NOTHING, s0, t), s1.v, t);
    OneKey(k, After(After(NOTHING, s0, t), s1, t), s2.v, t);
    assert At(NOTHING, sws, t, 1) == After(NOTHING, s0, t);
    assert At(NOTHING, sws, t, 2) == After(After(NOTHING, s0, t), s1, t);
  }

  // Two namespaces with a Deployment each for the same work id and workload, and a
  // lister that answers for them.
  const OBJECT := Meta(true, "PR-7", "cart", 1)

  function TwoObjects(): Objects {
    map[Ref("billing", Deployment, "cart-pr-7") := OBJECT, Ref("shop", Deployment, "cart-pr-7") := OBJECT]
  }

  function TwoLister(): Lister {
    (ns: string, kind: Kind, sel: Selector) =>
      if kind == Deployment && (ns == "billing" || ns == "shop") && Matches(OBJECT, sel)
      then Listed([Item("cart-pr-7", OBJECT)]) else Listed([])
  }

  lemma TwoHonest()
    ensures Honest(TwoLister(), TwoObjects())
  {
    forall ns, kind, sel, name, meta
      ensures Item(name, meta) in TwoLister()(ns, kind, sel).items <==>
              Ref(ns, kind, name) in TwoObjects() && TwoObjects()[Ref(ns, kind, name)] == meta && Matches(meta, sel)
    {
    }
  }

  /** One orphan is torn down, and a tracked preview's Deployment in another namespace
      goes with it: same work id, same workload. */
  lemma TrackedTaken()
    returns (sws: seq<Sweep>, t: Terms, tears: OrphanKey -> TearWorld, orphan: OrphanKey, tracked: OrphanKey)
    ensures |sws| == 2 && TornAt(NOTHING, sws, t, 1) == [orphan] && sws[1].v.tracked(tracked)
    ensures tracked.ns == "shop" && OwnerIs(Ref("shop", Deployment, "cart-pr-7"), tracked)
    ensures Honest(tears(orphan).list, TwoObjects())
    ensures Ref("shop", Deployment, "cart-pr-7") !in TornDown(TwoObjects(), ["billing", "shop"], [orphan], tears)
  {
    orphan, tracked, t := OrphanKey("billing", "PR-7", "cart"), OrphanKey("shop", "PR-7", "cart"), Terms(10, 60);
    var track := (j: OrphanKey) => j == OrphanKey("shop", "PR-7", "cart");
    var yes := (j: OrphanKey) => true;
    var found := map[orphan := 1, tracked := 1];
    var s0 := Sweep([orphan, tracked], Sight(found, track, 100), yes);
    var s1 := Sweep([orphan, tracked], Sight(found, track, 101), yes);
    sws := [s0, s1];
    var m := After(NOTHING, s0, t);
    assert At(NOTHING, sws, t, 1) == m;
    assert orphan.ns[0] != tracked.ns[0];
    OneKey(orphan, m, s1.v, t);
    TornNext([orphan], tracked, m, s1.v, t);
    assert [orphan] + [tracked] == [orphan, tracked];
    var polls := Polls((i: nat) => TwoLister(), (i: nat) => 0, 0);
    tears := (j: OrphanKey) => TearWorld(TwoLister(), (r: Ref) => Deleted, polls);
    TwoHonest();
    assert [orphan][..0] == [];
    DropExact(TwoObjects(), ["billing", "shop"], SelectorOf(orphan), tears(orphan).list, tears(orphan).delete);
  }

  predicate OwnerIs(r: Ref, k: OrphanKey) { r in TwoObjects() && k == KeyFor(r.ns, TwoObjects()[r]) }
}
