/** What a sweep does to the cluster: which objects its teardowns can take, and what
    that leaves for the next sweep to find. */
module SweepEffects {
  import opened Cluster
  import opened Confirm
  import opened OrphanSweep
  import opened Sweeper

  // A lister that may fail or leave objects out, but lists an object only under its
  // own labels, and only when these match.
  ghost predicate Faithful(list: Lister, objs: Objects) {
    forall ns, kind, sel | list(ns, kind, sel).Listed? ::
      forall item :: item in list(ns, kind, sel).items && Ref(ns, kind, item.name) in objs ==>
                     objs[Ref(ns, kind, item.name)] == item.meta && Matches(item.meta, sel)
  }

  // The preview an object belongs to.
  function OwnerOf(r: Ref, m: Meta): OrphanKey { OrphanKey(r.ns, m.workID, m.workload) }

  // The pair a teardown's selector names, whatever the namespace.
  predicate SamePair(a: OrphanKey, b: OrphanKey) { a.workID == b.workID && a.workload == b.workload }

  lemma TargetsOnlyPair(objs: Objects, allowed: seq<string>, k: OrphanKey, list: Lister, r: Ref)
    requires k.workID != "" && k.workload != "" && Faithful(list, objs)
    requires r in objs && Targeted(allowed, SelectorOf(k), list, r)
    ensures objs[r].managed && r.ns in allowed && SamePair(k, OwnerOf(r, objs[r]))
  {
  }

  // Whose teardown could have taken an object.
  predicate Named(torn: seq<OrphanKey>, k: OrphanKey) { exists i :: 0 <= i < |torn| && SamePair(torn[i], k) }

  /** Teardowns take nothing but objects whose work id and workload one of them names. */
  lemma {:induction false} TakesOnlyPairs(objs: Objects, allowed: seq<string>, torn: seq<OrphanKey>,
                                          tears: OrphanKey -> TearWorld, r: Ref)
    requires forall i :: 0 <= i < |torn| ==> torn[i].workID != "" && torn[i].workload != ""
    requires forall i :: 0 <= i < |torn| ==> Faithful(tears(torn[i]).list, TornDown(objs, allowed, torn[..i], tears))
    requires r in objs
    ensures var left := TornDown(objs, allowed, torn, tears);
      if r in left then left[r] == objs[r]
      else objs[r].managed && r.ns in allowed && Named(torn, OwnerOf(r, objs[r]))
  {
    if torn != [] {
      var init, k := torn[..|torn| - 1], torn[|torn| - 1];
      assert forall i | 0 <= i < |init| :: init[i] == torn[i] && init[..i] == torn[..i];
      TakesOnlyPairs(objs, allowed, init, tears, r);
      assert forall o | Named(init, o) :: Named(torn, o);
      var mid := TornDown(objs, allowed, init, tears);
      assert Faithful(tears(k).list, mid) by { assert torn[|torn| - 1] == k && torn[..|torn| - 1] == init; }
      if r in mid && Targeted(allowed, SelectorOf(k), tears(k).list, r) {
        TargetsOnlyPair(mid, allowed, k, tears(k).list, r);
        assert Named(torn, OwnerOf(r, objs[r]));
      }
    }
  }

  /** So a sweep spares every tracked preview's objects, if a work id and a workload
      are in one namespace: what is torn down is untracked, and shares no pair with it. */
  lemma TrackedSpared(objs: Objects, allowed: seq<string>, ks: seq<OrphanKey>, m: Memory, v: Sight, t: Terms,
                      tears: OrphanKey -> TearWorld, r: Ref)
    requires forall k :: k in v.found ==> k.workID != "" && k.workload != ""
    requires var torn := Torn(ks, m, v, t);
      forall i :: 0 <= i < |torn| ==> Faithful(tears(torn[i]).list, TornDown(objs, allowed, torn[..i], tears))
    requires r in objs && v.tracked(OwnerOf(r, objs[r]))
    requires forall k :: k in v.found && SamePair(k, OwnerOf(r, objs[r])) ==> k.ns == r.ns
    ensures var left := TornDown(objs, allowed, Torn(ks, m, v, t), tears); r in left && left[r] == objs[r]
  {
    TornAmong(ks, m, v, t);
    var torn := Torn(ks, m, v, t);
    assert forall i | 0 <= i < |torn| :: torn[i] in torn;
    TakesOnlyPairs(objs, allowed, torn, tears, r);
  }

  // Teardowns whose lists are honest about what those before them left, and whose
  // deletions work.
  ghost predicate Working(objs: Objects, allowed: seq<string>, torn: seq<OrphanKey>, tears: OrphanKey -> TearWorld) {
    forall i :: 0 <= i < |torn| ==>
      && torn[i].workID != "" && torn[i].workload != ""
      && Honest(tears(torn[i]).list, TornDown(objs, allowed, torn[..i], tears))
      && forall d :: tears(torn[i]).delete(d) != Refused
  }

  /** Exactly: a sweep whose teardowns work takes an object if and only if it is one of
      ours, in an allowed namespace, and shares its work id and workload with some key
      torn down - tracked or not. */
  lemma {:induction false} SweepTakes(objs: Objects, allowed: seq<string>, torn: seq<OrphanKey>,
                                      tears: OrphanKey -> TearWorld, r: Ref)
    requires Working(objs, allowed, torn, tears) && r in objs
    ensures var left := TornDown(objs, allowed, torn, tears);
      if objs[r].managed && r.ns in allowed && Named(torn, OwnerOf(r, objs[r])) then r !in left
      else r in left && left[r] == objs[r]
  {
    if torn != [] {
      var init, k := torn[..|torn| - 1], torn[|torn| - 1];
      WorkingInit(objs, allowed, torn, tears);
      SweepTakes(objs, allowed, init, tears, r);
      NamedNext(init, k, OwnerOf(r, objs[r]));
      assert torn == init + [k];
      var mid := TornDown(objs, allowed, init, tears);
      if r in mid {
        TearDownReaches(mid, allowed, k, tears(k), r);
      }
    }
  }

  lemma WorkingInit(objs: Objects, allowed: seq<string>, torn: seq<OrphanKey>, tears: OrphanKey -> TearWorld)
    requires Working(objs, allowed, torn, tears) && torn != []
    ensures var init, k := torn[..|torn| - 1], torn[|torn| - 1];
      && Working(objs, allowed, init, tears) && k.workID != "" && k.workload != ""
      && Honest(tears(k).list, TornDown(objs, allowed, init, tears)) && forall d :: tears(k).delete(d) != Refused
  {
    var init := torn[..|torn| - 1];
    assert forall i | 0 <= i < |init| :: init[i] == torn[i] && init[..i] == torn[..i];
  }

  lemma NamedNext(init: seq<OrphanKey>, k: OrphanKey, o: OrphanKey)
    ensures Named(init + [k], o) <==> Named(init, o) || SamePair(k, o)
  {
    var torn := init + [k];
    assert torn[|init|] == k;
    assert forall i | 0 <= i < |init| :: torn[i] == init[i];
  }

  /** Without that, it need not: with honest lists and working deletions, one teardown
      takes an object if and only if it is one of ours, in an allowed namespace, with
      the orphan's work id and workload. */
  lemma TearDownReaches(objs: Objects, allowed: seq<string>, k: OrphanKey, w: TearWorld, r: Ref)
    requires k.workID != "" && k.workload != "" && Honest(w.list, objs) && forall d :: w.delete(d) != Refused
    requires r in objs
    ensures r !in Dropped(objs, allowed, SelectorOf(k), w.list, w.delete)
            <==> objs[r].managed && r.ns in allowed && SamePair(k, OwnerOf(r, objs[r]))
  {
    DropExact(objs, allowed, SelectorOf(k), w.list, w.delete);
  }

  // --- what the next sweep finds ----------------------------------------------------------------

  // An object of ours of this preview and this age.
  ghost predicate Aged(objs: Objects, k: OrphanKey, at: int) {
    exists r :: r in objs && objs[r].managed && OwnerOf(r, objs[r]) == k && objs[r].created == at
  }

  ghost predicate AgedKind(objs: Objects, kind: Kind, k: OrphanKey, at: int) {
    exists r :: r in objs && objs[r].managed && r.kind == kind && OwnerOf(r, objs[r]) == k && objs[r].created == at
  }

  lemma EitherKind(objs: Objects, k: OrphanKey, at: int)
    ensures Aged(objs, k, at) <==> AgedKind(objs, Deployment, k, at) || AgedKind(objs, Service, k, at)
  {
    if r :| r in objs && objs[r].managed && OwnerOf(r, objs[r]) == k && objs[r].created == at {
      assert r.kind == Deployment || r.kind == Service;
    }
  }

  /** Against honest lists a sweep sights exactly the objects of ours that name their
      preview, in the allowed namespaces, each at its age. */
  lemma {:induction false} FindsExactly(objs: Objects, allowed: seq<string>, list: Lister, k: OrphanKey, at: int)
    requires Honest(list, objs)
    ensures (k, at) in Evidence(allowed, list)
            <==> k.ns in allowed && k.workID != "" && k.workload != "" && Aged(objs, k, at)
  {
    if allowed != [] {
      var init, ns := allowed[..|allowed| - 1], allowed[|allowed| - 1];
      FindsExactly(objs, init, list, k, at);
      assert allowed == init + [ns];
      ListFinds(objs, ns, Deployment, list, k, at);
      ListFinds(objs, ns, Service, list, k, at);
      EitherKind(objs, k, at);
    }
  }

  lemma ListFinds(objs: Objects, ns: string, kind: Kind, list: Lister, k: OrphanKey, at: int)
    requires Honest(list, objs)
    ensures (k, at) in Sighted(ns, list(ns, kind, OURS))
            <==> k.ns == ns && k.workID != "" && k.workload != "" && AgedKind(objs, kind, k, at)
  {
    var items := list(ns, kind, OURS).items;
    SightingsMean(ns, items, k, at);
    if (k, at) in Sightings(ns, items) {
      var item :| item in items && Nameable(item.meta) && KeyFor(ns, item.meta) == k && item.meta.created == at;
      assert Item(item.name, item.meta) in items;
      assert OwnerOf(Ref(ns, kind, item.name), item.meta) == k;
    }
    if r :| r in objs && objs[r].managed && r.kind == kind && OwnerOf(r, objs[r]) == k && objs[r].created == at {
      if k.ns == ns {
        assert Item(r.name, objs[r]) in items;
      }
    }
  }

  lemma {:induction false} SightingsMean(ns: string, items: seq<Item>, k: OrphanKey, at: int)
    ensures (k, at) in Sightings(ns, items)
            <==> exists item :: item in items && Nameable(item.meta)
                                && KeyFor(ns, item.meta) == k && item.meta.created == at
  {
    if items != [] {
      SightingsMean(ns, items[1..], k, at);
      assert items == [items[0]] + items[1..];
    }
  }

  /** A teardown against honest lists whose deletions work confirms on the first honest
      pass, and leaves nothing of its key to be found again. */
  lemma TearDownClears(objs: Objects, allowed: seq<string>, k: OrphanKey, w: TearWorld, next: Lister)
    requires k.workID != "" && k.workload != "" && k.ns in allowed
    requires Honest(w.list, objs) && forall d :: w.delete(d) != Refused
    requires var left := Dropped(objs, allowed, SelectorOf(k), w.list, w.delete);
      Honest(w.polls.answers(0), left) && Honest(next, left)
    ensures Confirmed([k.ns], SelectorOf(k), w.polls) == Verdict(true, 1)
    ensures forall at :: (k, at) !in Evidence(allowed, next)
  {
    var left := Dropped(objs, allowed, SelectorOf(k), w.list, w.delete);
    DropExact(objs, allowed, SelectorOf(k), w.list, w.delete);
    CleanMeans([k.ns], SelectorOf(k), w.polls.answers(0), left);
    forall at ensures (k, at) !in Evidence(allowed, next) {
      FindsExactly(left, allowed, next, k, at);
    }
  }
}
