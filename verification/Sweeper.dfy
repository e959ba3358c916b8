/** One orphan sweep, and what it remembers for the next: which orphans it has
    sighted, and when a teardown it could not confirm may be tried again. */
module Sweeper {
  import opened Cluster
  import opened Confirm
  import opened OrphanSweep

  datatype Memory = Memory(seen: set<OrphanKey>, nextTry: map<OrphanKey, int>)

  datatype Terms = Terms(lifetime: int, recheck: int)

  // What a sweep goes by: the ages it found, the registry's answer for each key when
  // it is asked, and the instant the sweep began.
  datatype Sight = Sight(found: Ages, tracked: OrphanKey -> bool, now: int)

  // At most this many teardowns a sweep.
  const BUDGET := 5

  predicate Orphan(v: Sight, t: Terms, k: OrphanKey) {
    k in v.found && !v.tracked(k) && v.found[k] != 0 && v.now - v.found[k] >= t.lifetime
  }

  predicate HeldOff(m: Memory, now: int, k: OrphanKey) { k in m.nextTry && now < m.nextTry[k] }

  predicate Ready(m: Memory, v: Sight, t: Terms, k: OrphanKey) {
    Orphan(v, t, k) && k in m.seen && !HeldOff(m, v.now, k)
  }

  function ReadyKeys(ks: seq<OrphanKey>, m: Memory, v: Sight, t: Terms): seq<OrphanKey> {
    if ks == [] then []
    else ReadyKeys(ks[..|ks| - 1], m, v, t) + if Ready(m, v, t, ks[|ks| - 1]) then [ks[|ks| - 1]] else []
  }

  function Torn(ks: seq<OrphanKey>, m: Memory, v: Sight, t: Terms): seq<OrphanKey> {
    var ready := ReadyKeys(ks, m, v, t);
    if |ready| <= BUDGET then ready else ready[..BUDGET]
  }

  function Orphans(ks: seq<OrphanKey>, v: Sight, t: Terms): set<OrphanKey> { set k | k in ks && Orphan(v, t, k) }

  // The hold-offs once these have been torn down.
  function Tried(nextTry: map<OrphanKey, int>, torn: seq<OrphanKey>, confirmed: OrphanKey -> bool, until: int)
    : map<OrphanKey, int>
  {
    map k | k in nextTry.Keys + (set x | x in torn) && !(k in torn && confirmed(k)) ::
      if k in torn then until else nextTry[k]
  }

  function Remembered(ks: seq<OrphanKey>, m: Memory, v: Sight, t: Terms, confirmed: OrphanKey -> bool): Memory {
    var seen := Orphans(ks, v, t);
    Memory(seen, StillSighted(Tried(m.nextTry, Torn(ks, m, v, t), confirmed, v.now + t.recheck), seen))
  }

  // A key that lost its sighting loses its hold-off with it.
  function StillSighted(nextTry: map<OrphanKey, int>, seen: set<OrphanKey>): map<OrphanKey, int> {
    map k | k in nextTry && k in seen :: nextTry[k]
  }

  // What one teardown meets.
  datatype TearWorld = TearWorld(list: Lister, delete: Deleter, polls: Polls)

  function SelectorOf(k: OrphanKey): Selector { Selector(k.workID, k.workload) }

  function Confirms(tears: OrphanKey -> TearWorld): OrphanKey -> bool {
    (k: OrphanKey) => Confirmed([k.ns], SelectorOf(k), tears(k).polls).gone
  }

  function TornDown(objs: Objects, allowed: seq<string>, torn: seq<OrphanKey>, tears: OrphanKey -> TearWorld): Objects {
    if torn == [] then objs
    else
      var k := torn[|torn| - 1];
      Dropped(TornDown(objs, allowed, torn[..|torn| - 1], tears), allowed, SelectorOf(k), tears(k).list,
          tears(k).delete)
  }

  class Sweeper {
    const cluster: Cluster
    const allowed: seq<string>
    const t: Terms
    var seen: set<OrphanKey>
    var nextTry: map<OrphanKey, int>

    constructor (cluster: Cluster, allowed: seq<string>, t: Terms)
      ensures this.cluster == cluster && this.allowed == allowed && this.t == t
      ensures Recalled() == Memory({}, map[])
    {
      this.cluster, this.allowed, this.t := cluster, allowed, t;
      seen, nextTry := {}, map[];
    }

    function Recalled(): Memory
      reads this
    {
      Memory(seen, nextTry)
    }

    method Find(list: Lister) returns (found: Ages)
      ensures Dated(found, Evidence(allowed, list))
    {
      found := map[];
      for i := 0 to |allowed|
        invariant Dated(found, Evidence(allowed[..i], list))
      {
        var ns := allowed[i];
        assert allowed[..i + 1][..i] == allowed[..i];
        ghost var before := Evidence(allowed[..i], list);
        found := Note(found, ns, list(ns, Deployment, OURS), before);
        found := Note(found, ns, list(ns, Service, OURS), before + Sighted(ns, list(ns, Deployment, OURS)));
      }
      assert allowed[..|allowed|] == allowed;
    }

    method TearDown(k: OrphanKey, w: TearWorld) returns (confirmed: bool)
      modifies cluster
      ensures cluster.objs == Dropped(old(cluster.objs), allowed, SelectorOf(k), w.list, w.delete)
      ensures confirmed == Confirmed([k.ns], SelectorOf(k), w.polls).gone
    {
      var deleted, trouble := cluster.DropWorkload(allowed, k.workID, k.workload, w.list, w.delete);
      var remaining, problems, passes := ConfirmGone([k.ns], SelectorOf(k), w.polls);
      return remaining == [] && problems == [];
    }

    // One key of the walk: skipped, sighted, or torn down.
    method Visit(k: OrphanKey, v: Sight, sighted: set<OrphanKey>, torn: seq<OrphanKey>, w: TearWorld)
      returns (sighted': set<OrphanKey>, torn': seq<OrphanKey>)
      requires k in v.found
      modifies this`nextTry, cluster
      ensures Progress(sighted', nextTry, torn')
           == Visited(Progress(sighted, old(nextTry), torn), seen, v, t,
                      Confirmed([k.ns], SelectorOf(k), w.polls).gone, k)
      ensures cluster.objs == if torn' == torn then old(cluster.objs)
              else Dropped(old(cluster.objs), allowed, SelectorOf(k), w.list, w.delete)
    {
      if v.tracked(k) || v.found[k] == 0 || v.now - v.found[k] < t.lifetime {
        return sighted, torn;
      }
      if k !in seen {
        return sighted + {k}, torn;
      }
      if k in nextTry && v.now < nextTry[k] {
        return sighted + {k}, torn;
      }
      if |torn| >= BUDGET {
        return sighted + {k}, torn;
      }
      var confirmed := TearDown(k, w);
      if !confirmed {
        nextTry := nextTry[k := v.now + t.recheck];
        return sighted + {k}, torn + [k];
      }
      nextTry := nextTry - {k};
      return sighted + {k}, torn + [k];
    }

    /** The sweep. */
    method SweepOrphans(list: Lister, tracked: OrphanKey -> bool, now: int, tears: OrphanKey -> TearWorld)
      returns (found: Ages, ks: seq<OrphanKey>, torn: seq<OrphanKey>)
      modifies this`seen, this`nextTry, cluster
      ensures Dated(found, Evidence(allowed, list)) && InOrder(ks, found)
      ensures torn == Torn(ks, old(Recalled()), Sight(found, tracked, now), t)
      ensures Recalled() == Remembered(ks, old(Recalled()), Sight(found, tracked, now), t, Confirms(tears))
      ensures cluster.objs == TornDown(old(cluster.objs), allowed, torn, tears)
    {
      found := Find(list);
      ks := KeysInOrder(found);
      torn := WorkThrough(ks, Sight(found, tracked, now), tears);
    }

    method WorkThrough(ks: seq<OrphanKey>, v: Sight, tears: OrphanKey -> TearWorld) returns (torn: seq<OrphanKey>)
      requires Distinct(ks) && forall k :: k in ks ==> k in v.found
      modifies this`seen, this`nextTry, cluster
      ensures torn == Torn(ks, old(Recalled()), v, t)
      ensures Recalled() == Remembered(ks, old(Recalled()), v, t, Confirms(tears))
      ensures cluster.objs == TornDown(old(cluster.objs), allowed, torn, tears)
    {
      var sighted;
      sighted, torn := Walk(ks, v, tears);
      WalkEnds(ks, old(Recalled()), v, t, Confirms(tears), Progress(sighted, nextTry, torn));
      seen := sighted;
      nextTry := StillSighted(nextTry, sighted);
    }

    method Walk(ks: seq<OrphanKey>, v: Sight, tears: OrphanKey -> TearWorld)
      returns (sighted: set<OrphanKey>, torn: seq<OrphanKey>)
      requires forall k :: k in ks ==> k in v.found
      modifies this`nextTry, cluster
      ensures Progress(sighted, nextTry, torn) == Walked(ks, old(Recalled()), v, t, Confirms(tears))
      ensures cluster.objs == TornDown(old(cluster.objs), allowed, torn, tears)
    {
      sighted, torn := {}, [];
      for i := 0 to |ks|
        invariant Progress(sighted, nextTry, torn) == Walked(ks[..i], old(Recalled()), v, t, Confirms(tears))
        invariant cluster.objs == TornDown(old(cluster.objs), allowed, torn, tears)
      {
        WalkedNext(ks, i, old(Recalled()), v, t, Confirms(tears));
        TornDownMore(torn, ks[i]);
        sighted, torn := Visit(ks[i], v, sighted, torn, tears(ks[i]));
      }
      assert ks[..|ks|] == ks;
    }
  }

  lemma TornDownMore(torn: seq<OrphanKey>, k: OrphanKey)
    ensures (torn + [k])[..|torn|] == torn && torn + [k] != torn
  {
  }

  lemma WalkedNext(ks: seq<OrphanKey>, i: nat, m: Memory, v: Sight, t: Terms, confirmed: OrphanKey -> bool)
    requires i < |ks|
    ensures ks[i] in ks
    ensures Walked(ks[..i + 1], m, v, t, confirmed)
         == Visited(Walked(ks[..i], m, v, t, confirmed), m.seen, v, t, confirmed(ks[i]), ks[i])
  {
    assert ks[..i + 1][..i] == ks[..i];
  }

  ghost predicate Distinct(ks: seq<OrphanKey>) { forall i, j :: 0 <= i < j < |ks| ==> ks[i] != ks[j] }

  // --- the walk, key by key ---------------------------------------------------------------------

  datatype Progress = Progress(sighted: set<OrphanKey>, nextTry: map<OrphanKey, int>, torn: seq<OrphanKey>)

  function Visited(p: Progress, seen: set<OrphanKey>, v: Sight, t: Terms, confirmed: bool, k: OrphanKey): Progress {
    if !Orphan(v, t, k) then p
    else
      var q := p.(sighted := p.sighted + {k});
      if k !in seen || (k in p.nextTry && v.now < p.nextTry[k]) || |p.torn| >= BUDGET then q
      else q.(torn := p.torn + [k],
              nextTry := if confirmed then p.nextTry - {k} else p.nextTry[k := v.now + t.recheck])
  }

  function Walked(ks: seq<OrphanKey>, m: Memory, v: Sight, t: Terms, confirmed: OrphanKey -> bool): Progress {
    if ks == [] then Progress({}, m.nextTry, [])
    else Visited(Walked(ks[..|ks| - 1], m, v, t, confirmed), m.seen, v, t, confirmed(ks[|ks| - 1]), ks[|ks| - 1])
  }

  // Where a walk over these keys stands.
  function Standing(ks: seq<OrphanKey>, m: Memory, v: Sight, t: Terms, confirmed: OrphanKey -> bool): Progress {
    Progress(Orphans(ks, v, t), Tried(m.nextTry, Torn(ks, m, v, t), confirmed, v.now + t.recheck), Torn(ks, m, v, t))
  }

  lemma StandingNext(init: seq<OrphanKey>, k: OrphanKey, m: Memory, v: Sight, t: Terms, confirmed: OrphanKey -> bool)
    requires k !in init
    ensures Visited(Standing(init, m, v, t, confirmed), m.seen, v, t, confirmed(k), k)
            == Standing(init + [k], m, v, t, confirmed)
  {
    var torn, until := Torn(init, m, v, t), v.now + t.recheck;
    var tried, next := Tried(m.nextTry, torn, confirmed, until), Standing(init + [k], m, v, t, confirmed);
    var goes := Ready(m, v, t, k) && |torn| < BUDGET;
    NotTorn(init, k, m, v, t);
    TriedNext(m.nextTry, torn, confirmed, until, k);
    assert next.torn == if goes then torn + [k] else torn by {
      TornNext(init, k, m, v, t);
    }
    assert next.sighted == Orphans(init, v, t) + if Orphan(v, t, k) then {k} else {} by {
      OrphansNext(init, k, v, t);
    }
    assert next.nextTry == if !goes then tried else if confirmed(k) then tried - {k} else tried[k := until];
    VisitedIs(Orphans(init, v, t), torn, k, m, v, t, confirmed, tried);
  }

  // One visit, when the key's hold-off has not been touched.
  lemma VisitedIs(sighted: set<OrphanKey>, torn: seq<OrphanKey>, k: OrphanKey, m: Memory, v: Sight, t: Terms,
                  confirmed: OrphanKey -> bool, tried: map<OrphanKey, int>)
    requires (k in tried <==> k in m.nextTry) && (k in tried ==> tried[k] == m.nextTry[k])
    ensures var goes := Ready(m, v, t, k) && |torn| < BUDGET;
      Visited(Progress(sighted, tried, torn), m.seen, v, t, confirmed(k), k)
      == Progress(sighted + (if Orphan(v, t, k) then {k} else {}),
                  if !goes then tried else if confirmed(k) then tried - {k} else tried[k := v.now + t.recheck],
                  if goes then torn + [k] else torn)
  {
  }

  // Walking distinct keys tears down the first few that are ready.
  lemma {:induction false} WalkedIs(ks: seq<OrphanKey>, m: Memory, v: Sight, t: Terms, confirmed: OrphanKey -> bool)
    requires Distinct(ks)
    ensures Walked(ks, m, v, t, confirmed) == Standing(ks, m, v, t, confirmed)
  {
    if ks == [] {
      assert Orphans(ks, v, t) == {};
      assert Tried(m.nextTry, [], confirmed, v.now + t.recheck) == m.nextTry;
    } else {
      var init, k := ks[..|ks| - 1], ks[|ks| - 1];
      InitDistinct(ks);
      WalkedIs(init, m, v, t, confirmed);
      StandingNext(init, k, m, v, t, confirmed);
      assert ks == init + [k];
    }
  }

  lemma WalkEnds(ks: seq<OrphanKey>, m: Memory, v: Sight, t: Terms, confirmed: OrphanKey -> bool, p: Progress)
    requires Distinct(ks) && p == Walked(ks, m, v, t, confirmed)
    ensures p.torn == Torn(ks, m, v, t)
    ensures Memory(p.sighted, StillSighted(p.nextTry, p.sighted)) == Remembered(ks, m, v, t, confirmed)
  {
    WalkedIs(ks, m, v, t, confirmed);
  }

  lemma InitDistinct(ks: seq<OrphanKey>)
    requires Distinct(ks) && ks != []
    ensures Distinct(ks[..|ks| - 1]) && ks[|ks| - 1] !in ks[..|ks| - 1]
  {
  }

  lemma OrphansNext(init: seq<OrphanKey>, k: OrphanKey, v: Sight, t: Terms)
    ensures Orphans(init + [k], v, t) == Orphans(init, v, t) + if Orphan(v, t, k) then {k} else {}
  {
  }

  lemma NotTorn(init: seq<OrphanKey>, k: OrphanKey, m: Memory, v: Sight, t: Terms)
    requires k !in init
    ensures k !in Torn(init, m, v, t)
  {
    TornAmong(init, m, v, t);
  }

  lemma TornNext(init: seq<OrphanKey>, k: OrphanKey, m: Memory, v: Sight, t: Terms)
    ensures var torn := Torn(init, m, v, t);
      Torn(init + [k], m, v, t) == if Ready(m, v, t, k) && |torn| < BUDGET then torn + [k] else torn
  {
  }

  lemma TriedNext(nextTry: map<OrphanKey, int>, torn: seq<OrphanKey>, confirmed: OrphanKey -> bool, until: int,
                  k: OrphanKey)
    requires k !in torn
    ensures var tried := Tried(nextTry, torn, confirmed, until);
      && (k in tried <==> k in nextTry) && (k in tried ==> tried[k] == nextTry[k])
      && Tried(nextTry, torn + [k], confirmed, until) == if confirmed(k) then tried - {k} else tried[k := until]
  {
  }

  lemma {:induction false} ReadyAmong(ks: seq<OrphanKey>, m: Memory, v: Sight, t: Terms)
    ensures forall k :: k in ReadyKeys(ks, m, v, t) <==> k in ks && Ready(m, v, t, k)
  {
    if ks != [] {
      var init := ks[..|ks| - 1];
      ReadyAmong(init, m, v, t);
      assert ks == init + [ks[|ks| - 1]];
    }
  }

  // What is torn down was ready; and within the budget all that was ready.
  lemma TornAmong(ks: seq<OrphanKey>, m: Memory, v: Sight, t: Terms)
    ensures forall k :: k in Torn(ks, m, v, t) ==> k in ks && Ready(m, v, t, k)
    ensures |Torn(ks, m, v, t)| < BUDGET ==> forall k :: k in ks && Ready(m, v, t, k) ==> k in Torn(ks, m, v, t)
  {
    ReadyAmong(ks, m, v, t);
    var ready := ReadyKeys(ks, m, v, t);
    if |ready| > BUDGET {
      assert forall k | k in ready[..BUDGET] :: k in ready;
    }
  }
}
