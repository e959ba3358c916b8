/** The orphan sweep: preview objects the registry knows nothing about are removed on
    their second sighting, oldest first, a few at a time. */
module OrphanSweep {
  import opened Cluster
  import opened Confirm
  import Text

  datatype OrphanKey = OrphanKey(ns: string, workID: string, workload: string)

  // The creation time of each preview's oldest object.
  type Ages = map<OrphanKey, int>

  function KeyFor(ns: string, m: Meta): OrphanKey { OrphanKey(ns, m.workID, m.workload) }

  // --- what a sweep finds ----------------------------------------------------------------------

  // Without the labels a teardown selects on, nothing can name an object safely.
  predicate Nameable(m: Meta) { m.workID != "" && m.workload != "" }

  function Sightings(ns: string, items: seq<Item>): seq<(OrphanKey, int)> {
    if items == [] then []
    else (if Nameable(items[0].meta) then [(KeyFor(ns, items[0].meta), items[0].meta.created)] else [])
         + Sightings(ns, items[1..])
  }

  // A list that failed has sighted nothing.
  function Sighted(ns: string, l: Listing): seq<(OrphanKey, int)> { if l.Listed? then Sightings(ns, l.items) else [] }

  function Evidence(allowed: seq<string>, list: Lister): seq<(OrphanKey, int)> {
    if allowed == [] then []
    else Evidence(allowed[..|allowed| - 1], list)
         + Sighted(allowed[|allowed| - 1], list(allowed[|allowed| - 1], Deployment, OURS))
         + Sighted(allowed[|allowed| - 1], list(allowed[|allowed| - 1], Service, OURS))
  }

  // found has every key sighted, each with its oldest sighting.
  predicate Dated(found: Ages, sightings: seq<(OrphanKey, int)>) {
    && (forall i :: 0 <= i < |sightings| ==> sightings[i].0 in found && found[sightings[i].0] <= sightings[i].1)
    && (forall k :: k in found ==> (k, found[k]) in sightings)
  }

  method Note(found: Ages, ns: string, l: Listing, ghost before: seq<(OrphanKey, int)>) returns (out: Ages)
    requires Dated(found, before)
    ensures Dated(out, before + Sighted(ns, l))
  {
    out := found;
    if l.ListFailed? {
      assert before + Sighted(ns, l) == before;
      return;
    }
    assert l.items[..0] == [] && before + [] == before;
    for i := 0 to |l.items|
      invariant Dated(out, before + Sightings(ns, l.items[..i]))
    {
      var m := l.items[i].meta;
      SightingsMore(ns, l.items[..i], l.items[i]);
      assert l.items[..i + 1] == l.items[..i] + [l.items[i]];
      ghost var had := before + Sightings(ns, l.items[..i]);
      if Nameable(m) {
        var k := KeyFor(ns, m);
        assert before + Sightings(ns, l.items[..i + 1]) == had + [(k, m.created)];
        if k !in out || m.created < out[k] {
          out := out[k := m.created];
        }
      } else {
        assert before + Sightings(ns, l.items[..i + 1]) == had;
      }
    }
    assert l.items[..|l.items|] == l.items;
  }

  lemma {:induction false} SightingsMore(ns: string, items: seq<Item>, item: Item)
    ensures Sightings(ns, items + [item]) == Sightings(ns, items) + Sightings(ns, [item])
  {
    if items == [] {
      assert [] + [item] == [item];
    } else {
      assert (items + [item])[1..] == items[1..] + [item];
      SightingsMore(ns, items[1..], item);
    }
  }

  // --- oldest first -----------------------------------------------------------------------------

  function Render(k: OrphanKey): string { k.workload + "." + k.ns + " (work id " + k.workID + ")" }

  predicate Less(a: string, b: string) {
    b != [] && (a == [] || a[0] < b[0] || (a[0] == b[0] && Less(a[1..], b[1..])))
  }

  predicate Before(found: Ages, a: OrphanKey, b: OrphanKey)
    requires a in found && b in found
  {
    found[a] < found[b] || (found[a] == found[b] && Less(Render(a), Render(b)))
  }

  ghost predicate InOrder(ks: seq<OrphanKey>, found: Ages) {
    && (forall k :: k in ks <==> k in found)
    && (forall i, j :: 0 <= i < j < |ks| ==> ks[i] != ks[j] && !Before(found, ks[j], ks[i]))
  }

  lemma {:induction false} LessOrders(a: string, b: string, c: string)
    ensures !Less(a, a) && !(Less(a, b) && Less(b, a))
    ensures a != b ==> Less(a, b) || Less(b, a)
    ensures !Less(b, a) && !Less(c, b) ==> !Less(c, a)
  {
    if a != [] && b != [] && c != [] {
      LessOrders(a[1..], b[1..], c[1..]);
      assert a == [a[0]] + a[1..] && b == [b[0]] + b[1..];
    } else if a != [] && b != [] {
      LessOrders(a[1..], b[1..], c);
      assert a == [a[0]] + a[1..] && b == [b[0]] + b[1..];
    } else if a != [] {
      LessOrders(a[1..], b, c);
    }
  }

  // Where two strings part: one ends, or they go on with different characters.
  predicate PartAt(a: string, b: string, i: nat) {
    i <= |a| && i < |b| && a[..i] == b[..i] && (i == |a| || a[i] < b[i])
  }

  /** One string is less than another as a dictionary has them: it is a beginning of the
      other, or has the lesser character where they part. */
  lemma {:induction false} LessIs(a: string, b: string)
    ensures Less(a, b) <==> exists i: nat :: PartAt(a, b, i)
  {
    if a == [] {
      assert b != [] ==> PartAt(a, b, 0);
    } else if b != [] {
      LessIs(a[1..], b[1..]);
      if a[0] < b[0] {
        assert PartAt(a, b, 0);
      }
      if i: nat :| PartAt(a[1..], b[1..], i) && a[0] == b[0] {
        assert a[..i + 1] == [a[0]] + a[1..][..i] && b[..i + 1] == [b[0]] + b[1..][..i];
        assert PartAt(a, b, i + 1);
      }
      if i: nat :| PartAt(a, b, i) && i > 0 {
        assert a[..i][0] == a[0] && b[..i][0] == b[0];
        assert a[1..][..i - 1] == a[..i][1..] && b[1..][..i - 1] == b[..i][1..];
        assert PartAt(a[1..], b[1..], i - 1);
      }
    }
  }

  lemma BeforeOrders(found: Ages, a: OrphanKey, b: OrphanKey, c: OrphanKey)
    requires a in found && b in found && c in found
    ensures !(Before(found, a, b) && Before(found, b, a))
    ensures Render(a) != Render(b) ==> Before(found, a, b) || Before(found, b, a)
    ensures !Before(found, b, a) && !Before(found, c, b) ==> !Before(found, c, a)
  {
    LessOrders(Render(a), Render(b), Render(c));
  }

  method KeysInOrder(found: Ages) returns (ks: seq<OrphanKey>)
    ensures InOrder(ks, found)
  {
    ks := [];
    var rest := found.Keys;
    while rest != {}
      invariant rest <= found.Keys
      invariant InOrder(ks, map k | k in found && k !in rest :: found[k])
    {
      var k :| k in rest;
      rest := rest - {k};
      ks := Insert(ks, k, found, map j | j in found && j !in rest && j != k :: found[j]);
    }
  }

  // The key goes before the first one that has to come after it.
  method Insert(ks: seq<OrphanKey>, k: OrphanKey, found: Ages, ghost had: Ages) returns (out: seq<OrphanKey>)
    requires k in found && k !in had && InOrder(ks, had)
    requires forall j :: j in had ==> j in found && found[j] == had[j]
    ensures InOrder(out, had[k := found[k]])
  {
    var i := 0;
    while i < |ks| && !Before(found, k, ks[i])
      invariant i <= |ks|
      invariant forall j :: 0 <= j < i ==> !Before(found, k, ks[j])
    {
      i := i + 1;
    }
    out := ks[..i] + [k] + ks[i..];
    InsertInOrder(ks, k, i, had, had[k := found[k]]);
  }

  lemma InsertInOrder(ks: seq<OrphanKey>, k: OrphanKey, i: nat, had: Ages, now: Ages)
    requires k !in had && InOrder(ks, had) && k in now && now == had[k := now[k]] && i <= |ks|
    requires forall j :: 0 <= j < i ==> !Before(now, k, ks[j])
    requires i < |ks| ==> Before(now, k, ks[i])
    ensures InOrder(ks[..i] + [k] + ks[i..], now)
  {
    var out := ks[..i] + [k] + ks[i..];
    InsertedMembers(ks, k, i);
    forall p, q | 0 <= p < q < |out| ensures out[p] != out[q] && !Before(now, out[q], out[p]) {
      InsertedPair(ks, k, i, had, now, p, q);
    }
  }

  lemma InsertedMembers(ks: seq<OrphanKey>, k: OrphanKey, i: nat)
    requires i <= |ks|
    ensures forall x :: x in ks[..i] + [k] + ks[i..] <==> x in ks || x == k
  {
    assert ks == ks[..i] + ks[i..];
  }

  lemma InsertedPair(ks: seq<OrphanKey>, k: OrphanKey, i: nat, had: Ages, now: Ages, p: nat, q: nat)
    requires k !in had && InOrder(ks, had) && k in now && now == had[k := now[k]] && i <= |ks|
    requires forall j :: 0 <= j < i ==> !Before(now, k, ks[j])
    requires i < |ks| ==> Before(now, k, ks[i])
    requires p < q <= |ks|
    ensures var out := ks[..i] + [k] + ks[i..];
      out[p] != out[q] && out[p] in now && out[q] in now && !Before(now, out[q], out[p])
  {
    var out := ks[..i] + [k] + ks[i..];
    if p == i {
      assert out[p] == k && out[q] == ks[q - 1] && ks[q - 1] in ks;
      assert ks[i] in ks && ks[i] in had;
      BeforeOrders(now, k, ks[i], ks[q - 1]);
    } else if q == i {
      assert out[p] == ks[p] && out[q] == k && ks[p] in ks;
    } else {
      var x, y := if p < i then p else p - 1, if q < i then q else q - 1;
      assert out[p] == ks[x] && out[q] == ks[y] && ks[x] in ks && ks[y] in ks;
    }
  }

  /** The order does not depend on how the map was walked, wherever keys are told
      apart by what is shown of them. */
  lemma {:induction false} OrderUnique(a: seq<OrphanKey>, b: seq<OrphanKey>, found: Ages)
    requires InOrder(a, found) && InOrder(b, found)
    requires forall j, k :: j in found && k in found && Render(j) == Render(k) ==> j == k
    ensures a == b
    decreases |a|
  {
    NoneInOrder(a, found);
    NoneInOrder(b, found);
    if a != [] {
      SameFirst(a, b, found);
      OrderTail(a, found);
      OrderTail(b, found);
      OrderUnique(a[1..], b[1..], found - {a[0]});
      Glued(a, b);
    }
  }

  lemma Glued(a: seq<OrphanKey>, b: seq<OrphanKey>)
    requires a != [] && b != [] && a[0] == b[0] && a[1..] == b[1..]
    ensures a == b
  {
  }

  lemma NoneInOrder(a: seq<OrphanKey>, found: Ages)
    requires InOrder(a, found)
    ensures a == [] <==> found == map[]
  {
    if a != [] {
      assert a[0] in a;
    }
    if found != map[] {
      var k :| k in found;
    }
  }

  lemma SameFirst(a: seq<OrphanKey>, b: seq<OrphanKey>, found: Ages)
    requires InOrder(a, found) && InOrder(b, found) && a != [] && b != []
    requires forall j, k :: j in found && k in found && Render(j) == Render(k) ==> j == k
    ensures a[0] == b[0]
  {
    assert a[0] in a && b[0] in b;
    var i :| 0 <= i < |b| && b[i] == a[0];
    var j :| 0 <= j < |a| && a[j] == b[0];
    BeforeOrders(found, a[0], b[0], a[0]);
  }

  lemma OrderTail(a: seq<OrphanKey>, found: Ages)
    requires a != [] && InOrder(a, found)
    ensures InOrder(a[1..], found - {a[0]})
  {
  }

  // --- what is shown of a key --------------------------------------------------------------------

  // As the cluster has them: a label value has no space in it, and a namespace no dot
  // either.
  predicate Plain(k: OrphanKey) {
    ' ' !in k.workload && ' ' !in k.ns && '.' !in k.ns
  }

  lemma FirstSpace(a: string, x: string, b: string, y: string)
    requires ' ' !in a && ' ' !in b && a + [' '] + x == b + [' '] + y
    ensures a == b && x == y
  {
    var s := a + [' '] + x;
    assert s[|a|] == ' ' && s[|b|] == ' ';
    assert forall i | 0 <= i < |a| :: s[i] == a[i];
    assert forall i | 0 <= i < |b| :: s[i] == b[i];
    assert a == s[..|a|] && b == s[..|b|];
    assert x == s[|a| + 1..] && y == s[|b| + 1..];
  }

  /** Plain keys are told apart by what is shown of them. */
  lemma RenderInjective(j: OrphanKey, k: OrphanKey)
    requires Plain(j) && Plain(k) && Render(j) == Render(k)
    ensures j == k
  {
    var a, b := j.workload + "." + j.ns, k.workload + "." + k.ns;
    var x, y := "(work id " + j.workID + ")", "(work id " + k.workID + ")";
    assert Render(j) == a + [' '] + x && Render(k) == b + [' '] + y;
    FirstSpace(a, x, b, y);
    Text.LastDot(j.workload, j.ns, k.workload, k.ns);
    assert j.workID == x[9..|x| - 1] && k.workID == y[9..|y| - 1];
  }

  /** So whatever a cluster can have is worked through in one order only. */
  lemma OneOrder(a: seq<OrphanKey>, b: seq<OrphanKey>, found: Ages)
    requires InOrder(a, found) && InOrder(b, found) && forall k :: k in found ==> Plain(k)
    ensures a == b
  {
    forall j, k | j in found && k in found && Render(j) == Render(k) ensures j == k {
      RenderInjective(j, k);
    }
    OrderUnique(a, b, found);
  }
}
