/** The Kubernetes objects as the server sees them, and the deletion of one preview's
    objects: list by selector, check each name's owner again, delete by name. */
module Cluster {

  datatype Kind = Deployment | Service

  datatype Ref = Ref(ns: string, kind: Kind, name: string)

  // What the server reads off an object. A label that is not there is "", and created
  // is 0 when there is no creation time.
  datatype Meta = Meta(managed: bool, workID: string, workload: string, created: int)

  type Objects = map<Ref, Meta>

  // Everything of ours, narrowed to a work id and a workload unless these are "".
  datatype Selector = Selector(workID: string, workload: string)

  const OURS := Selector("", "")

  predicate Matches(m: Meta, sel: Selector) {
    m.managed && (sel.workID == "" || m.workID == sel.workID) && (sel.workload == "" || m.workload == sel.workload)
  }

  // --- the API's answers ---------------------------------------------------------------------

  datatype Item = Item(name: string, meta: Meta)

  datatype Listing = ListFailed | Listed(items: seq<Item>)

  type Lister = (string, Kind, Selector) -> Listing

  // How one deletion ends; a failed one may have taken effect.
  datatype Deletion = Deleted | Refused | DeletedUnheard

  type Deleter = Ref -> Deletion

  // A lister that answers for these objects: all that match, and nothing else.
  ghost predicate Honest(list: Lister, objs: Objects) {
    forall ns, kind, sel ::
      && list(ns, kind, sel).Listed?
      && forall name, meta :: Item(name, meta) in list(ns, kind, sel).items <==>
                              Ref(ns, kind, name) in objs && objs[Ref(ns, kind, name)] == meta && Matches(meta, sel)
  }

  // A lister that may leave objects out, fail, or ignore the selector altogether, but
  // gives no object another's labels.
  ghost predicate Truthful(list: Lister, objs: Objects) {
    forall ns, kind, sel | list(ns, kind, sel).Listed? ::
      forall item :: item in list(ns, kind, sel).items && Ref(ns, kind, item.name) in objs ==>
                     objs[Ref(ns, kind, item.name)] == item.meta
  }

  // --- dropping a preview's objects ------------------------------------------------------------

  predicate Names(l: Listing, name: string, managed: bool) {
    l.Listed? && exists i :: 0 <= i < |l.items| && l.items[i].name == name && l.items[i].meta.managed == managed
  }

  // Which names a drop sends a deletion for.
  predicate Targeted(allowed: seq<string>, sel: Selector, list: Lister, r: Ref) {
    r.ns in allowed && Names(list(r.ns, r.kind, sel), r.name, true)
  }

  function Dropped(objs: Objects, allowed: seq<string>, sel: Selector, list: Lister, delete: Deleter): Objects {
    map r | r in objs && !(Targeted(allowed, sel, list, r) && delete(r) != Refused) :: objs[r]
  }

  datatype Problem = CannotList(ns: string, kind: Kind) | NotOurs(r: Ref) | CannotDelete(d: Ref)

  predicate Troubles(allowed: seq<string>, sel: Selector, list: Lister, delete: Deleter, p: Problem) {
    match p
    case CannotList(ns, kind) => ns in allowed && list(ns, kind, sel).ListFailed?
    case NotOurs(r) => r.ns in allowed && Names(list(r.ns, r.kind, sel), r.name, false)
    case CannotDelete(r) => Targeted(allowed, sel, list, r) && delete(r) != Deleted
  }

  class Cluster {
    var objs: Objects

    constructor (objs: Objects)
      ensures this.objs == objs
    {
      this.objs := objs;
    }

    method Delete(r: Ref, delete: Deleter) returns (ok: bool)
      modifies this
      ensures objs == if delete(r) == Refused then old(objs) else old(objs) - {r}
      ensures ok == (delete(r) == Deleted)
    {
      if delete(r) != Refused {
        objs := objs - {r};
      }
      return delete(r) == Deleted;
    }

    // One listed object, passed over unless its own labels say that it is ours.
    method DropItem(r: Ref, managed: bool, delete: Deleter) returns (removed: seq<Ref>, problems: seq<Problem>)
      modifies this
      ensures objs == if managed && delete(r) != Refused then old(objs) - {r} else old(objs)
      ensures removed == if managed && delete(r) == Deleted then [r] else []
      ensures problems == if !managed then [NotOurs(r)] else if delete(r) != Deleted then [CannotDelete(r)] else []
    {
      if !managed {
        return [], [NotOurs(r)];
      }
      var ok := Delete(r, delete);
      if !ok {
        return [], [CannotDelete(r)];
      }
      return [r], [];
    }

    // One namespace's objects of one kind.
    method DropListed(ns: string, kind: Kind, sel: Selector, list: Lister, delete: Deleter)
      returns (removed: seq<Ref>, problems: seq<Problem>)
      modifies this
      ensures objs == map r | r in old(objs)
              && !(r.ns == ns && r.kind == kind && Targeted([ns], sel, list, r) && delete(r) != Refused)
                        :: old(objs)[r]
      ensures forall r :: r in removed <==>
                r.ns == ns && r.kind == kind && Targeted([ns], sel, list, r) && delete(r) == Deleted
      ensures forall p :: p in problems <==> KindOf(p) == (ns, kind) && Troubles([ns], sel, list, delete, p)
    {
      removed, problems := [], [];
      var l := list(ns, kind, sel);
      if l.ListFailed? {
        return [], [CannotList(ns, kind)];
      }
      for i := 0 to |l.items|
        invariant objs == map r | r in old(objs)
                  && !(OneOf(l.items[..i], true, ns, kind, r) && delete(r) != Refused) :: old(objs)[r]
        invariant forall r :: r in removed <==> OneOf(l.items[..i], true, ns, kind, r) && delete(r) == Deleted
        invariant forall p :: p in problems <==> ItemTroubles(l.items[..i], ns, kind, delete, p)
      {
        assert l.items[..i + 1] == l.items[..i] + [l.items[i]];
        OneMore(l.items[..i], l.items[i], ns, kind);
        var gone, problem := DropItem(Ref(ns, kind, l.items[i].name), l.items[i].meta.managed, delete);
        removed, problems := removed + gone, problems + problem;
      }
      assert l.items[..|l.items|] == l.items;
    }

    /** Deletes what the lists name as this work id's, across the allowed namespaces. */
    method DropWorkload(allowed: seq<string>, workID: string, workload: string, list: Lister, delete: Deleter)
      returns (removed: seq<Ref>, problems: seq<Problem>)
      modifies this
      ensures objs == Dropped(old(objs), allowed, Selector(workID, workload), list, delete)
      ensures forall r :: r in removed <==>
                Targeted(allowed, Selector(workID, workload), list, r) && delete(r) == Deleted
      ensures forall p :: p in problems <==> Troubles(allowed, Selector(workID, workload), list, delete, p)
    {
      removed, problems := [], [];
      var sel := Selector(workID, workload);
      for i := 0 to |allowed|
        invariant objs == Dropped(old(objs), allowed[..i], sel, list, delete)
        invariant forall r :: r in removed <==> Targeted(allowed[..i], sel, list, r) && delete(r) == Deleted
        invariant forall p :: p in problems <==> Troubles(allowed[..i], sel, list, delete, p)
      {
        assert allowed[..i + 1] == allowed[..i] + [allowed[i]];
        var deps, depProblems := DropListed(allowed[i], Deployment, sel, list, delete);
        var svcs, svcProblems := DropListed(allowed[i], Service, sel, list, delete);
        TroublesMore(allowed[..i], allowed[i], sel, list, delete);
        removed := removed + deps + svcs;
        problems := problems + depProblems + svcProblems;
      }
      assert allowed[..|allowed|] == allowed;
    }
  }

  ghost predicate OneOf(items: seq<Item>, managed: bool, ns: string, kind: Kind, r: Ref) {
    r.ns == ns && r.kind == kind && Names(Listed(items), r.name, managed)
  }

  ghost predicate ItemTroubles(items: seq<Item>, ns: string, kind: Kind, delete: Deleter, p: Problem) {
    match p
    case CannotList(_, _) => false
    case NotOurs(r) => OneOf(items, false, ns, kind, r)
    case CannotDelete(r) => OneOf(items, true, ns, kind, r) && delete(r) != Deleted
  }

  lemma OneMore(items: seq<Item>, item: Item, ns: string, kind: Kind)
    ensures forall managed, r :: OneOf(items + [item], managed, ns, kind, r) <==>
              OneOf(items, managed, ns, kind, r) || (r == Ref(ns, kind, item.name) && managed == item.meta.managed)
  {
    forall managed, r | OneOf(items, managed, ns, kind, r) ensures OneOf(items + [item], managed, ns, kind, r) {
      var i :| 0 <= i < |items| && items[i].name == r.name && items[i].meta.managed == managed;
      assert (items + [item])[i] == items[i];
    }
    assert (items + [item])[|items|] == item;
  }

  function KindOf(p: Problem): (string, Kind) {
    match p
    case CannotList(ns, kind) => (ns, kind)
    case NotOurs(r) => (r.ns, r.kind)
    case CannotDelete(r) => (r.ns, r.kind)
  }

  lemma TroublesMore(a: seq<string>, ns: string, sel: Selector, list: Lister, delete: Deleter)
    ensures forall p :: Troubles(a + [ns], sel, list, delete, p) <==>
                        Troubles(a, sel, list, delete, p) || Troubles([ns], sel, list, delete, p)
    ensures forall p :: Troubles([ns], sel, list, delete, p) ==>
                        KindOf(p) == (ns, Deployment) || KindOf(p) == (ns, Service)
  {
    forall p | Troubles([ns], sel, list, delete, p)
      ensures KindOf(p) == (ns, Deployment) || KindOf(p) == (ns, Service)
    {
      assert KindOf(p).1 == Deployment || KindOf(p).1 == Service;
    }
  }

  // --- what a drop reports -----------------------------------------------------------------------

  // Every list was answered, and named nothing but our objects, whose deletions worked.
  ghost predicate WentWell(allowed: seq<string>, sel: Selector, list: Lister, delete: Deleter) {
    forall ns, kind | ns in allowed ::
      var l := list(ns, kind, sel);
      l.Listed? && forall item :: item in l.items ==> item.meta.managed && delete(Ref(ns, kind, item.name)) == Deleted
  }

  /** A drop reports no problem if and only if all of it went well. */
  lemma TroubleFree(allowed: seq<string>, sel: Selector, list: Lister, delete: Deleter)
    ensures WentWell(allowed, sel, list, delete) <==> forall p :: !Troubles(allowed, sel, list, delete, p)
  {
    if forall p :: !Troubles(allowed, sel, list, delete, p) {
      forall ns, kind | ns in allowed
        ensures var l := list(ns, kind, sel);
          l.Listed?
          && forall item :: item in l.items ==> item.meta.managed && delete(Ref(ns, kind, item.name)) == Deleted
      {
        assert !Troubles(allowed, sel, list, delete, CannotList(ns, kind));
        forall item | item in list(ns, kind, sel).items
          ensures item.meta.managed && delete(Ref(ns, kind, item.name)) == Deleted
        {
          assert !Troubles(allowed, sel, list, delete, NotOurs(Ref(ns, kind, item.name)));
          assert !Troubles(allowed, sel, list, delete, CannotDelete(Ref(ns, kind, item.name)));
        }
      }
    }
  }

  // --- what a drop touches -----------------------------------------------------------------------

  /** Nothing this tool did not create is ever deleted, even by a list that ignored
      the selector. */
  lemma DropsOnlyOurs(objs: Objects, allowed: seq<string>, sel: Selector, list: Lister, delete: Deleter, r: Ref)
    requires Truthful(list, objs) && r in objs && r !in Dropped(objs, allowed, sel, list, delete)
    ensures objs[r].managed && r.ns in allowed
  {
  }

  /** With honest lists and working deletions a drop takes exactly what the selector
      names, in every allowed namespace. */
  lemma DropExact(objs: Objects, allowed: seq<string>, sel: Selector, list: Lister, delete: Deleter)
    requires Honest(list, objs) && forall r :: delete(r) != Refused
    ensures Dropped(objs, allowed, sel, list, delete)
         == map r | r in objs && !(r.ns in allowed && Matches(objs[r], sel)) :: objs[r]
  {
  }

  /** Told by the labels: those of a work id, all of them or those of one workload. */
  lemma DropByLabels(objs: Objects, allowed: seq<string>, workID: string, workload: string, list: Lister,
                     delete: Deleter, r: Ref)
    requires Honest(list, objs) && (forall d :: delete(d) != Refused) && workID != "" && r in objs
    ensures r !in Dropped(objs, allowed, Selector(workID, workload), list, delete) <==>
            objs[r].managed && r.ns in allowed && objs[r].workID == workID
            && (workload == "" || objs[r].workload == workload)
  {
    DropExact(objs, allowed, Selector(workID, workload), list, delete);
  }
}
