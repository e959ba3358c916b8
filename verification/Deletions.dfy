/** What DELETE of one service reaches: it drops the work id and workload in every allowed
    namespace, whichever namespace was asked for. */
module Deletions {
  import opened Cluster
  import opened OrphanSweep
  import opened SweepEffects
  import opened Registry
  import opened Handlers
  import opened HandlerInvariant
  import opened RegistryRuns

  // Intercept names are made of the workload and the work id, and of nothing else.
  ghost predicate NamedBy(r: Table, nameOf: (string, string) -> string) {
    forall k :: k in r ==> r[k].name == nameOf(r[k].workload, r[k].workID)
  }

  // What each event may bring in is named so too.
  predicate Naming(s: Setting, ev: Event, nameOf: (string, string) -> string) {
    match ev
    case Post(e, w) => e.name == nameOf(e.workload, e.workID)
    case TickOf(sc, want, tw, now) => sc.interceptName == nameOf(sc.workload, sc.name)
    case _ => true
  }

  lemma StepNamed(sys: System, s: Setting, ev: Event, nameOf: (string, string) -> string)
    requires NamedBy(sys.r, nameOf) && Naming(s, ev, nameOf)
    ensures NamedBy(Exec(sys, s, ev).r, nameOf)
  {
    match ev
    case Post(e, w) => PostNamed(sys.r, e, s.cfg, w, nameOf);
    case TickOf(sc, want, tw, now) => TickNamed(sys.r, RegistryRuns.StateOf(sys, sc), sc, want, tw, now, nameOf);
    case _ =>
  }

  lemma PostNamed(r: Table, e: Entry, cfg: Config, w: AddWorld, nameOf: (string, string) -> string)
    requires NamedBy(r, nameOf) && e.name == nameOf(e.workload, e.workID)
    ensures NamedBy(AddHandled(r, e, cfg, w).0, nameOf)
  {
    var k := KeyOf(e);
    if k in r && SameTarget(r[k], e) && r[k].image != e.image {
      ExtendedNamed(Added(r, Carried(r[k], e), w.now), cfg, e.workID, w.now, nameOf);
    } else if !(k in r && SameTarget(r[k], e)) {
      ExtendedNamed(Noted(Added(r - {k}, e, w.now), e.name, w.status), cfg, e.workID, w.now, nameOf);
    }
  }

  lemma ExtendedNamed(r: Table, cfg: Config, workID: string, now: int, nameOf: (string, string) -> string)
    requires NamedBy(r, nameOf)
    ensures NamedBy(Extended(r, cfg, workID, now), nameOf)
  {
  }

  lemma OpenNamed(r: Table, st: IState, sc: Scheduled, session: bool, raised: bool, shown: Status, now: int,
                  nameOf: (string, string) -> string)
    requires NamedBy(r, nameOf) && sc.interceptName == nameOf(sc.workload, sc.name)
    ensures NamedBy(OpenedWindow(r, st, sc, session, raised, shown, now).0, nameOf)
  {
  }

  lemma TickNamed(r: Table, st: IState, sc: Scheduled, want: bool, w: TickWorld, now: int,
                  nameOf: (string, string) -> string)
    requires NamedBy(r, nameOf) && sc.interceptName == nameOf(sc.workload, sc.name)
    ensures NamedBy(Ticked(r, st, sc, want, w, now).0, nameOf)
  {
    var entered, key := EnteredWindow(st, want, now), ScheduleKey(sc);
    if want && key !in r {
      OpenNamed(r, entered, sc, w.session, w.raised, w.shown, now, nameOf);
    } else if want {
      var again := entered.(up := false, reRaises := entered.reRaises + 1);
      OpenNamed(r - {key}, again, sc, w.sessionNow, w.raised, w.shown, now, nameOf);
      if w.answer.Got? {
        OpenNamed(Noted(r, r[key].name, w.answer.shown) - {key}, again, sc, w.sessionNow, w.raised, w.shown, now,
            nameOf);
      }
    }
  }

  predicate SamePairKeys(j: ServiceKey, k: ServiceKey) { j.workID == k.workID && j.workload == k.workload }

  /** In every run a work id and a workload are registered in one namespace at most: a
      second one would have the first one's name. */
  lemma {:induction false} PairOnce(sys: System, s: Setting, evs: seq<Event>, nameOf: (string, string) -> string,
                                    j: ServiceKey, k: ServiceKey)
    requires Declared(s) && Good(sys, s) && PossibleRun(sys, s, evs) && NamedBy(sys.r, nameOf)
    requires forall i :: 0 <= i < |evs| ==> Naming(s, evs[i], nameOf)
    ensures var r := ExecAll(sys, s, evs).r; j in r && k in r && SamePairKeys(j, k) ==> j == k
    decreases |evs|
  {
    if evs == [] {
      if j in sys.r && k in sys.r && SamePairKeys(j, k) {
        assert KeyOf(sys.r[j]) == j && KeyOf(sys.r[k]) == k && sys.r[j].name == sys.r[k].name;
      }
    } else {
      StepGood(sys, s, evs[0]);
      StepNamed(sys, s, evs[0], nameOf);
      PairOnce(Exec(sys, s, evs[0]), s, evs[1..], nameOf, j, k);
    }
  }

  // What a DELETE of this service leaves of the cluster.
  function Remaining(objs: Objects, allowed: seq<string>, k: ServiceKey, list: Lister, delete: Deleter): Objects {
    Dropped(objs, allowed, Selector(k.workID, k.workload), list, delete)
  }

  /** With honest lists and working deletions, DELETE of one service takes another live
      preview's objects - and leaves it registered - if and only if that preview has the
      same work id and workload in an allowed namespace; and then the service asked for
      is not registered itself. */
  lemma RemovalReaches(r: Table, objs: Objects, cfg: Config, allowed: seq<string>, k: ServiceKey, j: ServiceKey,
                       ref: Ref, list: Lister, delete: Deleter, nameOf: (string, string) -> string)
    requires Keyed(r) && NamesUnique(r) && NamedBy(r, nameOf)
    requires k.workID !in cfg.reserved && k.workID != "" && k.workload != "" && j in r && j != k
    requires Honest(list, objs) && forall d :: delete(d) != Refused
    requires ref in objs && objs[ref].managed && OwnerOf(ref, objs[ref]) == OrphanKey(j.ns, j.workID, j.workload)
    ensures j in RemoveServiceHandled(r, cfg, k)
    ensures ref !in Remaining(objs, allowed, k, list, delete) <==> j.ns in allowed && SamePairKeys(j, k)
    ensures ref !in Remaining(objs, allowed, k, list, delete) ==> k !in r
  {
    DropExact(objs, allowed, Selector(k.workID, k.workload), list, delete);
    assert k in r ==> KeyOf(r[j]) == j && KeyOf(r[k]) == k;
  }

  /** A DELETE reports as deleted exactly the objects of its work id, or of its work id and
      workload, in the allowed namespaces, whose deletion was heard to have worked. */
  lemma ReportedAre(objs: Objects, allowed: seq<string>, workID: string, workload: string, list: Lister,
                    delete: Deleter, ref: Ref)
    requires Honest(list, objs) && workID != ""
    ensures Reported(allowed, Selector(workID, workload), list, delete, ref) <==>
            && ref in objs && objs[ref].managed && ref.ns in allowed && objs[ref].workID == workID
            && (workload == "" || objs[ref].workload == workload) && delete(ref) == Deleted
  {
    var items := list(ref.ns, ref.kind, Selector(workID, workload)).items;
    if ref in objs && Matches(objs[ref], Selector(workID, workload)) {
      assert Item(ref.name, objs[ref]) in items;
    }
    if i :| 0 <= i < |items| && items[i].name == ref.name && items[i].meta.managed {
      assert Item(items[i].name, items[i].meta) in items;
    }
  }
}
