/** The expiry teardown: delete a work id's objects, confirm they are gone from every
    namespace its previews are in, and only then let its header route go. */
module Expiry {
  import opened Registry
  import opened Cluster
  import opened Confirm

  // One work id's expiry as the registry sees it.
  function ExpiryHandled(r: Table, workID: string, gone: bool, until: int): Table {
    if gone then WithoutWork(r, workID) else Touched(r, workID, until)
  }

  // What an expiry meets: the drop's lists and deletions, the confirmation's polls,
  // and the instant a recheck would be due.
  datatype ExpiryWorld = ExpiryWorld(list: Lister, delete: Deleter, polls: Polls, until: int)

  ghost predicate Lists(nss: seq<string>, namespaces: set<string>) { forall ns :: ns in nss <==> ns in namespaces }

  class Reaper {
    const reg: Registry
    const cluster: Cluster
    const allowed: seq<string>

    constructor (reg: Registry, cluster: Cluster, allowed: seq<string>)
      ensures this.reg == reg && this.cluster == cluster && this.allowed == allowed
    {
      this.reg, this.cluster, this.allowed := reg, cluster, allowed;
    }

    method ExpireWork(workID: string, w: ExpiryWorld) returns (gone: bool)
      requires reg.Valid()
      modifies reg, reg.byKey.Values`expiresAt, cluster
      ensures reg.Valid() && reg.byKey.Values <= old(reg.byKey.Values)
      ensures reg.Contents() == ExpiryHandled(old(reg.Contents()), workID, gone, w.until)
      ensures cluster.objs == Dropped(old(cluster.objs), allowed, Selector(workID, ""), w.list, w.delete)
      ensures gone <==> SeenGone(old(reg.Contents()), workID, w.polls)
    {
      var nss := reg.Namespaces(workID);
      ghost var r := reg.Contents();
      gone := DropAndConfirm(nss, workID, w);
      SeenGoneBy(r, workID, nss, w.polls);
      assert reg.Contents() == r;
      Conclude(workID, gone, w.until);
    }

    method DropAndConfirm(nss: seq<string>, workID: string, w: ExpiryWorld) returns (gone: bool)
      modifies cluster
      ensures cluster.objs == Dropped(old(cluster.objs), allowed, Selector(workID, ""), w.list, w.delete)
      ensures gone == Confirmed(nss, Selector(workID, ""), w.polls).gone
    {
      var deleted, trouble := cluster.DropWorkload(allowed, workID, "", w.list, w.delete);
      var remaining, problems, passes := ConfirmGone(nss, Selector(workID, ""), w.polls);
      gone := remaining == [] && problems == [];
    }

    // The header route goes now, and only now; short of that it stays and the
    // deadline moves out.
    method Conclude(workID: string, gone: bool, until: int)
      requires reg.Valid()
      modifies reg, reg.byKey.Values`expiresAt
      ensures reg.Valid() && reg.byKey.Values <= old(reg.byKey.Values)
      ensures reg.Contents() == ExpiryHandled(old(reg.Contents()), workID, gone, until)
    {
      if !gone {
        reg.Touch(workID, until);
        return;
      }
      var ps := reg.RemoveWork(workID);
    }

    /** One tick of the reaper: every work id with a preview past its deadline. Those
        whose own poll saw everything gone are removed, the others put off, and each
        one's objects are dropped. */
    method ReapExpired(now: int, worlds: string -> ExpiryWorld) returns (removed: set<string>)
      requires reg.Valid()
      modifies reg, reg.byKey.Values`expiresAt, cluster
      ensures reg.Valid()
      ensures reg.Contents() == Reaped(old(reg.Contents()), DueIn(old(reg.Contents()), now), removed, worlds)
      ensures forall id :: id in removed <==>
                id in DueIn(old(reg.Contents()), now) && SeenGone(old(reg.Contents()), id, worlds(id).polls)
      ensures cluster.objs == DroppedAll(old(cluster.objs), allowed, DueIn(old(reg.Contents()), now), worlds)
    {
      ghost var was, objs := reg.Contents(), cluster.objs;
      var due := reg.Expired(now);
      assert Members(due) == DueIn(was, now);
      removed := {};
      ReapingStart(was, objs, allowed, worlds);
      for i := 0 to |due|
        invariant reg.Valid() && reg.byKey.Values <= old(reg.byKey.Values)
        invariant Reaping(was, objs, allowed, Members(due[..i]), removed, worlds, reg.Contents(), cluster.objs)
      {
        ghost var past, r, left := Members(due[..i]), reg.Contents(), cluster.objs;
        MembersNext(due, i);
        var gone := ExpireWork(due[i], worlds(due[i]));
        ReapingNext(was, objs, allowed, past, removed, worlds, due[i], gone, r, left);
        if gone {
          removed := removed + {due[i]};
        }
      }
      assert due[..|due|] == due;
    }
  }

  // The poll over exactly the namespaces of the work id's previews ends in "gone".
  ghost predicate SeenGone(r: Table, workID: string, p: Polls) {
    exists nss :: Lists(nss, NamespacesOf(r, workID)) && Confirmed(nss, Selector(workID, ""), p).gone
  }

  lemma SeenGoneBy(r: Table, workID: string, nss: seq<string>, p: Polls)
    requires Lists(nss, NamespacesOf(r, workID))
    ensures SeenGone(r, workID, p) <==> Confirmed(nss, Selector(workID, ""), p).gone
  {
    if other :| Lists(other, NamespacesOf(r, workID)) && Confirmed(other, Selector(workID, ""), p).gone {
      assert nss == [] || nss[0] in other;
      assert other == [] || other[0] in nss;
      VerdictOrderFree(other, nss, Selector(workID, ""), p);
    }
  }

  /** The poll of a work id that has previews ends in "gone" if and only if some pass that
      begins in time lists nothing of it, of either kind, in any of their namespaces. */
  lemma SeenGoneMeans(r: Table, workID: string, p: Polls, nss: seq<string>)
    requires NamespacesOf(r, workID) != {} && Lists(nss, NamespacesOf(r, workID))
    ensures SeenGone(r, workID, p) <==>
            exists i: nat :: InTime(p, i) && forall k, kind :: k in r && k.workID == workID ==>
                               p.answers(i)(k.ns, kind, Selector(workID, "")) == Listed([])
  {
    var sel := Selector(workID, "");
    SeenGoneBy(r, workID, nss, p);
    var k :| k in r && k.workID == workID;
    assert k.ns in nss;
    ConfirmedMeans(nss, sel, p);
    forall i: nat
      ensures Clean(nss, sel, p.answers(i)) <==>
              forall k, kind :: k in r && k.workID == workID ==> p.answers(i)(k.ns, kind, sel) == Listed([])
    {
      CleanMeansEach(r, workID, nss, sel, p.answers(i));
    }
  }

  lemma CleanMeansEach(r: Table, workID: string, nss: seq<string>, sel: Selector, list: Lister)
    requires Lists(nss, NamespacesOf(r, workID))
    ensures Clean(nss, sel, list) <==>
            forall k, kind :: k in r && k.workID == workID ==> list(k.ns, kind, sel) == Listed([])
  {
    if Clean(nss, sel, list) {
      forall k, kind | k in r && k.workID == workID ensures list(k.ns, kind, sel) == Listed([]) {
        assert k.ns in NamespacesOf(r, workID);
        var i :| 0 <= i < |nss| && nss[i] == k.ns;
      }
    } else {
      var i, kind :| 0 <= i < |nss| && list(nss[i], kind, sel) != Listed([]);
      assert nss[i] in nss;
      var k :| k in r && k.workID == workID && k.ns == nss[i];
    }
  }

  // Where a tick of the reaper stands with these work ids behind it.
  ghost predicate Reaping(was: Table, objs: Objects, allowed: seq<string>, past: set<string>, removed: set<string>,
                          worlds: string -> ExpiryWorld, r: Table, left: Objects) {
    && (forall id :: id in removed <==> id in past && SeenGone(was, id, worlds(id).polls))
    && r == Reaped(was, past, removed, worlds) && left == DroppedAll(objs, allowed, past, worlds)
  }

  lemma ReapingStart(was: Table, objs: Objects, allowed: seq<string>, worlds: string -> ExpiryWorld)
    ensures Reaping(was, objs, allowed, Members([]), {}, worlds, was, objs)
  {
  }

  lemma MembersNext(ids: seq<string>, i: nat)
    requires i < |ids| && forall j, k :: 0 <= j < k < |ids| ==> ids[j] != ids[k]
    ensures ids[i] !in Members(ids[..i]) && Members(ids[..i + 1]) == Members(ids[..i]) + {ids[i]}
  {
  }

  lemma ReapingNext(was: Table, objs: Objects, allowed: seq<string>, past: set<string>, removed: set<string>,
                    worlds: string -> ExpiryWorld, id: string, gone: bool, r: Table, left: Objects)
    requires Reaping(was, objs, allowed, past, removed, worlds, r, left)
    requires id !in past && (gone <==> SeenGone(r, id, worlds(id).polls))
    requires forall k :: k in was ==> was[k].workID == k.workID
    ensures Reaping(was, objs, allowed, past + {id}, if gone then removed + {id} else removed, worlds,
                    ExpiryHandled(r, id, gone, worlds(id).until),
                    Dropped(left, allowed, Selector(id, ""), worlds(id).list, worlds(id).delete))
  {
    SameNamespaces(was, past, removed, worlds, id);
    ReapedMore(was, past, removed, worlds, id, gone);
    DroppedMore(objs, allowed, past, worlds, id);
  }

  lemma DroppedMore(objs: Objects, allowed: seq<string>, past: set<string>, worlds: string -> ExpiryWorld, id: string)
    ensures var w := worlds(id);
      Dropped(DroppedAll(objs, allowed, past, worlds), allowed, Selector(id, ""), w.list, w.delete)
         == DroppedAll(objs, allowed, past + {id}, worlds)
  {
  }

  // What reaping some work ids leaves does not touch the namespaces of another.
  lemma SameNamespaces(r: Table, due: set<string>, removed: set<string>, worlds: string -> ExpiryWorld, id: string)
    requires id !in removed
    ensures NamespacesOf(Reaped(r, due, removed, worlds), id) == NamespacesOf(r, id)
  {
    var left := Reaped(r, due, removed, worlds);
    assert forall k: ServiceKey | k.workID == id :: k in left <==> k in r;
  }

  function DroppedAll(objs: Objects, allowed: seq<string>, ids: set<string>, worlds: string -> ExpiryWorld): Objects {
    map r | r in objs && !(exists id :: id in ids && Drops(allowed, id, worlds(id), r)) :: objs[r]
  }

  predicate Drops(allowed: seq<string>, id: string, w: ExpiryWorld, r: Ref) {
    Targeted(allowed, Selector(id, ""), w.list, r) && w.delete(r) != Refused
  }

  function Members(ids: seq<string>): set<string> { set id | id in ids }

  function ReapedEntry(e: Entry, due: set<string>, worlds: string -> ExpiryWorld): Entry {
    if e.workID in due then TouchedEntry(e, e.workID, worlds(e.workID).until) else e
  }

  // The due work ids are removed or put off, and nothing else is touched.
  function Reaped(r: Table, due: set<string>, removed: set<string>, worlds: string -> ExpiryWorld): Table {
    map k | k in r && k.workID !in removed :: ReapedEntry(r[k], due, worlds)
  }

  lemma ReapedMore(r: Table, due: set<string>, removed: set<string>, worlds: string -> ExpiryWorld, id: string,
                   gone: bool)
    requires removed <= due && id !in due && forall k :: k in r ==> r[k].workID == k.workID
    ensures ExpiryHandled(Reaped(r, due, removed, worlds), id, gone, worlds(id).until)
         == Reaped(r, due + {id}, if gone then removed + {id} else removed, worlds)
  {
  }

  // --- what an expiry promises --------------------------------------------------------------------

  lemma CleanOrderFree(a: seq<string>, b: seq<string>, sel: Selector, list: Lister)
    requires forall ns :: ns in a <==> ns in b
    ensures Clean(a, sel, list) <==> Clean(b, sel, list)
  {
    forall xs, ys | xs in {a, b} && ys in {a, b} && Clean(xs, sel, list) ensures Clean(ys, sel, list) {
      forall i, kind | 0 <= i < |ys| ensures list(ys[i], kind, sel) == Listed([]) {
        assert ys[i] in xs;
        var j :| 0 <= j < |xs| && xs[j] == ys[i];
        assert list(xs[j], kind, sel) == Listed([]);
      }
    }
  }

  /** A work id's route goes if and only if some pass that begins within the timeout, over
      every namespace its previews are in, lists nothing and hits no error. Otherwise every
      entry stays, and all that changes is that the id's deadlines all move to the recheck. */
  lemma RouteAfterConfirmation(r: Table, workID: string, nss: seq<string>, w: ExpiryWorld)
    requires forall k :: k in r ==> KeyOf(r[k]) == k
    requires NamespacesOf(r, workID) != {} && Lists(nss, NamespacesOf(r, workID))
    ensures var v := Confirmed(nss, Selector(workID, ""), w.polls);
      var r' := ExpiryHandled(r, workID, v.gone, w.until);
      && 1 <= v.passes <= 6 + w.polls.timeout / (16 * SECOND)
      && ((exists k :: k in r && k.workID == workID && k !in r')
          <==> exists i: nat :: Clean(nss, Selector(workID, ""), w.polls.answers(i)) && InTime(w.polls, i))
      && (forall k :: k in r && k.workID != workID ==> k in r' && r'[k] == r[k])
      && (v.gone ==> forall k :: k in r' ==> k.workID != workID)
      && (!v.gone ==> r'.Keys == r.Keys && forall k :: k in r && k.workID == workID ==>
            r'[k] == if r[k].schedule == "" then r[k].(expiresAt := w.until) else r[k])
  {
    var k :| k in r && k.workID == workID;
    assert k.ns in nss;
    ConfirmedMeans(nss, Selector(workID, ""), w.polls);
  }

  lemma {:induction false} PolledOrderFree(a: seq<string>, b: seq<string>, sel: Selector, p: Polls, i: nat,
                                           elapsed: nat, wait: nat)
    requires wait > 0 && forall ns :: ns in a <==> ns in b
    ensures Polled(a, sel, p, i, elapsed, wait) == Polled(b, sel, p, i, elapsed, wait)
    decreases p.timeout - elapsed
  {
    CleanOrderFree(a, b, sel, p.answers(i));
    var now := elapsed + p.takes(i);
    if !Clean(a, sel, p.answers(i)) && now + wait <= p.timeout {
      PolledOrderFree(a, b, sel, p, i + 1, now + wait, NextWait(wait));
    }
  }

  /** The verdict is the namespaces', in whatever order they are asked. */
  lemma VerdictOrderFree(a: seq<string>, b: seq<string>, sel: Selector, p: Polls)
    requires (forall ns :: ns in a <==> ns in b) && (a == [] <==> b == [])
    ensures Confirmed(a, sel, p) == Confirmed(b, sel, p)
  {
    if a != [] {
      PolledOrderFree(a, b, sel, p, 0, 0, FIRST_WAIT);
    }
  }
}
