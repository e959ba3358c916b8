/** Confirming that a work id's objects are gone: a poll with a growing wait, which
    takes neither an object still listed nor a namespace it cannot list for "gone". */
module Confirm {
  import opened Cluster

  const SECOND := 1_000_000_000
  const FIRST_WAIT := 500_000_000
  const LONG_WAIT := 10 * SECOND

  // What polling meets: the answers of each pass, how long each pass takes, and the
  // timeout. Answers once the timeout has struck are failures or not, as they come.
  datatype Polls = Polls(answers: nat -> Lister, takes: nat -> nat, timeout: nat)

  // One full pass that listed nothing and hit no error.
  predicate Clean(nss: seq<string>, sel: Selector, list: Lister) {
    forall i, kind :: 0 <= i < |nss| ==> list(nss[i], kind, sel) == Listed([])
  }

  datatype Verdict = Verdict(gone: bool, passes: nat)

  function NextWait(wait: nat): nat { if wait < LONG_WAIT then 2 * wait else wait }

  // Polling from pass i on, with that much of the timeout gone.
  function Polled(nss: seq<string>, sel: Selector, p: Polls, i: nat, elapsed: nat, wait: nat): Verdict
    requires wait > 0
    decreases p.timeout - elapsed
  {
    var now := elapsed + p.takes(i);
    if Clean(nss, sel, p.answers(i)) then Verdict(true, i + 1)
    else if now + wait > p.timeout then Verdict(false, i + 1)
    else Polled(nss, sel, p, i + 1, now + wait, NextWait(wait))
  }

  function Confirmed(nss: seq<string>, sel: Selector, p: Polls): Verdict {
    if nss == [] then Verdict(true, 0) else Polled(nss, sel, p, 0, 0, FIRST_WAIT)
  }

  predicate Remains(nss: seq<string>, sel: Selector, list: Lister, r: Ref) {
    r.ns in nss && var l := list(r.ns, r.kind, sel);
    l.Listed? && exists i :: 0 <= i < |l.items| && l.items[i].name == r.name
  }

  predicate Unsure(nss: seq<string>, sel: Selector, list: Lister, ns: string, kind: Kind) {
    ns in nss && list(ns, kind, sel).ListFailed?
  }

  // One list call of a pass.
  method Look(ns: string, kind: Kind, sel: Selector, list: Lister) returns (remaining: seq<Ref>, problem: bool)
    ensures problem == list(ns, kind, sel).ListFailed?
    ensures forall r :: r in remaining <==> r.kind == kind && Remains([ns], sel, list, r)
    ensures remaining == [] && !problem <==> list(ns, kind, sel) == Listed([])
  {
    remaining := [];
    var l := list(ns, kind, sel);
    if l.ListFailed? {
      return [], true;
    }
    problem := false;
    for i := 0 to |l.items|
      invariant |remaining| == i
      invariant forall j :: 0 <= j < i ==> remaining[j] == Ref(ns, kind, l.items[j].name)
    {
      remaining := remaining + [Ref(ns, kind, l.items[i].name)];
    }
  }

  lemma OneMore(nss: seq<string>, ns: string, sel: Selector, list: Lister)
    ensures Clean(nss + [ns], sel, list) <==>
            Clean(nss, sel, list) && list(ns, Deployment, sel) == Listed([]) && list(ns, Service, sel) == Listed([])
    ensures forall n, kind :: Unsure(nss + [ns], sel, list, n, kind) <==>
              Unsure(nss, sel, list, n, kind) || Unsure([ns], sel, list, n, kind)
  {
    var more := nss + [ns];
    assert forall i | 0 <= i < |nss| :: more[i] == nss[i];
    assert more[|nss|] == ns;
    if Clean(nss, sel, list) && list(ns, Deployment, sel) == Listed([]) && list(ns, Service, sel) == Listed([]) {
      forall i, kind | 0 <= i < |more| ensures list(more[i], kind, sel) == Listed([]) {
        assert kind == Deployment || kind == Service;
      }
    }
  }

  // One pass over all the namespaces.
  method Pass(nss: seq<string>, sel: Selector, list: Lister)
    returns (remaining: seq<Ref>, problems: seq<(string, Kind)>)
    ensures forall r :: r in remaining <==> Remains(nss, sel, list, r)
    ensures forall ns, kind :: (ns, kind) in problems <==> Unsure(nss, sel, list, ns, kind)
    ensures remaining == [] && problems == [] <==> Clean(nss, sel, list)
  {
    remaining, problems := [], [];
    for i := 0 to |nss|
      invariant forall r :: r in remaining <==> Remains(nss[..i], sel, list, r)
      invariant forall ns, kind :: (ns, kind) in problems <==> Unsure(nss[..i], sel, list, ns, kind)
      invariant remaining == [] && problems == [] <==> Clean(nss[..i], sel, list)
    {
      assert nss[..i + 1] == nss[..i] + [nss[i]];
      var deps, noDeps := Look(nss[i], Deployment, sel, list);
      var svcs, noSvcs := Look(nss[i], Service, sel, list);
      remaining := remaining + deps + svcs;
      ghost var had := problems;
      if noDeps {
        problems := problems + [(nss[i], Deployment)];
      }
      if noSvcs {
        problems := problems + [(nss[i], Service)];
      }
      OneMore(nss[..i], nss[i], sel, list);
      forall ns, kind ensures (ns, kind) in problems <==> (ns, kind) in had || Unsure([nss[i]], sel, list, ns, kind) {
        assert kind == Deployment || kind == Service;
      }
    }
    assert nss[..|nss|] == nss;
  }

  /** What is still there, and what could not be checked; both empty means gone. */
  method ConfirmGone(nss: seq<string>, sel: Selector, p: Polls)
    returns (remaining: seq<Ref>, problems: seq<(string, Kind)>, passes: nat)
    ensures passes == Confirmed(nss, sel, p).passes
    ensures remaining == [] && problems == [] <==> Confirmed(nss, sel, p).gone
    ensures passes > 0 ==> forall r :: r in remaining <==> Remains(nss, sel, p.answers(passes - 1), r)
    ensures passes > 0 ==> forall ns, kind :: (ns, kind) in problems <==>
              Unsure(nss, sel, p.answers(passes - 1), ns, kind)
  {
    if nss == [] {
      return [], [], 0;
    }
    var wait, elapsed := FIRST_WAIT, 0;
    passes := 0;
    while true
      invariant wait > 0 && Confirmed(nss, sel, p) == Polled(nss, sel, p, passes, elapsed, wait)
      decreases p.timeout - elapsed
    {
      remaining, problems := Pass(nss, sel, p.answers(passes));
      elapsed := elapsed + p.takes(passes);
      passes := passes + 1;
      if remaining == [] && problems == [] {
        return;
      }
      if elapsed + wait > p.timeout {
        return;
      }
      elapsed := elapsed + wait;
      if wait < LONG_WAIT {
        wait := wait * 2;
      }
    }
  }

  // --- what the poll promises -----------------------------------------------------------------

  function Doubled(i: nat): (n: nat)
    ensures n > 0
  {
    if i == 0 then 1 else 2 * Doubled(i - 1)
  }

  // The pause after pass i: half a second, doubling up to sixteen.
  function PauseAfter(i: nat): nat { SECOND / 2 * Doubled(if i < 5 then i else 5) }

  // When pass i begins, if all before it were made.
  function Begins(p: Polls, i: nat): nat { if i == 0 then 0 else Begins(p, i - 1) + p.takes(i - 1) + PauseAfter(i - 1) }

  // The first pass is always made, any other only if it begins within the timeout.
  predicate InTime(p: Polls, i: nat) { i == 0 || Begins(p, i) <= p.timeout }

  lemma {:induction false} BeginsLater(p: Polls, i: nat, j: nat)
    requires i <= j
    ensures Begins(p, i) <= Begins(p, j)
  {
    if i < j {
      BeginsLater(p, i, j - 1);
    }
  }

  lemma {:induction false} BeginsBound(p: Polls, i: nat)
    requires i > 5
    ensures 16 * SECOND * (i - 5) <= Begins(p, i)
  {
    assert Doubled(5) == 32 by {
      assert Doubled(3) == 8;
    }
    if i > 6 {
      BeginsBound(p, i - 1);
    }
  }

  // The pauses are the ones the poll makes.
  lemma PauseNext(i: nat)
    ensures NextWait(PauseAfter(i)) == PauseAfter(i + 1)
  {
    assert Doubled(1) == 2 && Doubled(2) == 4;
    assert Doubled(3) == 8 && Doubled(4) == 16;
    assert Doubled(5) == 32;
  }

  lemma {:induction false} PolledFrom(nss: seq<string>, sel: Selector, p: Polls, i: nat)
    requires InTime(p, i)
    ensures var v := Polled(nss, sel, p, i, Begins(p, i), PauseAfter(i));
      && i < v.passes && InTime(p, v.passes - 1)
      && (forall j :: i <= j < v.passes - 1 ==> !Clean(nss, sel, p.answers(j)))
      && (v.gone <==> Clean(nss, sel, p.answers(v.passes - 1)))
      && (!v.gone ==> !InTime(p, v.passes))
    decreases p.timeout - Begins(p, i)
  {
    if !Clean(nss, sel, p.answers(i)) && InTime(p, i + 1) {
      PauseNext(i);
      PolledFrom(nss, sel, p, i + 1);
    }
  }

  /** The poll neither gives up early nor goes on late: gone is the verdict if and only if
      some pass that begins within the timeout is clean. The last pass made is the first
      clean one, or else the last to begin in time; a timeout of T allows at most
      6 + T/16s, however fast they are. */
  lemma ConfirmedMeans(nss: seq<string>, sel: Selector, p: Polls)
    requires nss != []
    ensures var v := Confirmed(nss, sel, p);
      && 1 <= v.passes <= 6 + p.timeout / (16 * SECOND) && InTime(p, v.passes - 1)
      && (v.gone <==> exists i: nat :: Clean(nss, sel, p.answers(i)) && InTime(p, i))
      && (v.gone <==> Clean(nss, sel, p.answers(v.passes - 1)))
      && (forall j :: 0 <= j < v.passes - 1 ==> !Clean(nss, sel, p.answers(j)))
      && (!v.gone ==> !InTime(p, v.passes))
  {
    assert Doubled(0) == 1;
    PolledFrom(nss, sel, p, 0);
    var v := Confirmed(nss, sel, p);
    if v.passes > 6 {
      BeginsBound(p, v.passes - 1);
    }
    forall i: nat | Clean(nss, sel, p.answers(i)) && InTime(p, i) ensures v.gone {
      if !v.gone && i >= v.passes {
        BeginsLater(p, v.passes, i);
      }
    }
  }

  /** Where there is no namespace to look into, nothing is looked at, and all is gone. */
  lemma NowhereToLook(sel: Selector, p: Polls)
    ensures Confirmed([], sel, p) == Verdict(true, 0)
  {
  }

  /** A pass is clean if and only if it has nothing to report: nothing that remains, and no
      namespace that it could not look into. */
  lemma CleanSaysNothing(nss: seq<string>, sel: Selector, list: Lister)
    ensures Clean(nss, sel, list) <==>
            (forall r :: !Remains(nss, sel, list, r)) && forall ns, kind :: !Unsure(nss, sel, list, ns, kind)
  {
    if Clean(nss, sel, list) {
      forall ns, kind | ns in nss ensures list(ns, kind, sel) == Listed([]) {
        var i :| 0 <= i < |nss| && nss[i] == ns;
      }
    } else {
      var i, kind :| 0 <= i < |nss| && list(nss[i], kind, sel) != Listed([]);
      var l := list(nss[i], kind, sel);
      if l.Listed? {
        assert l.items[0].name == l.items[0].name && Remains(nss, sel, list, Ref(nss[i], kind, l.items[0].name));
      } else {
        assert Unsure(nss, sel, list, nss[i], kind);
      }
    }
  }

  /** And against honest lists what remains is what is there, and there is no doubt. */
  lemma RemainsAre(nss: seq<string>, sel: Selector, list: Lister, objs: Objects, r: Ref)
    requires Honest(list, objs)
    ensures Remains(nss, sel, list, r) <==> r in objs && r.ns in nss && Matches(objs[r], sel)
    ensures !Unsure(nss, sel, list, r.ns, r.kind)
  {
    var items := list(r.ns, r.kind, sel).items;
    if r in objs && Matches(objs[r], sel) {
      assert Item(r.name, objs[r]) in items;
    }
    if i :| 0 <= i < |items| && items[i].name == r.name {
      assert Item(items[i].name, items[i].meta) in items;
    }
  }

  /** A clean pass answered honestly means there was nothing to find. */
  lemma CleanMeans(nss: seq<string>, sel: Selector, list: Lister, objs: Objects)
    requires Honest(list, objs)
    ensures Clean(nss, sel, list) <==> forall r :: r in objs && r.ns in nss ==> !Matches(objs[r], sel)
  {
    if Clean(nss, sel, list) {
      forall r | r in objs && r.ns in nss ensures !Matches(objs[r], sel) {
        var i :| 0 <= i < |nss| && nss[i] == r.ns;
        assert list(nss[i], r.kind, sel) == Listed([]);
        assert Item(r.name, objs[r]) !in list(r.ns, r.kind, sel).items;
      }
    } else {
      var i, kind :| 0 <= i < |nss| && list(nss[i], kind, sel) != Listed([]);
      var item := list(nss[i], kind, sel).items[0];
      assert Item(item.name, item.meta) in list(nss[i], kind, sel).items;
      assert Ref(nss[i], kind, item.name) in objs;
    }
  }
}
