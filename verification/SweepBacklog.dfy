/** A backlog on the cluster itself: sweeps against honest lists, whose deletions work,
    clear every overdue object nobody tracks in a bounded number of rounds. */
module SweepBacklog {
  import opened Cluster
  import opened Confirm
  import opened OrphanSweep
  import opened Sweeper
  import opened SweepLaws
  import opened SweepEffects

  // One sweep: the cluster it meets, what it goes by, and what its calls meet.
  datatype Round = Round(objs: Objects, s: Sweep, list: Lister, tears: OrphanKey -> TearWorld)

  // What does not change: the namespaces, the registry, the terms.
  datatype Setting = Setting(allowed: seq<string>, tracked: OrphanKey -> bool, t: Terms)

  function TornIn(r: Round, m: Memory, st: Setting): seq<OrphanKey> { Torn(r.s.ks, m, r.s.v, st.t) }

  function Left(r: Round, m: Memory, st: Setting): Objects { TornDown(r.objs, st.allowed, TornIn(r, m, st), r.tears) }

  // The sweep is this cluster's: it goes by what honest lists show, its teardowns work,
  // and its confirmations are honest and are those it reports.
  ghost predicate Sound(r: Round, m: Memory, st: Setting) {
    var torn := TornIn(r, m, st);
    && Honest(r.list, r.objs) && Dated(r.s.v.found, Evidence(st.allowed, r.list))
    && Distinct(r.s.ks) && Walks(r.s)
    && (forall k :: r.s.v.tracked(k) == st.tracked(k))
    && (forall i :: 0 <= i < |torn| ==>
          && Honest(r.tears(torn[i]).list, TornDown(r.objs, st.allowed, torn[..i], r.tears))
          && (forall d :: r.tears(torn[i]).delete(d) != Refused)
          && Honest(r.tears(torn[i]).polls.answers(0), TornDown(r.objs, st.allowed, torn[..i + 1], r.tears))
          && r.s.confirmed(torn[i]) == Confirmed([torn[i].ns], SelectorOf(torn[i]), r.tears(torn[i]).polls).gone)
  }

  predicate Part(a: Objects, b: Objects) { forall r :: r in a ==> r in b && a[r] == b[r] }

  // Between sweeps objects may go, and none comes.
  ghost predicate Rounds(m: Memory, rs: seq<Round>, st: Setting)
    decreases |rs|
  {
    rs != [] ==>
      var r := rs[0];
      && Sound(r, m, st)
      && (|rs| > 1 ==> Part(rs[1].objs, Left(r, m, st)) && r.s.v.now <= rs[1].s.v.now)
      && Rounds(After(m, r.s, st.t), rs[1..], st)
  }

  // The previews with an object of ours past the lifetime that nobody tracks.
  function Overdue(objs: Objects, now: int, st: Setting): set<OrphanKey> {
    set r | r in objs && Late(r, objs[r], now, st) :: OwnerOf(r, objs[r])
  }

  predicate Late(r: Ref, m: Meta, now: int, st: Setting) {
    && m.managed && r.ns in st.allowed && m.workID != "" && m.workload != ""
    && !st.tracked(OwnerOf(r, m)) && now - m.created >= st.t.lifetime
  }

  // Every object has its creation time.
  predicate Timed(objs: Objects) { forall r :: r in objs ==> objs[r].created != 0 }

  /** Against honest lists, a sweep's orphans are exactly the overdue previews. */
  lemma OrphansAre(r: Round, m: Memory, st: Setting)
    requires Sound(r, m, st) && Timed(r.objs)
    ensures OrphansOf(r.s, st.t) == Overdue(r.objs, r.s.v.now, st)
  {
    var v, ev := r.s.v, Evidence(st.allowed, r.list);
    forall k | k in OrphansOf(r.s, st.t) ensures k in Overdue(r.objs, v.now, st) {
      assert (k, v.found[k]) in ev;
      FindsExactly(r.objs, st.allowed, r.list, k, v.found[k]);
    }
    forall ref | ref in r.objs && Late(ref, r.objs[ref], v.now, st)
      ensures OwnerOf(ref, r.objs[ref]) in OrphansOf(r.s, st.t)
    {
      var k, at := OwnerOf(ref, r.objs[ref]), r.objs[ref].created;
      FindsExactly(r.objs, st.allowed, r.list, k, at);
      var i :| 0 <= i < |ev| && ev[i] == (k, at);
      assert k in v.found && v.found[k] <= at;
      assert (k, v.found[k]) in ev;
      FindsExactly(r.objs, st.allowed, r.list, k, v.found[k]);
    }
  }

  lemma TornIsNamed(r: Round, m: Memory, st: Setting, k: OrphanKey)
    requires Sound(r, m, st) && k in TornIn(r, m, st)
    ensures k.ns in st.allowed && k.workID != "" && k.workload != "" && k in OrphansOf(r.s, st.t)
  {
    TornAmong(r.s.ks, m, r.s.v, st.t);
    FindsExactly(r.objs, st.allowed, r.list, k, r.s.v.found[k]);
  }

  lemma TornWorking(r: Round, m: Memory, st: Setting, n: nat)
    requires Sound(r, m, st) && n <= |TornIn(r, m, st)|
    ensures Working(r.objs, st.allowed, TornIn(r, m, st)[..n], r.tears)
  {
    var torn := TornIn(r, m, st);
    forall i | 0 <= i < n
      ensures torn[..n][i].workID != "" && torn[..n][i].workload != "" && torn[..n][..i] == torn[..i]
    {
      TornIsNamed(r, m, st, torn[i]);
    }
  }

  // What is torn down leaves nothing of its pair in any allowed namespace.
  lemma PairGone(r: Round, m: Memory, st: Setting, n: nat, i: nat, ref: Ref)
    requires Sound(r, m, st) && i < n <= |TornIn(r, m, st)| && ref.ns in st.allowed
    requires ref in TornDown(r.objs, st.allowed, TornIn(r, m, st)[..n], r.tears)
    ensures var left := TornDown(r.objs, st.allowed, TornIn(r, m, st)[..n], r.tears);
      ref in r.objs && left[ref] == r.objs[ref]
      && !(left[ref].managed && SamePair(TornIn(r, m, st)[i], OwnerOf(ref, left[ref])))
  {
    var torn := TornIn(r, m, st)[..n];
    TornWorking(r, m, st, n);
    OnlyFewer(r.objs, st.allowed, torn, r.tears);
    SweepTakes(r.objs, st.allowed, torn, r.tears, ref);
    if SamePair(torn[i], OwnerOf(ref, r.objs[ref])) {
      assert Named(torn, OwnerOf(ref, r.objs[ref]));
    }
  }

  lemma {:induction false} OnlyFewer(objs: Objects, allowed: seq<string>, torn: seq<OrphanKey>,
                                     tears: OrphanKey -> TearWorld)
    ensures Part(TornDown(objs, allowed, torn, tears), objs)
  {
    if torn != [] {
      OnlyFewer(objs, allowed, torn[..|torn| - 1], tears);
    }
  }

  // Each teardown is confirmed on its first pass.
  lemma AllConfirm(r: Round, m: Memory, st: Setting, i: nat)
    requires Sound(r, m, st) && i < |TornIn(r, m, st)|
    ensures r.s.confirmed(TornIn(r, m, st)[i])
  {
    var torn := TornIn(r, m, st);
    var k, left := torn[i], TornDown(r.objs, st.allowed, torn[..i + 1], r.tears);
    TornIsNamed(r, m, st, k);
    forall ref | ref in left && ref.ns == k.ns ensures !Matches(left[ref], SelectorOf(k)) {
      PairGone(r, m, st, i + 1, i, ref);
    }
    CleanMeans([k.ns], SelectorOf(k), r.tears(k).polls.answers(0), left);
  }

  // What comes of age while the sweeps run would be a new orphan.
  predicate NoneOfAgeBy(r: Round, now: int, st: Setting) {
    forall ref :: ref in r.objs && now - r.objs[ref].created >= st.t.lifetime ==>
                  r.s.v.now - r.objs[ref].created >= st.t.lifetime
  }

  predicate NoneComesOfAge(rs: seq<Round>, st: Setting) {
    forall j :: 0 <= j < |rs| ==> NoneOfAgeBy(rs[0], rs[j].s.v.now, st)
  }

  function SweepsOf(rs: seq<Round>): seq<Sweep> { seq(|rs|, i requires 0 <= i < |rs| => rs[i].s) }

  // The next sweep's orphans are this one's, without what it tore down.
  lemma NoNewOrphans(r: Round, next: Round, m: Memory, m': Memory, st: Setting)
    requires Sound(r, m, st) && Sound(next, m', st) && Timed(r.objs)
    requires Part(next.objs, Left(r, m, st)) && NoneOfAgeBy(r, next.s.v.now, st)
    ensures Timed(next.objs) && Part(next.objs, r.objs)
    ensures OrphansOf(next.s, st.t) <= OrphansOf(r.s, st.t) - (set k | k in TornIn(r, m, st))
  {
    var torn := TornIn(r, m, st);
    OnlyFewer(r.objs, st.allowed, torn, r.tears);
    OrphansAre(r, m, st);
    OrphansAre(next, m', st);
    forall ref | ref in next.objs && Late(ref, next.objs[ref], next.s.v.now, st)
      ensures OwnerOf(ref, next.objs[ref]) in OrphansOf(r.s, st.t) && OwnerOf(ref, next.objs[ref]) !in torn
    {
      assert next.objs[ref] == r.objs[ref] && Late(ref, r.objs[ref], r.s.v.now, st);
      forall i | 0 <= i < |torn| ensures torn[i] != OwnerOf(ref, next.objs[ref]) {
        assert torn[..|torn|] == torn;
        PairGone(r, m, st, |torn|, i, ref);
      }
    }
  }

  lemma TornConfirm(r: Round, m: Memory, st: Setting)
    requires Sound(r, m, st)
    ensures forall k :: k in TornIn(r, m, st) ==> r.s.confirmed(k)
  {
    forall k | k in TornIn(r, m, st) ensures r.s.confirmed(k) {
      var i :| 0 <= i < |TornIn(r, m, st)| && TornIn(r, m, st)[i] == k;
      AllConfirm(r, m, st, i);
    }
  }

  // What did not come of age after the first round does not after the second.
  lemma YoungRest(rs: seq<Round>, st: Setting)
    requires |rs| > 1 && NoneComesOfAge(rs, st) && Part(rs[1].objs, rs[0].objs)
    requires rs[0].s.v.now <= rs[1].s.v.now
    ensures NoneComesOfAge(rs[1..], st)
  {
    var rest := rs[1..];
    forall j | 0 <= j < |rest| ensures NoneOfAgeBy(rest[0], rest[j].s.v.now, st) {
      assert rest[j] == rs[j + 1] && NoneOfAgeBy(rs[0], rs[j + 1].s.v.now, st) && NoneOfAgeBy(rs[0], rs[1].s.v.now, st);
    }
  }

  lemma {:induction false} RoundsDrain(m: Memory, rs: seq<Round>, st: Setting)
    requires Rounds(m, rs, st) && (rs != [] ==> Timed(rs[0].objs)) && NoneComesOfAge(rs, st)
    ensures Draining(m, SweepsOf(rs), st.t)
    decreases |rs|
  {
    if rs != [] {
      TornConfirm(rs[0], m, st);
      if |rs| > 1 {
        NoNewOrphans(rs[0], rs[1], m, After(m, rs[0].s, st.t), st);
        YoungRest(rs, st);
      }
      RoundsDrain(After(m, rs[0].s, st.t), rs[1..], st);
      assert SweepsOf(rs)[1..] == SweepsOf(rs[1..]);
    }
  }

  lemma {:induction false} RoundsOverdue(m: Memory, rs: seq<Round>, st: Setting, i: nat)
    requires i < |rs| && Rounds(m, rs, st) && Timed(rs[0].objs) && NoneComesOfAge(rs, st)
    ensures OrphansOf(rs[i].s, st.t) == Overdue(rs[i].objs, rs[i].s.v.now, st)
    decreases |rs|
  {
    if i == 0 {
      OrphansAre(rs[0], m, st);
    } else {
      NoNewOrphans(rs[0], rs[1], m, After(m, rs[0].s, st.t), st);
      YoungRest(rs, st);
      RoundsOverdue(After(m, rs[0].s, st.t), rs[1..], st, i - 1);
    }
  }

  /** With n overdue previews nobody tracks at the first sweep, no new object and none
      coming of age, none is left on the cluster after 1 + ceil(n/5) sweeps. */
  lemma BacklogGone(m: Memory, rs: seq<Round>, st: Setting)
    requires rs != [] && Rounds(m, rs, st) && Timed(rs[0].objs) && NoneComesOfAge(rs, st)
    requires Clear(m, rs[0].s.v.now)
    ensures var n := |Overdue(rs[0].objs, rs[0].s.v.now, st)|; var last := 1 + (n + 4) / 5;
      |rs| > last ==> Overdue(rs[last].objs, rs[last].s.v.now, st) == {}
  {
    var last := 1 + (|Overdue(rs[0].objs, rs[0].s.v.now, st)| + 4) / 5;
    RoundsDrain(m, rs, st);
    RoundsOverdue(m, rs, st, 0);
    BacklogClears(m, SweepsOf(rs), st.t);
    if |rs| > last {
      RoundsOverdue(m, rs, st, last);
    }
  }
}
