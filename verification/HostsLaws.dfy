/** The laws of the tagged-line editor: idempotence, exact change reports, the
    exact condition of the round trip, and the refinement of a map from schedule
    name to line under any sequence of opens and closes. */
module HostsLaws {
  import opened Text
  import opened HostsText
  import opened HostsRefinement

  // --- change reports -----------------------------------------------------------------

  /** An apply reports a change exactly when the schedule's first line is not
      already the wanted one, and exactly when the text differs. */
  lemma ApplyChanged(content: string, sc: Redirect)
    requires WellFormed(sc)
    ensures var (next, changed) := Apply(content, HostsLine(sc), HostsTag(sc.name));
      && (changed <==> Find(content, HostsTag(sc.name)) != (HostsLine(sc), true))
      && (changed <==> next != content)
  {
    FindHeld(content, sc.name);
    ApplyHeld(content, sc, sc.name);
  }

  /** A remove reports a change exactly when there was a line to take, and
      exactly when the text differs. */
  lemma RemoveChanged(content: string, n: string)
    requires ValidName(n)
    ensures var (next, changed) := Remove(content, HostsTag(n));
      && (changed <==> Find(content, HostsTag(n)).1)
      && (changed <==> next != content)
  {
    FindHeld(content, n);
    RemoveHeld(content, n, n);
  }

  /** Applying twice is applying once, so a steady tick has nothing to write. */
  lemma ApplyIdempotent(content: string, sc: Redirect)
    requires WellFormed(sc)
    ensures var next := Apply(content, HostsLine(sc), HostsTag(sc.name)).0;
      && Find(next, HostsTag(sc.name)) == (HostsLine(sc), true)
      && Apply(next, HostsLine(sc), HostsTag(sc.name)) == (next, false)
  {
    var next := Apply(content, HostsLine(sc), HostsTag(sc.name)).0;
    ApplyHeld(content, sc, sc.name);
    FindHeld(next, sc.name);
    ApplyChanged(next, sc);
  }

  /** After a remove the tag is gone if and only if it stood on at most one line. */
  lemma RemoveForgets(content: string, n: string)
    requires ValidName(n)
    ensures !Find(Remove(content, HostsTag(n)).0, HostsTag(n)).1 <==> |HeldIn(content, HostsTag(n))| <= 1
  {
    RemoveHeld(content, n, n);
    FindHeld(Remove(content, HostsTag(n)).0, n);
  }

  // --- everybody else's lines -----------------------------------------------------------

  predicate ValidNames(names: set<string>) { forall n :: n in names ==> ValidName(n) }

  lemma FirstExists<T>(xs: seq<T>, p: T -> bool, k: nat)
    requires k < |xs| && p(xs[k])
    ensures First(xs, p) < |xs|
  {}

  lemma {:induction false} WithoutKeeps<T>(xs: seq<T>, p: T -> bool, q: T -> bool, k: nat)
    requires k < |xs| && q(xs[k]) && !p(xs[k])
    ensures First(Without(xs, p), q) < |Without(xs, p)|
  {
    if p(xs[0]) {
      FirstExists(xs[1..], q, k - 1);
    } else if k > 0 {
      WithoutKeeps(xs[1..], p, q, k - 1);
    }
  }

  lemma NotForeign(ln: string, n: string, names: set<string>)
    requires n in names && IsTagged(HostsTag(n))(ln)
    ensures !IsForeign(names)(ln)
  {}

  // Swapping one schedule's line for another of its own.
  lemma SwappedForeign(ls: seq<string>, i: nat, o: nat, x: string, n: string, names: set<string>)
    requires i < |ls| && o < |ls| && n in names
    requires IsTagged(HostsTag(n))(ls[i]) && IsTagged(HostsTag(n))(x)
    requires IsOpener()(ls[o]) && !IsTagged(HostsTag(n))(ls[o])
    ensures var out := ls[..i] + [x] + ls[i + 1..];
      Foreign(out, names) == Foreign(ls, names) && FirstOpener(out) < |out|
  {
    NotForeign(x, n, names);
    NotForeign(ls[i], n, names);
    SelectSwap(ls, i, x, IsForeign(names), Keeping());
    SwappedOpener(ls, i, o, x);
  }

  lemma SwappedOpener(ls: seq<string>, i: nat, o: nat, x: string)
    requires i < |ls| && o < |ls| && i != o && IsOpener()(ls[o])
    ensures var out := ls[..i] + [x] + ls[i + 1..]; FirstOpener(out) < |out|
  {
    var out := ls[..i] + [x] + ls[i + 1..];
    assert out[o] == ls[o];
    FirstExists(out, IsOpener(), o);
  }

  // Putting one in after an opener.
  lemma InsertedForeign(ls: seq<string>, o: nat, x: string, n: string, names: set<string>)
    requires o < |ls| && n in names && IsTagged(HostsTag(n))(x) && IsOpener()(ls[o])
    ensures var out := ls[..o + 1] + [x] + ls[o + 1..];
      Foreign(out, names) == Foreign(ls, names) && FirstOpener(out) < |out|
  {
    NotForeign(x, n, names);
    InsertUnpicked(ls, o + 1, x, IsForeign(names), Keeping());
    InsertedOpener(ls, o, x);
  }

  lemma InsertUnpicked<T, U>(xs: seq<T>, k: nat, x: T, p: T -> bool, f: T -> U)
    requires k <= |xs| && !p(x)
    ensures Select(xs[..k] + [x] + xs[k..], p, f) == Select(xs, p, f)
  {
    SelectInsert(xs, k, x, p, f);
    assert Select(xs[..k], p, f) + [] == Select(xs[..k], p, f);
  }

  lemma InsertedOpener(ls: seq<string>, o: nat, x: string)
    requires o < |ls| && IsOpener()(ls[o])
    ensures var out := ls[..o + 1] + [x] + ls[o + 1..]; FirstOpener(out) < |out|
  {
    var out := ls[..o + 1] + [x] + ls[o + 1..];
    assert out[o] == ls[o];
    FirstExists(out, IsOpener(), o);
  }

  lemma EditedForeign(ls: seq<string>, sc: Redirect, names: set<string>)
    requires WellFormed(sc) && sc.name in names && Clean(ls, '\n')
    requires FirstOpener(ls) < |ls|
    ensures var out := Edited(ls, HostsLine(sc), HostsTag(sc.name));
      Foreign(out, names) == Foreign(ls, names) && FirstOpener(out) < |out|
  {
    var tag := HostsTag(sc.name);
    var i, o, x := FirstTagged(ls, tag), FirstOpener(ls), Placed(ls, HostsLine(sc), tag);
    PlacedTagged(ls, sc);
    OpenerUntagged(ls[o], sc.name);
    if i < |ls| {
      SwappedForeign(ls, i, o, x, sc.name, names);
    } else {
      InsertedForeign(ls, o, x, sc.name, names);
    }
  }

  lemma PlacedTagged(ls: seq<string>, sc: Redirect)
    requires WellFormed(sc) && Clean(ls, '\n')
    ensures IsTagged(HostsTag(sc.name))(Placed(ls, HostsLine(sc), HostsTag(sc.name)))
  {
    LineFacts(sc);
    PlacedIs(ls, sc);
  }

  /** With a hosts block in the text, an apply leaves every line that carries no
      schedule's tag exactly as and where it was, and leaves the block in place. */
  lemma ApplyForeign(content: string, sc: Redirect, names: set<string>)
    requires WellFormed(sc) && sc.name in names && HasHostsBlock(content)
    ensures var next := Apply(content, HostsLine(sc), HostsTag(sc.name)).0;
      ForeignIn(next, names) == ForeignIn(content, names) && HasHostsBlock(next)
  {
    ApplyEdits(content, sc);
    EditedForeign(Lines(content), sc, names);
  }

  lemma WithoutForeign(ls: seq<string>, n: string, names: set<string>)
    requires ValidName(n) && n in names && FirstOpener(ls) < |ls| && FirstTagged(ls, HostsTag(n)) < |ls|
    ensures var out := Without(ls, IsTagged(HostsTag(n)));
      Foreign(out, names) == Foreign(ls, names) && FirstOpener(out) < |out|
  {
    var tag := HostsTag(n);
    NotForeign(ls[FirstTagged(ls, tag)], n, names);
    SelectWithoutOther(ls, IsTagged(tag), IsForeign(names), Keeping());
    OpenerUntagged(ls[FirstOpener(ls)], n);
    WithoutKeeps(ls, IsTagged(tag), IsOpener(), FirstOpener(ls));
  }

  lemma {:induction false} WithoutClean(ls: seq<string>, p: string -> bool, sep: char)
    requires Clean(ls, sep)
    ensures Clean(Without(ls, p), sep)
  {
    if ls != [] && !p(ls[0]) {
      WithoutClean(ls[1..], p, sep);
    }
  }

  /** So does a remove. */
  lemma RemoveForeign(content: string, n: string, names: set<string>)
    requires ValidName(n) && n in names && HasHostsBlock(content)
    ensures var next := Remove(content, HostsTag(n)).0;
      ForeignIn(next, names) == ForeignIn(content, names) && HasHostsBlock(next)
  {
    var ls, tag := Lines(content), HostsTag(n);
    if FirstTagged(ls, tag) < |ls| {
      WithoutForeign(ls, n, names);
      WithoutClean(ls, IsTagged(tag), '\n');
      SplitJoin(Without(ls, IsTagged(tag)), '\n');
    }
  }

  // --- the round trip -------------------------------------------------------------------

  lemma {:induction false} WithoutInserted<T>(xs: seq<T>, k: nat, x: T, p: T -> bool)
    requires k <= |xs| && First(xs, p) == |xs| && p(x)
    ensures Without(xs[..k] + [x] + xs[k..], p) == xs
    ensures First(xs[..k] + [x] + xs[k..], p) == k
  {
    var ys := xs[..k] + [x] + xs[k..];
    if k == 0 {
      assert ys[1..] == xs;
    } else {
      assert ys[0] == xs[0] && ys[1..] == xs[1..][..k - 1] + [x] + xs[1..][k - 1..];
      assert First(xs[1..], p) == |xs[1..]|;
      WithoutInserted(xs[1..], k - 1, x, p);
    }
  }

  lemma EditedBack(ls: seq<string>, sc: Redirect)
    requires WellFormed(sc) && Clean(ls, '\n')
    requires FirstTagged(ls, HostsTag(sc.name)) == |ls| && FirstOpener(ls) < |ls|
    ensures var out, tag := Edited(ls, HostsLine(sc), HostsTag(sc.name)), HostsTag(sc.name);
      Without(out, IsTagged(tag)) == ls && FirstTagged(out, tag) < |out|
  {
    LineFacts(sc);
    PlacedIs(ls, sc);
    var x := Placed(ls, HostsLine(sc), HostsTag(sc.name));
    assert IsTagged(HostsTag(sc.name))(x);
    WithoutInserted(ls, FirstOpener(ls) + 1, x, IsTagged(HostsTag(sc.name)));
  }

  lemma RoundTripInBlock(content: string, sc: Redirect)
    requires WellFormed(sc) && !Find(content, HostsTag(sc.name)).1 && HasHostsBlock(content)
    ensures Remove(Apply(content, HostsLine(sc), HostsTag(sc.name)).0, HostsTag(sc.name)) == (content, true)
  {
    ApplyEdits(content, sc);
    EditedBack(Lines(content), sc);
    JoinSplit(content, '\n');
  }

  lemma OpenLine()
    ensures IsOpener()("hosts {")
  {
    var t := "hosts {";
    TrimIdle(t, Spaces);
    assert t[6..] == "{";
    assert t == "hosts" + " {";
    FieldsWord("hosts", " {");
  }

  lemma FreshOpens(content: string, sc: Redirect)
    requires WellFormed(sc) && !Find(content, HostsTag(sc.name)).1 && !HasHostsBlock(content)
    ensures HasHostsBlock(Apply(content, HostsLine(sc), HostsTag(sc.name)).0)
  {
    var want := HostsLine(sc);
    LineFacts(sc);
    BlockSplits(want);
    OpenLine();
    if TrimSpace(content) == "" {
      FirstExists(BlockLines(want), IsOpener(), 0);
    } else {
      var c := TrimRight(content, Newlines);
      assert c + "\n" + Block(want) == c + ['\n'] + Block(want);
      SplitAppend(c, Block(want), '\n');
      FirstExists(Lines(c) + BlockLines(want), IsOpener(), |Lines(c)|);
    }
  }

  /** Opening and then closing a schedule that was not there gives back the exact
      bytes if and only if the text already had a hosts block; when it had none,
      the block that was written stays behind. */
  lemma RoundTrip(content: string, sc: Redirect)
    requires WellFormed(sc) && !Find(content, HostsTag(sc.name)).1
    ensures Remove(Apply(content, HostsLine(sc), HostsTag(sc.name)).0, HostsTag(sc.name)).0 == content
            <==> HasHostsBlock(content)
  {
    if HasHostsBlock(content) {
      RoundTripInBlock(content, sc);
    } else {
      FreshOpens(content, sc);
      RemoveForeign(Apply(content, HostsLine(sc), HostsTag(sc.name)).0, sc.name, {sc.name});
    }
  }

  // --- any sequence of opens and closes ---------------------------------------------------

  datatype Edit = Open(sc: Redirect) | Close(name: string)

  function NameOf(e: Edit): string { if e.Open? then e.sc.name else e.name }

  predicate EditsOver(edits: seq<Edit>, names: set<string>) {
    forall i :: 0 <= i < |edits| ==> NameOf(edits[i]) in names && (edits[i].Open? ==> WellFormed(edits[i].sc))
  }

  function Step(content: string, e: Edit): string {
    match e
    case Open(sc) => Apply(content, HostsLine(sc), HostsTag(sc.name)).0
    case Close(n) => Remove(content, HostsTag(n)).0
  }

  function Run(content: string, edits: seq<Edit>): string
    decreases |edits|
  {
    if edits == [] then content else Run(Step(content, edits[0]), edits[1..])
  }

  // The text as every schedule sees it: a map from its name to its line.
  function MapStep(m: map<string, string>, e: Edit): map<string, string> {
    match e
    case Open(sc) => m[sc.name := HostsLine(sc)]
    case Close(n) => m - {n}
  }

  function MapRun(m: map<string, string>, edits: seq<Edit>): map<string, string>
    decreases |edits|
  {
    if edits == [] then m else MapRun(MapStep(m, edits[0]), edits[1..])
  }

  // The lines a schedule has by the map.
  function Holding(m: map<string, string>, n: string): seq<string> { if n in m then [m[n]] else [] }

  predicate Refines(content: string, m: map<string, string>, names: set<string>) {
    forall n :: n in names ==> HeldIn(content, HostsTag(n)) == Holding(m, n)
  }

  lemma StepRefines(content: string, e: Edit, m: map<string, string>, names: set<string>)
    requires ValidNames(names) && EditsOver([e], names) && Refines(content, m, names)
    ensures Refines(Step(content, e), MapStep(m, e), names)
  {
    assert [e][0] == e;
    forall n | n in names ensures HeldIn(Step(content, e), HostsTag(n)) == Holding(MapStep(m, e), n) {
      match e
      case Open(sc) => OpenRefines(content, sc, m, n);
      case Close(k) => CloseRefines(content, k, m, n);
    }
  }

  lemma OpenRefines(content: string, sc: Redirect, m: map<string, string>, n: string)
    requires WellFormed(sc) && ValidName(n) && HeldIn(content, HostsTag(n)) == Holding(m, n)
    ensures HeldIn(Apply(content, HostsLine(sc), HostsTag(sc.name)).0, HostsTag(n))
            == Holding(m[sc.name := HostsLine(sc)], n)
  {
    ApplyHeld(content, sc, n);
  }

  lemma CloseRefines(content: string, k: string, m: map<string, string>, n: string)
    requires ValidName(k) && ValidName(n) && HeldIn(content, HostsTag(n)) == Holding(m, n)
    ensures HeldIn(Remove(content, HostsTag(k)).0, HostsTag(n)) == Holding(m - {k}, n)
  {
    RemoveHeld(content, k, n);
  }

  /** For any sequence of opens and closes by any set of schedules, over any text
      in which each of them has at most one line, the text refines the map. */
  lemma {:induction false} RunRefines(content: string, edits: seq<Edit>, m: map<string, string>, names: set<string>)
    requires ValidNames(names) && EditsOver(edits, names) && Refines(content, m, names)
    ensures Refines(Run(content, edits), MapRun(m, edits), names)
    decreases |edits|
  {
    if edits != [] {
      assert EditsOver([edits[0]], names);
      StepRefines(content, edits[0], m, names);
      RunRefines(Step(content, edits[0]), edits[1..], MapStep(m, edits[0]), names);
    }
  }

  /** So finding a tag gives that schedule's last write, or nothing. */
  lemma FindAfterRun(content: string, edits: seq<Edit>, m: map<string, string>, names: set<string>, n: string)
    requires ValidNames(names) && EditsOver(edits, names) && Refines(content, m, names) && n in names
    ensures var now := MapRun(m, edits);
      Find(Run(content, edits), HostsTag(n)) == if n in now then (now[n], true) else ("", false)
  {
    RunRefines(content, edits, m, names);
    FindHeld(Run(content, edits), n);
  }

  /** And when there is a hosts block, all other lines keep their bytes and order. */
  lemma {:induction false} ForeignAfterRun(content: string, edits: seq<Edit>, names: set<string>)
    requires ValidNames(names) && EditsOver(edits, names) && HasHostsBlock(content)
    ensures ForeignIn(Run(content, edits), names) == ForeignIn(content, names)
    ensures HasHostsBlock(Run(content, edits))
    decreases |edits|
  {
    if edits != [] {
      match edits[0] {
        case Open(sc) => ApplyForeign(content, sc, names);
        case Close(n) => RemoveForeign(content, n, names);
      }
      ForeignAfterRun(Step(content, edits[0]), edits[1..], names);
    }
  }
}
