/** What the line editor means: the text is a map from schedule name to the lines
    that schedule holds, and everybody else's lines are left as they were. */
module HostsRefinement {
  import opened Text
  import opened HostsText

  function Trimming(): string -> string { (ln: string) => TrimSpace(ln) }

  function Keeping(): string -> string { (ln: string) => ln }

  // The contents of the lines carrying a tag, in the order they stand.
  function Held(lines: seq<string>, tag: string): seq<string> { Select(lines, IsTagged(tag), Trimming()) }

  function HeldIn(content: string, tag: string): seq<string> { Held(Lines(content), tag) }

  function AfterFirst(q: seq<string>): seq<string> { if q == [] then [] else q[1..] }

  // A line that carries none of the schedules' tags.
  function IsForeign(names: set<string>): string -> bool {
    (ln: string) => forall n :: n in names ==> !IsTagged(HostsTag(n))(ln)
  }

  // Those lines, bytes and order kept.
  function Foreign(lines: seq<string>, names: set<string>): seq<string> {
    Select(lines, IsForeign(names), Keeping())
  }

  function ForeignIn(content: string, names: set<string>): seq<string> { Foreign(Lines(content), names) }

  lemma OneTag(ln: string, n: string, m: string)
    requires ValidName(n) && ValidName(m) && IsTagged(HostsTag(n))(ln)
    ensures IsTagged(HostsTag(m))(ln) <==> m == n
  {
    if Tagged(ln, HostsTag(m)) {
      TagUnique(TrimSpace(ln), n, m);
    }
  }

  // --- short lines carry no tag, and openers carry no tag ------------------------------

  lemma TrimShorter(ln: string)
    ensures |TrimSpace(ln)| <= |ln|
  {
    TrimParts(ln, Spaces);
  }

  lemma TagLength(name: string)
    requires ValidName(name)
    ensures 19 <= |HostsTag(name)|
  {
  }

  lemma ShortUntagged(ln: string, name: string)
    requires ValidName(name) && |ln| < 19
    ensures !Tagged(ln, HostsTag(name))
  {
    TrimShorter(ln);
    TagLength(name);
  }

  lemma OpenerUntagged(ln: string, name: string)
    requires ValidName(name) && Opener(ln)
    ensures !Tagged(ln, HostsTag(name))
  {
    TagLength(name);
    var t, tag := TrimSpace(ln), HostsTag(name);
    assert t[|t| - 1] == "{"[0];
    assert tag[|tag| - 1] == name[|name| - 1];
    assert NameChar(name[|name| - 1]);
    if |tag| <= |t| {
      assert t[|t| - |tag|..][|tag| - 1] == t[|t| - 1];
    }
  }

  // --- indentation ---------------------------------------------------------------------

  lemma IndentBlank(s: string)
    ensures AllIn(IndentOf(s), Blanks)
  {
    TrimLeftIs(s, Blanks);
  }

  lemma {:induction false} IndentFromBlank(rest: seq<string>, base: string)
    requires AllIn(base, Blanks)
    ensures AllIn(IndentFrom(rest, base), Blanks)
  {
    if rest != [] {
      IndentBlank(rest[0]);
      IndentFromBlank(rest[1..], base);
    }
  }

  /** An indented line trims back to the line. */
  lemma IndentedTrims(indent: string, want: string)
    requires AllIn(indent, Blanks) && Trimmed(want, Spaces) && '\n' !in want
    ensures TrimSpace(indent + want) == want && '\n' !in indent + want
  {
    TrimPadded(indent, want, "", Spaces);
    assert indent + want + "" == indent + want;
    forall i | 0 <= i < |indent| ensures indent[i] != '\n' {
      assert In(indent[i], Blanks);
    }
  }

  // --- the three shapes an apply takes --------------------------------------------------

  // The line an apply leaves carrying the tag, given the lines before it.
  function Placed(ls: seq<string>, want: string, tag: string): string {
    var i, o := FirstTagged(ls, tag), FirstOpener(ls);
    if i < |ls| then if TrimSpace(ls[i]) == want then ls[i] else IndentOf(ls[i]) + want
    else if o < |ls| then IndentAt(ls, o) + want
    else "    " + want
  }

  lemma PlacedIs(ls: seq<string>, sc: Redirect)
    requires WellFormed(sc) && Clean(ls, '\n')
    ensures var x := Placed(ls, HostsLine(sc), HostsTag(sc.name));
      TrimSpace(x) == HostsLine(sc) && '\n' !in x
  {
    var want, tag := HostsLine(sc), HostsTag(sc.name);
    LineFacts(sc);
    var i, o := FirstTagged(ls, tag), FirstOpener(ls);
    if i < |ls| {
      IndentBlank(ls[i]);
      IndentedTrims(IndentOf(ls[i]), want);
    } else if o < |ls| {
      IndentBlank(ls[o]);
      IndentFromBlank(ls[o + 1..], IndentOf(ls[o]));
      IndentedTrims(IndentAt(ls, o), want);
    } else {
      IndentedTrims("    ", want);
    }
  }

  // Where the line goes when the text already has a place for it.
  function Edited(ls: seq<string>, want: string, tag: string): seq<string> {
    var i, o, x := FirstTagged(ls, tag), FirstOpener(ls), Placed(ls, want, tag);
    if i < |ls| then ls[..i] + [x] + ls[i + 1..]
    else if o < |ls| then ls[..o + 1] + [x] + ls[o + 1..]
    else ls
  }

  lemma CutClean(ls: seq<string>, i: nat, x: string, j: nat)
    requires i <= |ls| && j <= |ls| && Clean(ls, '\n') && '\n' !in x
    ensures Lines(Unlines(ls[..i] + [x] + ls[j..])) == ls[..i] + [x] + ls[j..]
  {
    var out := ls[..i] + [x] + ls[j..];
    forall k | 0 <= k < |out| ensures '\n' !in out[k] {
      assert out[k] == if k < i then ls[k] else if k == i then x else ls[j + k - i - 1];
    }
    SplitJoin(out, '\n');
  }

  lemma ApplyEdits(content: string, sc: Redirect)
    requires WellFormed(sc)
    requires var ls := Lines(content); FirstTagged(ls, HostsTag(sc.name)) < |ls| || FirstOpener(ls) < |ls|
    ensures Lines(Apply(content, HostsLine(sc), HostsTag(sc.name)).0)
         == Edited(Lines(content), HostsLine(sc), HostsTag(sc.name))
  {
    var ls, want, tag := Lines(content), HostsLine(sc), HostsTag(sc.name);
    PlacedIs(ls, sc);
    if FirstTagged(ls, tag) < |ls| {
      ApplyReplaces(content, want, tag);
    } else {
      CutClean(ls, FirstOpener(ls) + 1, Placed(ls, want, tag), FirstOpener(ls) + 1);
    }
  }

  lemma ApplyReplaces(content: string, want: string, tag: string)
    requires var ls := Lines(content); FirstTagged(ls, tag) < |ls| && '\n' !in Placed(ls, want, tag)
    ensures Lines(Apply(content, want, tag).0) == Edited(Lines(content), want, tag)
  {
    var ls := Lines(content);
    var i, x := FirstTagged(ls, tag), Placed(ls, want, tag);
    CutClean(ls, i, x, i + 1);
    UpdateIs(ls, i, x);
  }

  lemma UpdateIs(ls: seq<string>, i: nat, x: string)
    requires i < |ls|
    ensures ls[i := x] == ls[..i] + [x] + ls[i + 1..]
  {
  }

  // The five parts of a fresh block.
  function BlockLines(want: string): seq<string> {
    ["hosts {", "    " + want, "    fallthrough", "}", ""]
  }

  lemma BlockSplits(want: string)
    requires '\n' !in want
    ensures Lines(Block(want)) == BlockLines(want)
  {
    var ps := BlockLines(want);
    assert Clean(ps, '\n');
    SplitJoin(ps, '\n');
    JoinCons(ps[0], ps[1..]);
    JoinCons(ps[1], ps[2..]);
    JoinCons(ps[2], ps[3..]);
    JoinCons(ps[3], ps[4..]);
    assert ps == [ps[0]] + ps[1..] && ps[1..] == [ps[1]] + ps[2..];
    assert ps[2..] == [ps[2]] + ps[3..] && ps[3..] == [ps[3]] + ps[4..];
    assert Unlines(ps[4..]) == "";
    BlockSpelled(want);
    assert Unlines(ps) == Block(want);
  }

  lemma BlockSpelled(want: string)
    ensures Block(want) == "hosts {" + "\n" + ("    " + want + "\n" + ("    fallthrough" + "\n" + ("}" + "\n" + "")))
  {
  }

  lemma JoinCons(ln: string, rest: seq<string>)
    requires rest != []
    ensures Unlines([ln] + rest) == ln + "\n" + Unlines(rest)
  {
  }

  lemma ShortNone(ls: seq<string>, m: string)
    requires ValidName(m) && forall j :: 0 <= j < |ls| ==> |ls[j]| < 19
    ensures Held(ls, HostsTag(m)) == []
  {
    forall j | 0 <= j < |ls| ensures !IsTagged(HostsTag(m))(ls[j]) {
      ShortUntagged(ls[j], m);
    }
    SelectNone(ls, IsTagged(HostsTag(m)), Trimming());
  }

  lemma OneHeld(a: seq<string>, x: string, b: seq<string>, n: string, m: string)
    requires ValidName(n) && ValidName(m) && IsTagged(HostsTag(n))(x)
    requires Held(a, HostsTag(m)) == [] && Held(b, HostsTag(m)) == []
    ensures Held(a + [x] + b, HostsTag(m)) == if m == n then [TrimSpace(x)] else []
  {
    OneTag(x, n, m);
    SelectAround(a, x, b, IsTagged(HostsTag(m)), Trimming());
  }

  lemma BlockHeld(sc: Redirect, m: string)
    requires WellFormed(sc) && ValidName(m)
    ensures Held(BlockLines(HostsLine(sc)), HostsTag(m)) == if m == sc.name then [HostsLine(sc)] else []
  {
    var ps := BlockLines(HostsLine(sc));
    BlockEdges(HostsLine(sc), m);
    BlockMiddle(sc);
    OneHeld(ps[..1], ps[1], ps[2..], sc.name, m);
    Around(ps, 1);
  }

  lemma BlockEdges(want: string, m: string)
    requires ValidName(m)
    ensures Held(BlockLines(want)[..1], HostsTag(m)) == [] && Held(BlockLines(want)[2..], HostsTag(m)) == []
  {
    ShortNone(BlockLines(want)[..1], m);
    ShortNone(BlockLines(want)[2..], m);
  }

  lemma BlockMiddle(sc: Redirect)
    requires WellFormed(sc)
    ensures var x := BlockLines(HostsLine(sc))[1];
      IsTagged(HostsTag(sc.name))(x) && TrimSpace(x) == HostsLine(sc)
  {
    LineFacts(sc);
    IndentedTrims("    ", HostsLine(sc));
  }

  // Trailing newlines are empty lines, which carry no tag.
  lemma {:induction false} TrimNewlinesHeld(content: string, m: string)
    requires ValidName(m)
    ensures HeldIn(TrimRight(content, Newlines), HostsTag(m)) == HeldIn(content, HostsTag(m))
  {
    if content != [] && In(content[|content| - 1], Newlines) {
      var c := content[..|content| - 1];
      TrimNewlinesHeld(c, m);
      NewlineHeld(c, m);
      assert content == c + ['\n'];
    }
  }

  lemma NewlineHeld(c: string, m: string)
    requires ValidName(m)
    ensures HeldIn(c + ['\n'], HostsTag(m)) == HeldIn(c, HostsTag(m))
  {
    assert c + ['\n'] + "" == c + ['\n'];
    SplitAppend(c, "", '\n');
    SelectConcat(Lines(c), [""], IsTagged(HostsTag(m)), Trimming());
    ShortNone([""], m);
  }

  // A text of white space holds nothing.
  lemma {:induction false} SpacesHeld(content: string, m: string)
    requires ValidName(m) && AllIn(content, Spaces)
    ensures HeldIn(content, HostsTag(m)) == []
  {
    var ls, tag := Lines(content), HostsTag(m);
    SplitChars(content, '\n', Spaces);
    TagLength(m);
    forall j | 0 <= j < |ls| ensures !IsTagged(tag)(ls[j]) {
      assert ls[j] + "" + "" == ls[j];
      TrimPadded(ls[j], "", "", Spaces);
    }
    SelectNone(ls, IsTagged(tag), Trimming());
  }

  lemma {:induction false} SplitChars(s: string, sep: char, cut: Cut)
    requires AllIn(s, cut)
    ensures forall j :: 0 <= j < |Split(s, sep)| ==> AllIn(Split(s, sep)[j], cut)
  {
    if s != [] {
      SplitChars(s[1..], sep, cut);
    }
  }

  // --- what the operations do to what each schedule holds --------------------------------

  /** Replacing a schedule's first line with x. */
  lemma ReplaceHeld(ls: seq<string>, x: string, n: string, m: string)
    requires ValidName(n) && ValidName(m) && FirstTagged(ls, HostsTag(n)) < |ls|
    requires IsTagged(HostsTag(n))(x)
    ensures var i := FirstTagged(ls, HostsTag(n));
      Held(ls[..i] + [x] + ls[i + 1..], HostsTag(m))
      == if m == n then [TrimSpace(x)] + AfterFirst(Held(ls, HostsTag(m))) else Held(ls, HostsTag(m))
  {
    var i := FirstTagged(ls, HostsTag(n));
    OneTag(x, n, m);
    OneTag(ls[i], n, m);
    if m == n {
      SelectHead(ls, IsTagged(HostsTag(m)), Trimming());
      SelectReplace(ls, i, x, IsTagged(HostsTag(m)), Trimming());
    } else {
      SelectSwap(ls, i, x, IsTagged(HostsTag(m)), Trimming());
    }
  }

  /** Inserting a schedule's line x where it had none. */
  lemma InsertHeld(ls: seq<string>, k: nat, x: string, n: string, m: string)
    requires ValidName(n) && ValidName(m) && k <= |ls|
    requires FirstTagged(ls, HostsTag(n)) == |ls| && IsTagged(HostsTag(n))(x)
    ensures Held(ls[..k] + [x] + ls[k..], HostsTag(m))
         == if m == n then [TrimSpace(x)] else Held(ls, HostsTag(m))
  {
    OneTag(x, n, m);
    SelectInsert(ls, k, x, IsTagged(HostsTag(m)), Trimming());
    if m == n {
      SelectNone(ls[..k], IsTagged(HostsTag(m)), Trimming());
      SelectNone(ls[k..], IsTagged(HostsTag(m)), Trimming());
    }
  }

  lemma NoneHeld(ls: seq<string>, tag: string)
    requires FirstTagged(ls, tag) == |ls|
    ensures Held(ls, tag) == []
  {
    SelectNone(ls, IsTagged(tag), Trimming());
  }

  lemma EditedHeld(ls: seq<string>, sc: Redirect, m: string)
    requires WellFormed(sc) && ValidName(m) && Clean(ls, '\n')
    requires FirstTagged(ls, HostsTag(sc.name)) < |ls| || FirstOpener(ls) < |ls|
    ensures Held(Edited(ls, HostsLine(sc), HostsTag(sc.name)), HostsTag(m))
         == if m == sc.name then [HostsLine(sc)] + AfterFirst(Held(ls, HostsTag(m))) else Held(ls, HostsTag(m))
  {
    var tag := HostsTag(sc.name);
    var x := Placed(ls, HostsLine(sc), tag);
    LineFacts(sc);
    PlacedIs(ls, sc);
    assert IsTagged(tag)(x) && TrimSpace(x) == HostsLine(sc);
    if FirstTagged(ls, tag) < |ls| {
      ReplaceHeld(ls, x, sc.name, m);
    } else {
      NoneHeld(ls, tag);
      InsertHeld(ls, FirstOpener(ls) + 1, x, sc.name, m);
    }
  }

  /** Applying a schedule's line puts it first among that schedule's lines and
      leaves every other schedule's lines alone. */
  lemma ApplyHeld(content: string, sc: Redirect, m: string)
    requires WellFormed(sc) && ValidName(m)
    ensures HeldIn(Apply(content, HostsLine(sc), HostsTag(sc.name)).0, HostsTag(m))
         == if m == sc.name then [HostsLine(sc)] + AfterFirst(HeldIn(content, HostsTag(m)))
            else HeldIn(content, HostsTag(m))
  {
    var ls := Lines(content);
    if FirstTagged(ls, HostsTag(sc.name)) < |ls| || FirstOpener(ls) < |ls| {
      ApplyEdits(content, sc);
      EditedHeld(ls, sc, m);
    } else {
      NoneHeld(ls, HostsTag(sc.name));
      ApplyFreshHeld(content, sc, m);
    }
  }

  lemma ApplyFreshHeld(content: string, sc: Redirect, m: string)
    requires WellFormed(sc) && ValidName(m)
    requires var ls := Lines(content); FirstTagged(ls, HostsTag(sc.name)) == |ls| && FirstOpener(ls) == |ls|
    ensures HeldIn(Apply(content, HostsLine(sc), HostsTag(sc.name)).0, HostsTag(m))
         == HeldIn(content, HostsTag(m)) + if m == sc.name then [HostsLine(sc)] else []
  {
    var want, tagM := HostsLine(sc), HostsTag(m);
    LineFacts(sc);
    BlockSplits(want);
    BlockHeld(sc, m);
    if TrimSpace(content) == "" {
      TrimParts(content, Spaces);
      assert AllIn(content, Spaces);
      SpacesHeld(content, m);
    } else {
      var c := TrimRight(content, Newlines);
      TrimNewlinesHeld(content, m);
      assert c + "\n" + Block(want) == c + ['\n'] + Block(want);
      SplitAppend(c, Block(want), '\n');
      SelectConcat(Lines(c), BlockLines(want), IsTagged(tagM), Trimming());
    }
  }

  lemma WithoutHeld(ls: seq<string>, n: string, m: string)
    requires ValidName(n) && ValidName(m) && FirstTagged(ls, HostsTag(n)) < |ls|
    ensures Held(Without(ls, IsTagged(HostsTag(n))), HostsTag(m))
         == if m == n then AfterFirst(Held(ls, HostsTag(m))) else Held(ls, HostsTag(m))
  {
    if m == n {
      SelectWithout(ls, IsTagged(HostsTag(n)), Trimming());
    } else {
      OneTag(ls[FirstTagged(ls, HostsTag(n))], n, m);
      SelectWithoutOther(ls, IsTagged(HostsTag(n)), IsTagged(HostsTag(m)), Trimming());
    }
  }

  /** Removing takes exactly the first of that schedule's lines and nobody else's. */
  lemma RemoveHeld(content: string, n: string, m: string)
    requires ValidName(n) && ValidName(m)
    ensures HeldIn(Remove(content, HostsTag(n)).0, HostsTag(m))
         == if m == n then AfterFirst(HeldIn(content, HostsTag(m))) else HeldIn(content, HostsTag(m))
  {
    var tag, tagM := HostsTag(n), HostsTag(m);
    var ls := Lines(content);
    if FirstTagged(ls, tag) < |ls| {
      WithoutHeld(ls, n, m);
      WithoutIs(ls, IsTagged(tag));
      var w := Without(ls, IsTagged(tag));
      if w == [] {
        ShortUntagged("", m);
      } else {
        SplitJoin(w, '\n');
      }
    } else {
      NoneHeld(ls, tag);
    }
  }

  /** Finding a tag gives the first of the lines that schedule holds, or nothing. */
  lemma FindHeld(content: string, n: string)
    requires ValidName(n)
    ensures var q := HeldIn(content, HostsTag(n));
      Find(content, HostsTag(n)) == if q == [] then ("", false) else (q[0], true)
  {
    var tag := HostsTag(n);
    var ls := Lines(content);
    var i := FirstTagged(ls, tag);
    if i < |ls| {
      SelectHead(ls, IsTagged(tag), Trimming());
    } else {
      NoneHeld(ls, tag);
    }
  }
}
