/** Where the line editor puts a schedule's line, and how it is indented there. */
module HostsPlaces {
  import opened Text
  import opened HostsText
  import opened HostsRefinement

  // A text's lines once a schedule's line has been applied to it.
  function Applied(content: string, sc: Redirect): seq<string> {
    Lines(Apply(content, HostsLine(sc), HostsTag(sc.name)).0)
  }

  // --- indentation --------------------------------------------------------------------------------

  // The line is its indentation, of blanks and tabs alone, and then something else.
  predicate Indents(ln: string, indent: string) {
    && |indent| <= |ln| && indent == ln[..|indent|] && (forall i :: 0 <= i < |indent| ==> indent[i] in " \t")
    && (|indent| < |ln| ==> ln[|indent|] !in " \t")
  }

  lemma IndentIs(ln: string, indent: string)
    ensures Indents(ln, indent) <==> indent == IndentOf(ln)
  {
    TrimLeftIs(ln, Blanks);
    var own := IndentOf(ln);
    assert forall i | 0 <= i < |own| :: In(own[i], Blanks) && ln[i] == own[i];
    assert |own| < |ln| ==> TrimLeft(ln, Blanks)[0] == ln[|own|];
  }

  lemma PaddedIndents(indent: string, want: string)
    requires AllIn(indent, Blanks) && want != "" && Trimmed(want, Spaces)
    ensures Indents(indent + want, indent)
  {
    var ln := indent + want;
    assert ln[..|indent|] == indent && ln[|indent|] == want[0];
    assert forall i | 0 <= i < |indent| :: In(indent[i], Blanks);
  }

  predicate HasText(ln: string) { TrimSpace(ln) != "" }

  function IsText(): string -> bool { (ln: string) => HasText(ln) }

  // The first line after the opener with text in it, if there is one.
  function Next(ls: seq<string>, o: nat): nat
    requires o < |ls|
  {
    o + 1 + First(ls[o + 1..], IsText())
  }

  // It is an entry of the block if it is not its end, and is indented further.
  predicate Entry(ls: seq<string>, o: nat) {
    o < |ls| && Next(ls, o) < |ls| && TrimSpace(ls[Next(ls, o)]) != "}"
    && |IndentOf(ls[Next(ls, o)])| > |IndentOf(ls[o])|
  }

  lemma {:induction false} IndentFromIs(rest: seq<string>, base: string)
    ensures var n := First(rest, IsText());
      IndentFrom(rest, base) == if n < |rest| && TrimSpace(rest[n]) != "}" && |IndentOf(rest[n])| > |base|
                                then IndentOf(rest[n]) else base + "    "
  {
    if rest != [] && !HasText(rest[0]) {
      IndentFromIs(rest[1..], base);
    }
  }

  // --- the three places ---------------------------------------------------------------------------

  /** A schedule that has a line keeps its place: only that line changes, and not its
      indentation. */
  lemma ReplacesInPlace(content: string, sc: Redirect, indent: string)
    requires WellFormed(sc) && FirstTagged(Lines(content), HostsTag(sc.name)) < |Lines(content)|
    ensures var ls, ls', i := Lines(content), Applied(content, sc), FirstTagged(Lines(content), HostsTag(sc.name));
      && |ls'| == |ls| && (forall j :: 0 <= j < |ls| && j != i ==> ls'[j] == ls[j])
      && TrimSpace(ls'[i]) == HostsLine(sc)
      && (Indents(ls[i], indent) ==> ls'[i] == ls[i] || ls'[i] == indent + HostsLine(sc))
  {
    var ls := Lines(content);
    ApplyEdits(content, sc);
    PlacedIs(ls, sc);
    IndentIs(ls[FirstTagged(ls, HostsTag(sc.name))], indent);
  }

  lemma InsertedLine(ls: seq<string>, o: nat, want: string)
    requires o < |ls| && want != "" && Trimmed(want, Spaces) && '\n' !in want
    ensures var x := IndentAt(ls, o) + want;
      TrimSpace(x) == want && if Entry(ls, o) then Indents(x, IndentOf(ls[Next(ls, o)]))
                              else x == IndentOf(ls[o]) + "    " + want
  {
    IndentBlank(ls[o]);
    IndentFromBlank(ls[o + 1..], IndentOf(ls[o]));
    IndentedTrims(IndentAt(ls, o), want);
    IndentFromIs(ls[o + 1..], IndentOf(ls[o]));
    if Entry(ls, o) {
      IndentBlank(ls[Next(ls, o)]);
      PaddedIndents(IndentOf(ls[Next(ls, o)]), want);
    }
  }

  lemma Inserts(content: string, sc: Redirect)
    requires WellFormed(sc) && FirstTagged(Lines(content), HostsTag(sc.name)) == |Lines(content)|
    requires HasHostsBlock(content)
    ensures var ls, o := Lines(content), FirstOpener(Lines(content));
      Applied(content, sc) == ls[..o + 1] + [IndentAt(ls, o) + HostsLine(sc)] + ls[o + 1..]
  {
    ApplyEdits(content, sc);
  }

  /** A schedule that has none gets one right below the opener of the first hosts block, at
      the indentation of the block's next entry, or else four blanks in from the opener;
      every other line stays as it is. */
  lemma InsertsAfterOpener(content: string, sc: Redirect, indent: string)
    requires WellFormed(sc) && FirstTagged(Lines(content), HostsTag(sc.name)) == |Lines(content)|
    requires HasHostsBlock(content)
    requires var ls := Lines(content); Indents(ls[FirstOpener(ls)], indent)
    ensures var ls, ls', o := Lines(content), Applied(content, sc), FirstOpener(Lines(content));
      && |ls'| == |ls| + 1 && ls'[..o + 1] == ls[..o + 1] && ls'[o + 2..] == ls[o + 1..]
      && TrimSpace(ls'[o + 1]) == HostsLine(sc)
      && if Entry(ls, o) then Indents(ls'[o + 1], IndentOf(ls[Next(ls, o)]))
         else ls'[o + 1] == indent + "    " + HostsLine(sc)
  {
    var ls := Lines(content);
    var o := FirstOpener(ls);
    Inserts(content, sc);
    LineFacts(sc);
    IndentIs(ls[o], indent);
    InsertedLine(ls, o, HostsLine(sc));
  }

  /** Where there is no hosts block a new one follows what was there, less its last line
      ends: an opener, the line, a way on for every other name, and an end. */
  lemma AppendsBlock(content: string, sc: Redirect)
    requires WellFormed(sc) && FirstTagged(Lines(content), HostsTag(sc.name)) == |Lines(content)|
    requires !HasHostsBlock(content)
    ensures var was := if TrimSpace(content) == "" then [] else Lines(TrimRight(content, Newlines));
      Applied(content, sc) == was + ["hosts {", "    " + HostsLine(sc), "    fallthrough", "}", ""]
  {
    var want := HostsLine(sc);
    LineFacts(sc);
    BlockSplits(want);
    if TrimSpace(content) != "" {
      var c := TrimRight(content, Newlines);
      assert c + "\n" + Block(want) == c + ['\n'] + Block(want);
      SplitAppend(c, Block(want), '\n');
    }
  }
}
