/** The line editor of the DNS-redirect mode: one tagged line in a text that
    other schedules and other people also write to. */
module HostsText {
  import opened Text

  const TAG_PREFIX := "# agentic-preview:"

  predicate Alnum(c: char) { 'a' <= c <= 'z' || 'A' <= c <= 'Z' || '0' <= c <= '9' }

  predicate NameChar(c: char) { Alnum(c) || c == '.' || c == '_' || c == '-' }

  // workIDRE: what a schedule may be called.
  predicate ValidName(n: string) {
    1 <= |n| <= 63 && Alnum(n[0]) && forall i :: 0 <= i < |n| ==> NameChar(n[i])
  }

  const SMALL := "abcdefghijklmnopqrstuvwxyz"
  const LARGE := "ABCDEFGHIJKLMNOPQRSTUVWXYZ"
  const DIGITS := "0123456789"

  predicate LetterOrDigit(c: char) { c in SMALL || c in LARGE || c in DIGITS }

  lemma SmallIs(c: char)
    ensures c in SMALL <==> 'a' <= c <= 'z'
  {
    assert forall i | 0 <= i < 26 :: SMALL[i] == 'a' + i as char;
    if 'a' <= c <= 'z' {
      assert c == SMALL[c as int - 'a' as int];
    }
  }

  lemma LargeIs(c: char)
    ensures c in LARGE <==> 'A' <= c <= 'Z'
  {
    assert forall i | 0 <= i < 26 :: LARGE[i] == 'A' + i as char;
    if 'A' <= c <= 'Z' {
      assert c == LARGE[c as int - 'A' as int];
    }
  }

  lemma DigitIs(c: char)
    ensures c in DIGITS <==> '0' <= c <= '9'
  {
    assert forall i | 0 <= i < 10 :: DIGITS[i] == '0' + i as char;
    if '0' <= c <= '9' {
      assert c == DIGITS[c as int - '0' as int];
    }
  }

  lemma AlnumIs(c: char)
    ensures Alnum(c) <==> LetterOrDigit(c)
  {
    SmallIs(c);
    LargeIs(c);
    DigitIs(c);
  }

  /** A name is a letter or a digit and then as many as sixty-two letters, digits, dots,
      underscores and dashes. */
  lemma NameShape(c: char, rest: string)
    ensures ValidName([c] + rest) <==>
            LetterOrDigit(c) && |rest| <= 62
            && forall i :: 0 <= i < |rest| ==> LetterOrDigit(rest[i]) || rest[i] in "._-"
  {
    var n := [c] + rest;
    AlnumIs(c);
    forall i | 0 <= i < |rest|
      ensures n[i + 1] == rest[i] && (NameChar(rest[i]) <==> LetterOrDigit(rest[i]) || rest[i] in "._-")
    {
      AlnumIs(rest[i]);
    }
  }

  // The part of a compiled DNS schedule that the text depends on.
  datatype Redirect = Redirect(name: string, hostname: string, redirectTo: string)

  // What compilation has established: a host name and a literal address, both
  // free of blanks, newlines and '#'.
  predicate WellFormed(sc: Redirect) {
    && ValidName(sc.name)
    && sc.hostname != "" && (forall i :: 0 <= i < |sc.hostname| ==> NameChar(sc.hostname[i]))
    && sc.redirectTo != "" && (forall i :: 0 <= i < |sc.redirectTo| ==>
                                 Alnum(sc.redirectTo[i]) || sc.redirectTo[i] == '.' || sc.redirectTo[i] == ':')
  }

  function HostsTag(name: string): string { TAG_PREFIX + name }

  function HostsLine(sc: Redirect): string {
    sc.redirectTo + " " + sc.hostname + " " + HostsTag(sc.name)
  }

  // --- lines ----------------------------------------------------------------------

  predicate Tagged(ln: string, tag: string) { HasSuffix(TrimSpace(ln), tag) }

  function Lines(content: string): seq<string> { Split(content, '\n') }

  function Unlines(lines: seq<string>): string { Join(lines, '\n') }

  function IsTagged(tag: string): string -> bool { (ln: string) => Tagged(ln, tag) }

  function FirstTagged(lines: seq<string>, tag: string): nat { First(lines, IsTagged(tag)) }

  // The line opening a hosts block: ends in '{' and its first field is "hosts".
  predicate Opener(ln: string) {
    var t := TrimSpace(ln);
    HasSuffix(t, "{") && Fields(t) != [] && Fields(t)[0] == "hosts"
  }

  function IsOpener(): string -> bool { (ln: string) => Opener(ln) }

  function FirstOpener(lines: seq<string>): nat { First(lines, IsOpener()) }

  predicate HasHostsBlock(content: string) { FirstOpener(Lines(content)) < |Lines(content)| }

  function IndentOf(s: string): string { TrimLeftIs(s, Blanks); s[..|s| - |TrimLeft(s, Blanks)|] }

  // How the lines after an opener indented by base are indented.
  function IndentFrom(rest: seq<string>, base: string): string {
    if rest == [] then base + "    "
    else
      var t := TrimSpace(rest[0]);
      if t == "" then IndentFrom(rest[1..], base)
      else if t != "}" && |IndentOf(rest[0])| > |base| then IndentOf(rest[0])
      else base + "    "
  }

  function IndentAt(lines: seq<string>, open: nat): string
    requires open < |lines|
  {
    IndentFrom(lines[open + 1..], IndentOf(lines[open]))
  }

  function Block(want: string): string { "hosts {\n    " + want + "\n    fallthrough\n}\n" }

  // --- the three operations, as functions of the text -------------------------------

  function Find(content: string, tag: string): (string, bool) {
    var lines := Lines(content);
    var i := FirstTagged(lines, tag);
    if i < |lines| then (TrimSpace(lines[i]), true) else ("", false)
  }

  function Apply(content: string, want: string, tag: string): (string, bool) {
    var lines := Lines(content);
    var i := FirstTagged(lines, tag);
    var o := FirstOpener(lines);
    if i < |lines| then
      if TrimSpace(lines[i]) == want then (content, false)
      else (Unlines(lines[i := IndentOf(lines[i]) + want]), true)
    else if o < |lines| then
      (Unlines(lines[..o + 1] + [IndentAt(lines, o) + want] + lines[o + 1..]), true)
    else if TrimSpace(content) == "" then (Block(want), true)
    else (TrimRight(content, Newlines) + "\n" + Block(want), true)
  }

  function Remove(content: string, tag: string): (string, bool) {
    var lines := Lines(content);
    if FirstTagged(lines, tag) < |lines| then (Unlines(Without(lines, IsTagged(tag))), true)
    else (content, false)
  }

  // --- the loops ----------------------------------------------------------------------

  method FindTaggedLine(content: string, tag: string) returns (line: string, found: bool)
    ensures (line, found) == Find(content, tag)
  {
    var lines := Split(content, '\n');
    for i := 0 to |lines|
      invariant forall j :: 0 <= j < i ==> !IsTagged(tag)(lines[j])
    {
      var t := TrimSpace(lines[i]);
      if HasSuffix(t, tag) {
        FirstIs(lines, IsTagged(tag), i);
        return t, true;
      }
    }
    FirstIs(lines, IsTagged(tag), |lines|);
    return "", false;
  }

  method HostsBlockAt(lines: seq<string>) returns (at: nat, ok: bool)
    ensures ok == (FirstOpener(lines) < |lines|)
    ensures ok ==> at == FirstOpener(lines)
  {
    for i := 0 to |lines|
      invariant forall j :: 0 <= j < i ==> !IsOpener()(lines[j])
    {
      var t := TrimSpace(lines[i]);
      if !HasSuffix(t, "{") {
        continue;
      }
      var f := Fields(t);
      if |f| > 0 && f[0] == "hosts" {
        FirstIs(lines, IsOpener(), i);
        return i, true;
      }
    }
    FirstIs(lines, IsOpener(), |lines|);
    return 0, false;
  }

  method BlockIndent(lines: seq<string>, open: nat) returns (indent: string)
    requires open < |lines|
    ensures indent == IndentAt(lines, open)
  {
    var base := IndentOf(lines[open]);
    var i := open + 1;
    while i < |lines|
      invariant open < i <= |lines|
      invariant IndentFrom(lines[i..], base) == IndentAt(lines, open)
    {
      assert lines[i..][0] == lines[i] && lines[i..][1..] == lines[i + 1..];
      var t := TrimSpace(lines[i]);
      if t == "" {
        i := i + 1;
        continue;
      }
      if t == "}" {
        break;
      }
      var indentHere := IndentOf(lines[i]);
      if |indentHere| > |base| {
        return indentHere;
      }
      break;
    }
    return base + "    ";
  }

  method ApplyTaggedLine(content: string, want: string, tag: string) returns (next: string, changed: bool)
    ensures (next, changed) == Apply(content, want, tag)
  {
    var lines := Split(content, '\n');
    for i := 0 to |lines|
      invariant forall j :: 0 <= j < i ==> !IsTagged(tag)(lines[j])
    {
      if HasSuffix(TrimSpace(lines[i]), tag) {
        FirstIs(lines, IsTagged(tag), i);
        if TrimSpace(lines[i]) == want {
          return content, false;
        }
        return Join(lines[i := IndentOf(lines[i]) + want], '\n'), true;
      }
    }
    FirstIs(lines, IsTagged(tag), |lines|);

    var open, ok := HostsBlockAt(lines);
    if ok {
      var indent := BlockIndent(lines, open);
      return Join(lines[..open + 1] + [indent + want] + lines[open + 1..], '\n'), true;
    }
    if TrimSpace(content) == "" {
      return Block(want), true;
    }
    return TrimRight(content, Newlines) + "\n" + Block(want), true;
  }

  lemma WithoutNext(out: seq<string>, lines: seq<string>, i: nat, p: string -> bool)
    requires i < |lines|
    ensures out + lines[i..] == (out + [lines[i]]) + lines[i + 1..]
    ensures out + Without(lines[i..], p)
         == if p(lines[i]) then out + lines[i + 1..] else (out + [lines[i]]) + Without(lines[i + 1..], p)
  {
  }

  // Where a removal stands at the i-th line.
  predicate Removing(lines: seq<string>, out: seq<string>, found: bool, i: nat, p: string -> bool)
    requires i <= |lines|
  {
    && found == (First(lines, p) < i)
    && Without(lines, p) == out + if found then lines[i..] else Without(lines[i..], p)
  }

  lemma RemovingNext(lines: seq<string>, out: seq<string>, found: bool, i: nat, p: string -> bool)
    requires i < |lines| && Removing(lines, out, found, i, p)
    ensures !found && p(lines[i]) ==> Removing(lines, out, true, i + 1, p)
    ensures found || !p(lines[i]) ==> Removing(lines, out + [lines[i]], found, i + 1, p)
  {
    WithoutNext(out, lines, i, p);
  }

  method RemoveTaggedLine(content: string, tag: string) returns (next: string, changed: bool)
    ensures (next, changed) == Remove(content, tag)
  {
    var lines := Split(content, '\n');
    var out: seq<string> := [];
    var found := false;
    ghost var tagged := IsTagged(tag);
    for i := 0 to |lines|
      invariant Removing(lines, out, found, i, tagged)
    {
      RemovingNext(lines, out, found, i, tagged);
      var hit := HasSuffix(TrimSpace(lines[i]), tag);
      assert hit == tagged(lines[i]);
      if !found && hit {
        found := true;
        continue;
      }
      out := out + [lines[i]];
    }
    if !found {
      return content, false;
    }
    assert out + lines[|lines|..] == out;
    return Join(out, '\n'), true;
  }

  // --- tags ------------------------------------------------------------------------------

  lemma PrefixFacts()
    ensures |TAG_PREFIX| == 18 && TAG_PREFIX[0] == '#'
    ensures forall i :: 1 <= i < 18 ==> TAG_PREFIX[i] != '#'
    ensures '\n' !in TAG_PREFIX
  {
  }

  /** No schedule's tag is a suffix of another schedule's line: a line carries
      the tag of at most one valid name. */
  lemma TagUnique(t: string, n: string, m: string)
    requires ValidName(n) && ValidName(m)
    requires HasSuffix(t, HostsTag(n)) && HasSuffix(t, HostsTag(m))
    ensures n == m
  {
    if |n| <= |m| {
      TagAligned(t, n, m);
    } else {
      TagAligned(t, m, n);
    }
  }

  lemma TagAligned(t: string, n: string, m: string)
    requires ValidName(n) && ValidName(m) && |n| <= |m|
    requires HasSuffix(t, HostsTag(n)) && HasSuffix(t, HostsTag(m))
    ensures n == m
  {
    PrefixFacts();
    var p := |m| - |n|;
    var a, b := HostsTag(n), HostsTag(m);
    assert a[0] == t[|t| - |a|] == b[p];
    assert forall q :: 0 <= q < |m| ==> b[18 + q] == m[q];
    assert p == 0;
    assert a == b;
    assert n == a[18..] && m == b[18..];
  }

  lemma LineFacts(sc: Redirect)
    requires WellFormed(sc)
    ensures '\n' !in HostsLine(sc) && Trimmed(HostsLine(sc), Spaces) && HostsLine(sc) != ""
    ensures HasSuffix(HostsLine(sc), HostsTag(sc.name))
    ensures |HostsTag(sc.name)| >= 19
  {
  }

  /** The line is a hosts entry: its first field is the address, its second the host name. */
  lemma LineReadsBack(sc: Redirect)
    requires WellFormed(sc)
    ensures |Fields(HostsLine(sc))| >= 2 && Fields(HostsLine(sc))[..2] == [sc.redirectTo, sc.hostname]
  {
    var tail := " " + HostsTag(sc.name);
    assert HostsLine(sc) == sc.redirectTo + ([' '] + (sc.hostname + tail));
    FieldsWord(sc.redirectTo, [' '] + (sc.hostname + tail));
    FieldsSpace(' ', sc.hostname + tail);
    FieldsWord(sc.hostname, tail);
  }

  /** A line of a first word and more, at any indentation, opens a hosts block if and only
      if the word is "hosts" and the line ends in a brace standing apart from it. */
  lemma OpenerWhen(a: string, w: string, rest: string, b: string)
    requires AllIn(a, Spaces) && AllIn(b, Spaces) && w != "" && Solid(w)
    requires rest != "" ==> IsSpace(rest[0]) && !IsSpace(rest[|rest| - 1])
    ensures Opener(a + w + rest + b) <==> w == "hosts" && rest != "" && rest[|rest| - 1] == '{'
  {
    var m := w + rest;
    assert a + w + rest + b == a + m + b;
    assert rest != "" ==> m[|m| - 1] == rest[|rest| - 1];
    assert m[0] == w[0];
    TrimPadded(a, m, b, Spaces);
    FieldsWord(w, rest);
    assert HasSuffix(m, "{") <==> m[|m| - 1] == '{' by {
      assert m[|m| - 1..] == [m[|m| - 1]];
    }
    assert rest == "" ==> m[|m| - 1] == w[|w| - 1];
  }

  predicate MadeOf(s: string, marks: string) {
    forall i :: 0 <= i < |s| ==> LetterOrDigit(s[i]) || s[i] in marks
  }

  lemma HostLetters(s: string)
    ensures (forall i :: 0 <= i < |s| ==> NameChar(s[i])) <==> MadeOf(s, "._-")
  {
    forall i | 0 <= i < |s| ensures NameChar(s[i]) <==> LetterOrDigit(s[i]) || s[i] in "._-" {
      AlnumIs(s[i]);
    }
  }

  lemma AddressLetters(s: string)
    ensures (forall i :: 0 <= i < |s| ==> Alnum(s[i]) || s[i] == '.' || s[i] == ':') <==> MadeOf(s, ".:")
  {
    forall i | 0 <= i < |s|
      ensures Alnum(s[i]) || s[i] == '.' || s[i] == ':' <==> LetterOrDigit(s[i]) || s[i] in ".:"
    {
      AlnumIs(s[i]);
    }
  }

  /** A schedule is well formed with any name, host name and literal address of the letters
      they are written with. */
  lemma WellFormedWhen(sc: Redirect)
    ensures WellFormed(sc) <==>
            && ValidName(sc.name) && sc.hostname != "" && MadeOf(sc.hostname, "._-")
            && sc.redirectTo != "" && MadeOf(sc.redirectTo, ".:")
  {
    HostLetters(sc.hostname);
    AddressLetters(sc.redirectTo);
  }
}
