/** The few string operations the program leans on, with the facts every other
    module needs about them: trimming, splitting and joining on one separator,
    whitespace-separated fields and suffix tests. */
module Text {

  // The character classes the program trims by.
  datatype Cut = Spaces | Blanks | Newlines | Dashes

  predicate In(c: char, cut: Cut) {
    match cut
    case Spaces => IsSpace(c)
    case Blanks => c == ' ' || c == '\t'
    case Newlines => c == '\n'
    case Dashes => c == '-'
  }

  // unicode.IsSpace, which is what TrimSpace and Fields cut at.
  predicate IsSpace(c: char) {
    || '\t' <= c <= '\r' || c == ' ' || c == '\U{85}' || c == '\U{A0}' || c == '\U{1680}'
    || '\U{2000}' <= c <= '\U{200A}' || c == '\U{2028}' || c == '\U{2029}' || c == '\U{202F}'
    || c == '\U{205F}' || c == '\U{3000}'
  }

  /** Of ASCII, that is the blank, the tab, the line end and what is next to it. */
  lemma SpacesAre(c: char)
    requires c < '\U{80}'
    ensures IsSpace(c) <==> c in " \t\n\r" || c == '\U{B}' || c == '\U{C}'
  {
  }

  predicate AllIn(s: string, cut: Cut) {
    forall i :: 0 <= i < |s| ==> In(s[i], cut)
  }

  function TrimLeft(s: string, cut: Cut): string {
    if s != [] && In(s[0], cut) then TrimLeft(s[1..], cut) else s
  }

  function TrimRight(s: string, cut: Cut): string {
    if s != [] && In(s[|s| - 1], cut) then TrimRight(s[..|s| - 1], cut) else s
  }

  lemma {:induction false} TrimLeftIs(s: string, cut: Cut)
    ensures var r := TrimLeft(s, cut);
      && |r| <= |s| && r == s[|s| - |r|..]
      && AllIn(s[..|s| - |r|], cut)
      && (r == [] || !In(r[0], cut))
  {
    if s != [] && In(s[0], cut) {
      var t := s[1..];
      TrimLeftIs(t, cut);
      var r := TrimLeft(t, cut);
      assert TrimLeft(s, cut) == r && s[|s| - |r|..] == t[|t| - |r|..];
      var was, lead := t[..|t| - |r|], s[..|s| - |r|];
      forall i | 0 <= i < |lead| ensures In(lead[i], cut) {
        assert i > 0 ==> lead[i] == was[i - 1];
      }
    }
  }

  lemma {:induction false} TrimRightIs(s: string, cut: Cut)
    ensures var r := TrimRight(s, cut);
      && |r| <= |s| && r == s[..|r|]
      && AllIn(s[|r|..], cut)
      && (r == [] || !In(r[|r| - 1], cut))
  {
    if s != [] && In(s[|s| - 1], cut) {
      var t := s[..|s| - 1];
      TrimRightIs(t, cut);
      var r := TrimRight(t, cut);
      assert s[|r|..] == t[|r|..] + [s[|s| - 1]];
    }
  }

  function Trim(s: string, cut: Cut): string { TrimRight(TrimLeft(s, cut), cut) }

  function TrimSpace(s: string): string { Trim(s, Spaces) }

  // A string that trimming leaves alone.
  predicate Trimmed(s: string, cut: Cut) {
    s == [] || (!In(s[0], cut) && !In(s[|s| - 1], cut))
  }

  lemma {:induction false} TrimLeftPad(a: string, x: string, cut: Cut)
    requires AllIn(a, cut) && (x == [] || !In(x[0], cut))
    ensures TrimLeft(a + x, cut) == x
  {
    if a == [] {
      assert a + x == x;
    } else {
      assert (a + x)[1..] == a[1..] + x;
      TrimLeftPad(a[1..], x, cut);
    }
  }

  lemma {:induction false} TrimRightPad(x: string, b: string, cut: Cut)
    requires AllIn(b, cut) && (x == [] || !In(x[|x| - 1], cut))
    ensures TrimRight(x + b, cut) == x
  {
    if b == [] {
      assert x + b == x;
    } else {
      assert (x + b)[..|x + b| - 1] == x + b[..|b| - 1];
      TrimRightPad(x, b[..|b| - 1], cut);
    }
  }

  /** Trimming a padded core gives back the core: the characterisation every
      other fact about Trim follows from. */
  lemma {:induction false} TrimPadded(a: string, m: string, b: string, cut: Cut)
    requires AllIn(a, cut) && AllIn(b, cut) && Trimmed(m, cut)
    ensures Trim(a + m + b, cut) == m
  {
    if m == [] {
      assert a + m + b == (a + b) + "";
      TrimLeftPad(a + b, "", cut);
    } else {
      assert a + m + b == a + (m + b);
      TrimLeftPad(a, m + b, cut);
      TrimRightPad(m, b, cut);
    }
  }

  /** What Trim removes, on either side. */
  ghost function Lead(s: string, cut: Cut): string {
    TrimLeftIs(s, cut);
    s[..|s| - |TrimLeft(s, cut)|]
  }

  ghost function Trail(s: string, cut: Cut): string {
    TrimRightIs(TrimLeft(s, cut), cut);
    TrimLeft(s, cut)[|Trim(s, cut)|..]
  }

  lemma TrimParts(s: string, cut: Cut)
    ensures AllIn(Lead(s, cut), cut) && AllIn(Trail(s, cut), cut) && Trimmed(Trim(s, cut), cut)
    ensures s == Lead(s, cut) + Trim(s, cut) + Trail(s, cut)
  {
    TrimLeftIs(s, cut);
    var l := TrimLeft(s, cut);
    TrimRightIs(l, cut);
    CutTwice(s, |s| - |l|, |Trim(s, cut)|);
    if Trim(s, cut) != [] {
      assert Trim(s, cut)[0] == l[0];
    }
  }

  lemma CutTwice(s: string, i: nat, j: nat)
    requires i <= |s| && j <= |s| - i
    ensures s == s[..i] + s[i..][..j] + s[i..][j..]
  {
  }

  lemma {:induction false} TrimIdle(s: string, cut: Cut)
    requires Trimmed(s, cut)
    ensures Trim(s, cut) == s
  {
  }

  // --- lower case -----------------------------------------------------------------

  // strings.ToLower, rune by rune, as far as an ASCII result goes: besides A to Z
  // only the Kelvin sign and the dotted capital I become ASCII. A rune whose lower
  // case is not ASCII is left as it is.
  function LowerRune(c: char): char {
    if 'A' <= c <= 'Z' then c - 'A' + 'a'
    else if c == '\U{212A}' then 'k'
    else if c == '\U{130}' then 'i'
    else c
  }

  /** The capital letters become the small ones, and the rest of ASCII stays as it is. */
  lemma LowerLetters(c: char)
    requires c < '\U{80}'
    ensures var large, small := "ABCDEFGHIJKLMNOPQRSTUVWXYZ", "abcdefghijklmnopqrstuvwxyz";
      && (forall k :: 0 <= k < 26 && c == large[k] ==> LowerRune(c) == small[k])
      && (c !in large ==> LowerRune(c) == c)
  {
    var large, small := "ABCDEFGHIJKLMNOPQRSTUVWXYZ", "abcdefghijklmnopqrstuvwxyz";
    assert forall k | 0 <= k < 26 :: large[k] == 'A' + k as char;
    assert forall k | 0 <= k < 26 :: small[k] == 'a' + k as char;
    if 'A' <= c <= 'Z' {
      assert c == large[c as int - 'A' as int];
    }
  }

  function ToLower(s: string): string {
    if s == [] then [] else [LowerRune(s[0])] + ToLower(s[1..])
  }

  // --- suffixes ---------------------------------------------------------------

  predicate HasSuffix(s: string, t: string) { |t| <= |s| && s[|s| - |t|..] == t }

  // --- split and join -----------------------------------------------------------

  /** strings.Split on a one-character separator: never empty, no part holds it. */
  function Split(s: string, sep: char): (r: seq<string>)
    ensures |r| >= 1
    ensures forall i :: 0 <= i < |r| ==> sep !in r[i]
  {
    if s == [] then [""] else Push(s[0], sep, Split(s[1..], sep))
  }

  // One more character in front of a split text.
  function Push(c: char, sep: char, parts: seq<string>): seq<string>
    requires parts != []
  {
    if c == sep then [""] + parts else [[c] + parts[0]] + parts[1..]
  }

  lemma PushAppend(c: char, sep: char, p: seq<string>, q: seq<string>)
    requires p != []
    ensures Push(c, sep, p + q) == Push(c, sep, p) + q
  {
  }

  function Join(parts: seq<string>, sep: char): string {
    if parts == [] then ""
    else if |parts| == 1 then parts[0]
    else parts[0] + [sep] + Join(parts[1..], sep)
  }

  predicate Clean(parts: seq<string>, sep: char) {
    forall i :: 0 <= i < |parts| ==> sep !in parts[i]
  }

  lemma {:induction false} JoinSplit(s: string, sep: char)
    ensures Join(Split(s, sep), sep) == s
  {
    if s != [] {
      JoinSplit(s[1..], sep);
      var rest := Split(s[1..], sep);
      if s[0] == sep {
        assert ([""] + rest)[1..] == rest;
        assert "" + [sep] + s[1..] == s;
      } else {
        var r := [[s[0]] + rest[0]] + rest[1..];
        assert r[1..] == rest[1..];
        assert [s[0]] + s[1..] == s;
        if |rest| > 1 {
          assert [s[0]] + rest[0] + [sep] + Join(rest[1..], sep)
              == [s[0]] + (rest[0] + [sep] + Join(rest[1..], sep));
        }
      }
    }
  }

  lemma {:induction false} SplitClean(a: string, sep: char)
    requires sep !in a
    ensures Split(a, sep) == [a]
  {
    if a != [] {
      SplitClean(a[1..], sep);
      assert [a[0]] + a[1..] == a;
    }
  }

  lemma {:induction false} SplitFirst(a: string, rest: string, sep: char)
    requires sep !in a
    ensures Split(a + [sep] + rest, sep) == [a] + Split(rest, sep)
  {
    var s := a + [sep] + rest;
    if a == [] {
      assert s[1..] == rest;
    } else {
      SplitFirst(a[1..], rest, sep);
      assert s[1..] == a[1..] + [sep] + rest;
      var tail := Split(s[1..], sep);
      assert tail[1..] == Split(rest, sep);
      assert [a[0]] + a[1..] == a;
    }
  }

  lemma {:induction false} SplitJoin(parts: seq<string>, sep: char)
    requires parts != [] && Clean(parts, sep)
    ensures Split(Join(parts, sep), sep) == parts
  {
    if |parts| == 1 {
      SplitClean(parts[0], sep);
    } else {
      SplitJoin(parts[1..], sep);
      SplitFirst(parts[0], Join(parts[1..], sep), sep);
      assert [parts[0]] + parts[1..] == parts;
    }
  }

  /** Splitting distributes over a join of two texts at a separator. */
  lemma {:induction false} SplitAppend(s: string, t: string, sep: char)
    ensures Split(s + [sep] + t, sep) == Split(s, sep) + Split(t, sep)
  {
    if s == [] {
      SplitFirst("", t, sep);
    } else {
      SplitAppend(s[1..], t, sep);
      var u := s + [sep] + t;
      assert u[1..] == s[1..] + [sep] + t;
      PushAppend(s[0], sep, Split(s[1..], sep), Split(t, sep));
    }
  }

  /** What is joined by a dot comes apart again at the last one. */
  lemma LastDot(a: string, x: string, b: string, y: string)
    requires '.' !in x && '.' !in y && a + ['.'] + x == b + ['.'] + y
    ensures a == b && x == y
  {
    var s := a + ['.'] + x;
    assert s[|a|] == '.' && s[|b|] == '.';
    assert forall i | |a| < i < |s| :: s[i] == x[i - |a| - 1];
    assert forall i | |b| < i < |s| :: s[i] == y[i - |b| - 1];
    assert a == s[..|a|] && b == s[..|b|];
    assert x == s[|a| + 1..] && y == s[|b| + 1..];
  }

  // --- fields -------------------------------------------------------------------

  /** The leading run of non-space characters. */
  function Word(s: string): string {
    if s == [] || IsSpace(s[0]) then [] else [s[0]] + Word(s[1..])
  }

  predicate Solid(w: string) { forall i :: 0 <= i < |w| ==> !IsSpace(w[i]) }

  lemma {:induction false} WordIs(s: string)
    ensures |Word(s)| <= |s| && Word(s) == s[..|Word(s)|] && Solid(Word(s))
    ensures |Word(s)| < |s| ==> IsSpace(s[|Word(s)|])
    ensures s != [] && !IsSpace(s[0]) ==> Word(s) != []
  {
    if s != [] && !IsSpace(s[0]) {
      WordIs(s[1..]);
    }
  }

  /** strings.Fields: the maximal runs of non-space characters, in order. */
  function Fields(s: string): seq<string>
    decreases |s|
  {
    var t := TrimLeft(s, Spaces);
    if t == [] then []
    else
      var w := Word(t);
      TrimLeftIs(s, Spaces);
      WordIs(t);
      [w] + Fields(t[|w|..])
  }

  lemma {:induction false} WordPad(w: string, rest: string)
    requires Solid(w) && (rest == [] || IsSpace(rest[0]))
    ensures Word(w + rest) == w
  {
    if w == [] {
      assert w + rest == rest;
    } else {
      assert (w + rest)[1..] == w[1..] + rest;
      WordPad(w[1..], rest);
      assert [w[0]] + w[1..] == w;
    }
  }

  lemma {:induction false} FieldsWord(w: string, rest: string)
    requires w != [] && Solid(w) && (rest == [] || IsSpace(rest[0]))
    ensures Fields(w + rest) == [w] + Fields(rest)
  {
    var s := w + rest;
    assert s[0] == w[0];
    assert TrimLeft(s, Spaces) == s;
    WordPad(w, rest);
    assert s[|w|..] == rest;
  }

  lemma {:induction false} FieldsSpace(c: char, rest: string)
    requires IsSpace(c)
    ensures Fields([c] + rest) == Fields(rest)
  {
  }

  // --- searching ----------------------------------------------------------------

  /** The index of the first element that satisfies p, or the length. */
  function First<T>(xs: seq<T>, p: T -> bool): (i: nat)
    ensures i <= |xs|
    ensures forall j :: 0 <= j < i ==> !p(xs[j])
    ensures i < |xs| ==> p(xs[i])
  {
    if xs == [] || p(xs[0]) then 0 else 1 + First(xs[1..], p)
  }

  /** A sequence without its first element that satisfies p. */
  function Without<T>(xs: seq<T>, p: T -> bool): seq<T> {
    if xs == [] then []
    else if p(xs[0]) then xs[1..]
    else [xs[0]] + Without(xs[1..], p)
  }

  lemma FirstIs<T>(xs: seq<T>, p: T -> bool, i: nat)
    requires i <= |xs| && (forall j :: 0 <= j < i ==> !p(xs[j]))
    requires i < |xs| ==> p(xs[i])
    ensures First(xs, p) == i
  {
  }

  // --- picking ------------------------------------------------------------------

  /** What f makes of the elements that satisfy p, in order. */
  function Select<T, U>(xs: seq<T>, p: T -> bool, f: T -> U): seq<U> {
    if xs == [] then []
    else (if p(xs[0]) then [f(xs[0])] else []) + Select(xs[1..], p, f)
  }

  lemma {:induction false} SelectConcat<T, U>(a: seq<T>, b: seq<T>, p: T -> bool, f: T -> U)
    ensures Select(a + b, p, f) == Select(a, p, f) + Select(b, p, f)
  {
    if a == [] {
      assert a + b == b;
    } else {
      var ab := a + b;
      assert ab[0] == a[0] && ab[1..] == a[1..] + b;
      SelectConcat(a[1..], b, p, f);
      var h := if p(a[0]) then [f(a[0])] else [];
      var x, y := Select(a[1..], p, f), Select(b, p, f);
      assert Select(ab, p, f) == h + (x + y) == (h + x) + y;
    }
  }

  lemma {:induction false} SelectNone<T, U>(a: seq<T>, p: T -> bool, f: T -> U)
    requires forall j :: 0 <= j < |a| ==> !p(a[j])
    ensures Select(a, p, f) == []
  {
    if a != [] {
      SelectNone(a[1..], p, f);
    }
  }

  lemma SelectAround<T, U>(a: seq<T>, mid: T, b: seq<T>, p: T -> bool, f: T -> U)
    ensures Select(a + [mid] + b, p, f)
         == Select(a, p, f) + (if p(mid) then [f(mid)] else []) + Select(b, p, f)
  {
    SelectConcat(a + [mid], b, p, f);
    SelectConcat(a, [mid], p, f);
  }

  /** Swapping one element for another changes the pick only where it says so. */
  lemma SelectSwap<T, U>(xs: seq<T>, i: nat, x: T, p: T -> bool, f: T -> U)
    requires i < |xs|
    ensures var a, b := Select(xs[..i], p, f), Select(xs[i + 1..], p, f);
      && Select(xs, p, f) == a + (if p(xs[i]) then [f(xs[i])] else []) + b
      && Select(xs[..i] + [x] + xs[i + 1..], p, f) == a + (if p(x) then [f(x)] else []) + b
      && Select(xs[..i] + xs[i + 1..], p, f) == a + b
  {
    SelectAt(xs, i, p, f);
    SelectAround(xs[..i], x, xs[i + 1..], p, f);
    SelectConcat(xs[..i], xs[i + 1..], p, f);
  }

  lemma SelectAt<T, U>(xs: seq<T>, i: nat, p: T -> bool, f: T -> U)
    requires i < |xs|
    ensures Select(xs, p, f)
            == Select(xs[..i], p, f) + (if p(xs[i]) then [f(xs[i])] else []) + Select(xs[i + 1..], p, f)
  {
    var a, x, b := xs[..i], xs[i], xs[i + 1..];
    SelectAround(a, x, b, p, f);
    Around(xs, i);
  }

  lemma Around<T>(xs: seq<T>, i: nat)
    requires i < |xs|
    ensures xs[..i] + [xs[i]] + xs[i + 1..] == xs
  {
  }

  lemma SelectInsert<T, U>(xs: seq<T>, k: nat, x: T, p: T -> bool, f: T -> U)
    requires k <= |xs|
    ensures var a, b := Select(xs[..k], p, f), Select(xs[k..], p, f);
      && Select(xs, p, f) == a + b
      && Select(xs[..k] + [x] + xs[k..], p, f) == a + (if p(x) then [f(x)] else []) + b
  {
    assert xs == xs[..k] + xs[k..];
    SelectAround(xs[..k], x, xs[k..], p, f);
    SelectConcat(xs[..k], xs[k..], p, f);
  }

  lemma {:induction false} WithoutIs<T>(xs: seq<T>, p: T -> bool)
    requires First(xs, p) < |xs|
    ensures Without(xs, p) == xs[..First(xs, p)] + xs[First(xs, p) + 1..]
  {
    if !p(xs[0]) {
      WithoutIs(xs[1..], p);
      var k := First(xs[1..], p);
      assert [xs[0]] + xs[1..][..k] == xs[..k + 1];
      assert xs[1..][k + 1..] == xs[k + 2..];
    }
  }

  lemma SelectHeadAt<T, U>(a: seq<T>, x: T, b: seq<T>, p: T -> bool, f: T -> U)
    requires p(x) && forall j :: 0 <= j < |a| ==> !p(a[j])
    ensures Select(a + [x] + b, p, f) == [f(x)] + Select(b, p, f)
  {
    SelectAround(a, x, b, p, f);
    SelectNone(a, p, f);
    assert [] + [f(x)] == [f(x)];
  }

  /** The first element that satisfies p is the first one picked. */
  lemma SelectHead<T, U>(xs: seq<T>, p: T -> bool, f: T -> U)
    requires First(xs, p) < |xs|
    ensures Select(xs, p, f) == [f(xs[First(xs, p)])] + Select(xs[First(xs, p) + 1..], p, f)
  {
    var i := First(xs, p);
    Around(xs, i);
    SelectHeadAt(xs[..i], xs[i], xs[i + 1..], p, f);
  }

  /** Replacing it replaces the head of the pick. */
  lemma SelectReplace<T, U>(xs: seq<T>, i: nat, x: T, p: T -> bool, f: T -> U)
    requires i < |xs| && p(x) && forall j :: 0 <= j < i ==> !p(xs[j])
    ensures Select(xs[..i] + [x] + xs[i + 1..], p, f) == [f(x)] + Select(xs[i + 1..], p, f)
  {
    SelectHeadAt(xs[..i], x, xs[i + 1..], p, f);
  }

  /** Dropping it drops the head of the pick. */
  lemma {:induction false} SelectWithout<T, U>(xs: seq<T>, p: T -> bool, f: T -> U)
    requires First(xs, p) < |xs|
    ensures Select(xs, p, f) != [] && Select(Without(xs, p), p, f) == Select(xs, p, f)[1..]
  {
    if !p(xs[0]) {
      SelectWithout(xs[1..], p, f);
    }
  }

  /** And a pick by q that skips it does not notice. */
  lemma {:induction false} SelectWithoutOther<T, U>(xs: seq<T>, p: T -> bool, q: T -> bool, f: T -> U)
    requires First(xs, p) < |xs| && !q(xs[First(xs, p)])
    ensures Select(Without(xs, p), q, f) == Select(xs, q, f)
  {
    if !p(xs[0]) {
      SelectWithoutOther(xs[1..], p, q, f);
    }
  }
}
