/** Making a DNS label out of anything: how preview and intercept names are formed. */
module Names {
  import opened Text

  // The most a label may hold (section 2.3.1 of RFC 1035).
  const LONGEST := 63

  predicate Alnum(c: char) { 'a' <= c <= 'z' || '0' <= c <= '9' }

  const LETTERS := "abcdefghijklmnopqrstuvwxyz"
  const DIGITS := "0123456789"

  lemma AlnumIs(c: char)
    ensures Alnum(c) <==> c in LETTERS + DIGITS
  {
    assert forall i | 0 <= i < 26 :: LETTERS[i] == 'a' + i as char;
    assert forall i | 0 <= i < 10 :: DIGITS[i] == '0' + i as char;
    if 'a' <= c <= 'z' {
      assert c == LETTERS[c as int - 'a' as int];
    } else if '0' <= c <= '9' {
      assert c == DIGITS[c as int - '0' as int];
    }
  }

  function Keep(c: char): char { if Alnum(c) then c else '-' }

  function Kept(s: string): string { if s == [] then [] else [Keep(s[0])] + Kept(s[1..]) }

  predicate HasDouble(s: string) { exists i :: 0 <= i < |s| - 1 && s[i] == s[i + 1] == '-' }

  // strings.ReplaceAll(s, "--", "-"): pairs are taken left to right.
  function Thin(s: string): string {
    if s == [] then []
    else if |s| > 1 && s[0] == s[1] == '-' then ['-'] + Thin(s[2..])
    else [s[0]] + Thin(s[1..])
  }

  // --- the specification ---------------------------------------------------------------------

  // Each run of characters outside a-z and 0-9 becomes one dash.
  function Collapse(s: string): string {
    if s == [] then []
    else if Alnum(s[0]) then [s[0]] + Collapse(s[1..])
    else if |s| > 1 && !Alnum(s[1]) then Collapse(s[1..])
    else ['-'] + Collapse(s[1..])
  }

  function Shorten(s: string): string { if |s| > LONGEST then Trim(s[..LONGEST], Dashes) else s }

  function Label(s: string): string { Shorten(Trim(Collapse(ToLower(s)), Dashes)) }

  // A label as section 2.1 of RFC 1123 relaxes it: letters and digits at both ends.
  predicate IsLabel(s: string) {
    && 1 <= |s| <= LONGEST && Alnum(s[0]) && Alnum(s[|s| - 1])
    && forall i :: 0 <= i < |s| ==> Alnum(s[i]) || s[i] == '-'
  }

  // --- the operation ---------------------------------------------------------------------------

  method Sanitise(s: string) returns (out: string)
    ensures out == Label(s)
  {
    var lower := ToLower(s);
    var b := [];
    for i := 0 to |lower|
      invariant b == Kept(lower[..i])
    {
      assert lower[..i + 1] == lower[..i] + [lower[i]];
      KeptAppend(lower[..i], [lower[i]]);
      if Alnum(lower[i]) {
        b := b + [lower[i]];
      } else {
        b := b + ['-'];
      }
    }
    assert lower[..|lower|] == lower;
    CollapseKept(lower);
    TrimKeeps(b);
    out := Trim(b, Dashes);
    while HasDouble(out)
      invariant Collapse(out) == Collapse(Trim(b, Dashes)) && KeepsOnly(out)
      decreases |out|
    {
      ThinFacts(out);
      out := Thin(out);
    }
    CollapseIdle(out);
    CollapseTrim(b);
    if |out| > 63 {
      out := Trim(out[..63], Dashes);
    }
  }

  // --- what the steps do -------------------------------------------------------------------------

  // Only what Keep leaves.
  predicate KeepsOnly(s: string) { forall i :: 0 <= i < |s| ==> Alnum(s[i]) || s[i] == '-' }

  lemma {:induction false} KeptAppend(a: string, b: string)
    ensures Kept(a + b) == Kept(a) + Kept(b)
  {
    if a == [] {
      assert a + b == b;
    } else {
      assert (a + b)[1..] == a[1..] + b;
      KeptAppend(a[1..], b);
    }
  }

  lemma {:induction false} KeptAt(s: string)
    ensures |Kept(s)| == |s| && forall i :: 0 <= i < |s| ==> Kept(s)[i] == Keep(s[i])
  {
    if s != [] {
      KeptAt(s[1..]);
    }
  }

  lemma {:induction false} CollapseKept(s: string)
    ensures Collapse(Kept(s)) == Collapse(s) && KeepsOnly(Kept(s))
  {
    KeptAt(s);
    if s != [] {
      CollapseKept(s[1..]);
      assert Kept(s)[1..] == Kept(s[1..]);
    }
  }

  lemma TrimKeeps(s: string)
    requires KeepsOnly(s)
    ensures KeepsOnly(Trim(s, Dashes))
  {
    TrimParts(s, Dashes);
    var a, m := Lead(s, Dashes), Trim(s, Dashes);
    assert forall i | 0 <= i < |m| :: m[i] == s[|a| + i];
  }

  lemma {:induction false} ThinFacts(s: string)
    requires KeepsOnly(s)
    ensures KeepsOnly(Thin(s)) && Collapse(Thin(s)) == Collapse(s) && |Thin(s)| <= |s|
    ensures HasDouble(s) ==> |Thin(s)| < |s|
    ensures s != [] ==> Thin(s) != [] && Thin(s)[0] == s[0]
  {
    if s != [] {
      if |s| > 1 && s[0] == s[1] == '-' {
        ThinFacts(s[2..]);
        assert Thin(s)[1..] == Thin(s[2..]);
        assert s[1..][1..] == s[2..];
      } else {
        ThinFacts(s[1..]);
        assert Thin(s)[1..] == Thin(s[1..]);
        if HasDouble(s) {
          var i :| 0 <= i < |s| - 1 && s[i] == s[i + 1] == '-';
          assert i > 0 && s[1..][i - 1] == s[1..][i] == '-';
        }
      }
    }
  }

  lemma {:induction false} CollapseIdle(s: string)
    requires KeepsOnly(s) && !HasDouble(s)
    ensures Collapse(s) == s
  {
    if s != [] {
      forall i | 0 <= i < |s[1..]| - 1 ensures !(s[1..][i] == s[1..][i + 1] == '-') {
        assert s[1..][i] == s[i + 1] && s[1..][i + 1] == s[i + 2];
      }
      CollapseIdle(s[1..]);
      if |s| > 1 {
        assert !(s[0] == s[0 + 1] == '-');
      }
    }
  }

  // Runs do not reach across a letter or digit.
  lemma {:induction false} CollapseAppend(a: string, b: string)
    requires a == [] || b == [] || Alnum(a[|a| - 1]) || Alnum(b[0])
    ensures Collapse(a + b) == Collapse(a) + Collapse(b)
  {
    if a == [] {
      assert a + b == b;
    } else if b == [] {
      assert a + b == a;
    } else {
      assert (a + b)[1..] == a[1..] + b;
      CollapseAppend(a[1..], b);
    }
  }

  lemma {:induction false} CollapseDashes(s: string)
    requires AllIn(s, Dashes)
    ensures Collapse(s) == if s == [] then "" else "-"
  {
    if s != [] {
      CollapseDashes(s[1..]);
    }
  }

  lemma {:induction false} CollapseShape(s: string)
    ensures var c := Collapse(s);
      && KeepsOnly(c) && !HasDouble(c) && (c == [] <==> s == [])
      && (s != [] ==> c[0] == Keep(s[0]) && c[|c| - 1] == Keep(s[|s| - 1]))
  {
    if s != [] {
      CollapseShape(s[1..]);
      var c, d := Collapse(s), Collapse(s[1..]);
      if c == [c[0]] + d {
        forall i | 0 <= i < |c| - 1 ensures !(c[i] == c[i + 1] == '-') {
          if i > 0 {
            assert c[i] == d[i - 1] && c[i + 1] == d[i];
          }
        }
      }
    }
  }

  /** Trimming first or collapsing first comes to the same. */
  lemma CollapseTrim(s: string)
    requires KeepsOnly(s)
    ensures Collapse(Trim(s, Dashes)) == Trim(Collapse(s), Dashes)
  {
    var a, m, b := Lead(s, Dashes), Trim(s, Dashes), Trail(s, Dashes);
    TrimParts(s, Dashes);
    if m == [] {
      assert s == a + b;
      CollapseDashes(s);
      TrimPadded("", "", Collapse(s), Dashes);
      assert "" + "" + Collapse(s) == Collapse(s);
    } else {
      TrimKeeps(s);
      CollapsePadded(a, m, b);
    }
  }

  lemma CollapsePadded(a: string, m: string, b: string)
    requires AllIn(a, Dashes) && AllIn(b, Dashes) && KeepsOnly(m) && m != [] && Trimmed(m, Dashes)
    ensures Trim(Collapse(a + m + b), Dashes) == Collapse(m)
  {
    CollapseAppend(a + m, b);
    CollapseAppend(a, m);
    CollapseDashes(a);
    CollapseDashes(b);
    CollapseShape(m);
    TrimPadded(Collapse(a), Collapse(m), Collapse(b), Dashes);
  }

  // --- what the result is --------------------------------------------------------------------------

  // A cut of what is collapsed and trimmed.
  predicate Tidy(s: string) { KeepsOnly(s) && !HasDouble(s) && Trimmed(s, Dashes) }

  lemma TrimTidy(s: string)
    requires KeepsOnly(s) && !HasDouble(s)
    ensures Tidy(Trim(s, Dashes))
    ensures s != [] && Alnum(s[0]) ==> Trim(s, Dashes) != []
  {
    TrimParts(s, Dashes);
    var a, m, b := Lead(s, Dashes), Trim(s, Dashes), Trail(s, Dashes);
    forall i | 0 <= i < |m| ensures m[i] == s[|a| + i] {
    }
    if m == [] && s != [] {
      assert s == a + b;
      assert In(s[0], Dashes);
    }
  }

  lemma ShortenTidy(s: string)
    requires Tidy(s)
    ensures Tidy(Shorten(s)) && |Shorten(s)| <= LONGEST && (Shorten(s) == [] <==> s == [])
  {
    if |s| > LONGEST {
      var cut := s[..LONGEST];
      assert forall i | 0 <= i < LONGEST :: cut[i] == s[i];
      TrimTidy(cut);
      TrimParts(cut, Dashes);
    }
  }

  /** The result is empty or a label, with no two dashes running. */
  lemma LabelShape(s: string)
    ensures Label(s) == "" || (IsLabel(Label(s)) && !HasDouble(Label(s)))
  {
    CollapseShape(ToLower(s));
    TrimTidy(Collapse(ToLower(s)));
    ShortenTidy(Trim(Collapse(ToLower(s)), Dashes));
  }

  lemma {:induction false} LowerAt(s: string)
    ensures |ToLower(s)| == |s| && forall i :: 0 <= i < |s| ==> ToLower(s)[i] == LowerRune(s[i])
  {
    if s != [] {
      LowerAt(s[1..]);
    }
  }

  lemma {:induction false} CollapseKeepsSome(s: string)
    ensures (exists i :: 0 <= i < |s| && Alnum(s[i])) <==> !AllIn(Collapse(s), Dashes)
  {
    if s != [] {
      CollapseKeepsSome(s[1..]);
      CollapseShape(s);
      var c, d := Collapse(s), Collapse(s[1..]);
      if i :| 0 < i < |s| && Alnum(s[i]) {
        assert Alnum(s[1..][i - 1]);
        var j :| 0 <= j < |d| && !In(d[j], Dashes);
        assert c == d || c[j + 1] == d[j];
      }
      if !AllIn(c, Dashes) && !Alnum(s[0]) {
        var j :| 0 <= j < |c| && !In(c[j], Dashes);
        assert c == d || d[j - 1] == c[j];
        var i :| 0 <= i < |s[1..]| && Alnum(s[1..][i]);
        assert Alnum(s[i + 1]);
      }
    }
  }

  /** And empty exactly when nothing in the input is a letter or digit, in lower case. */
  lemma LabelEmptyWhen(s: string)
    ensures Label(s) == "" <==> forall i :: 0 <= i < |s| ==> !Alnum(LowerRune(s[i]))
  {
    LowerAt(s);
    var c := Collapse(ToLower(s));
    CollapseKeepsSome(ToLower(s));
    CollapseShape(ToLower(s));
    TrimTidy(c);
    TrimParts(c, Dashes);
    ShortenTidy(Trim(c, Dashes));
    if Trim(c, Dashes) == [] {
      assert c == Lead(c, Dashes) + Trail(c, Dashes);
    } else {
      assert !In(c[|Lead(c, Dashes)|], Dashes);
    }
  }

  lemma {:induction false} LowerIdle(s: string)
    requires KeepsOnly(s)
    ensures ToLower(s) == s
  {
    if s != [] {
      LowerIdle(s[1..]);
    }
  }

  /** It leaves a name alone exactly when the name is empty or a label with no two
      dashes running. */
  lemma LabelFixed(s: string)
    ensures Label(s) == s <==> s == "" || (IsLabel(s) && !HasDouble(s))
  {
    LabelShape(s);
    if s == "" || (IsLabel(s) && !HasDouble(s)) {
      LowerIdle(s);
      CollapseIdle(s);
      TrimIdle(s, Dashes);
    }
  }

  /** So making a name of a name changes nothing. */
  lemma LabelIdempotent(s: string)
    ensures Label(Label(s)) == Label(s)
  {
    LabelShape(s);
    LabelFixed(Label(s));
  }

  // --- what it spells --------------------------------------------------------------------------------

  // The leading letters and digits.
  function Run(s: string): string { if s == [] || !Alnum(s[0]) then [] else [s[0]] + Run(s[1..]) }

  lemma {:induction false} RunIs(s: string)
    ensures var n := |Run(s)|; n <= |s| && Run(s) == s[..n] && (n < |s| ==> !Alnum(s[n]))
    ensures forall i :: 0 <= i < |Run(s)| ==> Alnum(Run(s)[i])
  {
    if s != [] && Alnum(s[0]) {
      RunIs(s[1..]);
    }
  }

  // The runs of letters and digits, in order.
  function Words(s: string): seq<string>
    decreases |s|
  {
    if s == [] then []
    else if !Alnum(s[0]) then Words(s[1..])
    else
      RunIs(s);
      [Run(s)] + Words(s[|Run(s)|..])
  }

  lemma {:induction false} WordsSolid(s: string)
    ensures forall i :: 0 <= i < |Words(s)| ==> Words(s)[i] != "" && '-' !in Words(s)[i]
    decreases |s|
  {
    if s != [] {
      RunIs(s);
      WordsSolid(if Alnum(s[0]) then s[|Run(s)|..] else s[1..]);
    }
  }

  lemma {:induction false} CollapseRun(s: string)
    requires forall i :: 0 <= i < |s| ==> Alnum(s[i])
    ensures Collapse(s) == s
  {
    if s != [] {
      CollapseRun(s[1..]);
    }
  }

  // A dash for a run of other characters at either end, where there is one.
  function DashIf(there: bool): string { if there then "-" else "" }

  // What a string with these words in it collapses to.
  function Spelled(s: string, ws: seq<string>): string
    requires s != []
  {
    if ws == [] then "-" else DashIf(!Alnum(s[0])) + Join(ws, '-') + DashIf(!Alnum(s[|s| - 1]))
  }

  lemma SpelledOn(r: string, rest: string, ws: seq<string>)
    requires r != "" && rest != "" && Alnum(r[0]) && !Alnum(rest[0])
    requires ws == [] ==> !Alnum(rest[|rest| - 1])
    ensures r + Spelled(rest, ws) == Spelled(r + rest, [r] + ws)
  {
    var s := r + rest;
    assert s[0] == r[0] && s[|s| - 1] == rest[|rest| - 1];
    if ws != [] {
      var tail := DashIf(!Alnum(s[|s| - 1]));
      assert ([r] + ws)[1..] == ws;
      assert Join([r] + ws, '-') == r + ['-'] + Join(ws, '-');
      assert r + ("-" + Join(ws, '-') + tail) == "" + (r + ['-'] + Join(ws, '-')) + tail;
    }
  }

  // One more of a run of other characters in front makes its dash if it is the first.
  lemma SpelledOver(s: string, ws: seq<string>)
    requires |s| > 1 && !Alnum(s[0]) && (Alnum(s[1]) ==> ws != [])
    ensures Spelled(s, ws) == if Alnum(s[1]) then ['-'] + Spelled(s[1..], ws) else Spelled(s[1..], ws)
  {
    var tail := DashIf(!Alnum(s[|s| - 1]));
    assert s[1..][|s| - 2] == s[|s| - 1];
    assert "-" + Join(ws, '-') + tail == ['-'] + ("" + Join(ws, '-') + tail);
  }

  lemma {:induction false} LastOther(s: string)
    requires s != "" && Words(s) == []
    ensures !Alnum(s[|s| - 1])
  {
    if |s| > 1 {
      LastOther(s[1..]);
    }
  }

  lemma {:induction false} CollapseSpells(s: string)
    requires s != []
    ensures Collapse(s) == Spelled(s, Words(s))
    decreases |s|
  {
    if !Alnum(s[0]) {
      if |s| > 1 {
        CollapseSpells(s[1..]);
        SpelledOver(s, Words(s));
      } else {
        assert s[1..] == [];
      }
    } else {
      CollapseWord(s);
    }
  }

  lemma {:induction false} CollapseWord(s: string)
    requires s != [] && Alnum(s[0])
    ensures Collapse(s) == Spelled(s, Words(s))
    decreases |s|, 0
  {
    var r := Run(s);
    RunIs(s);
    CollapseRun(r);
    var rest := s[|r|..];
    assert s == r + rest;
    CollapseAppend(r, rest);
    if rest == [] {
      assert Words(s) == [r];
    } else {
      CollapseSpells(rest);
      if Words(rest) == [] {
        LastOther(rest);
      }
      SpelledOn(r, rest, Words(rest));
    }
  }

  lemma {:induction false} JoinEnds(ws: seq<string>)
    requires ws != [] && forall i :: 0 <= i < |ws| ==> ws[i] != "" && '-' !in ws[i]
    ensures var j := Join(ws, '-'); j != "" && j[0] != '-' && j[|j| - 1] != '-'
  {
    if |ws| > 1 {
      JoinEnds(ws[1..]);
    }
  }

  lemma TrimSpells(s: string)
    ensures Trim(Collapse(s), Dashes) == Join(Words(s), '-')
  {
    if s != [] {
      var ws := Words(s);
      CollapseSpells(s);
      WordsSolid(s);
      var a, b := DashIf(!Alnum(s[0])), DashIf(!Alnum(s[|s| - 1]));
      if ws == [] {
        TrimPadded("", "", "-", Dashes);
        assert "" + "" + "-" == "-";
      } else {
        JoinEnds(ws);
        TrimPadded(a, Join(ws, '-'), b, Dashes);
      }
    }
  }

  /** A label is the runs of letters and digits of the lower-cased input, in their order,
      with a single dash between one and the next; or as much of that as sixty-three
      characters hold, without a dash at the cut. */
  lemma LabelSpells(s: string)
    ensures var j := Join(Words(ToLower(s)), '-');
      Label(s) == if |j| <= 63 then j else if j[62] == '-' then j[..62] else j[..63]
  {
    TrimSpells(ToLower(s));
    LabelShape(s);
    var j := Join(Words(ToLower(s)), '-');
    if |j| > 63 {
      CutSpells(ToLower(s));
    }
  }

  lemma CutSpells(s: string)
    requires |Join(Words(s), '-')| > 63
    ensures var j := Join(Words(s), '-'); Trim(j[..63], Dashes) == if j[62] == '-' then j[..62] else j[..63]
  {
    var j := Join(Words(s), '-');
    TrimSpells(s);
    CollapseShape(s);
    TrimTidy(Collapse(s));
    assert Tidy(j);
    assert j[0] != '-' && !(j[61] == j[61 + 1] == '-');
    if j[62] == '-' {
      TrimPadded("", j[..62], "-", Dashes);
      assert "" + j[..62] + "-" == j[..63];
    } else {
      TrimIdle(j[..63], Dashes);
    }
  }
}
