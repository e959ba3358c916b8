/** Which clock times and day words a window's declaration may have, and what they mean,
    told without the program's way of reading them. */
module ClockLaws {
  import opened Text
  import opened Windows
  import opened Clock

  // --- numbers ------------------------------------------------------------------------------------

  function PowerOfTen(n: nat): int { if n == 0 then 1 else 10 * PowerOfTen(n - 1) }

  // The value of a row of digits, each by its place.
  function PlaceValue(s: string): int {
    if s == [] then 0 else (s[0] as int - '0' as int) * PowerOfTen(|s| - 1) + PlaceValue(s[1..])
  }

  // A whole number as it may be written: a sign or none, and digits. No number is below
  // nought here, though nought may be written with a minus.
  ghost predicate Writes(w: string, v: int) {
    exists sign, body :: w == sign + body && NumberIs(sign, body, v)
  }

  predicate NumberIs(sign: string, body: string, v: int) {
    && sign in ["", "+", "-"] && body != "" && (forall i :: 0 <= i < |body| ==> '0' <= body[i] <= '9')
    && v == PlaceValue(body) && (sign == "-" ==> v == 0)
  }

  lemma {:induction false} PlaceAppend(s: string, c: char)
    requires Digit(c)
    ensures PlaceValue(s + [c]) == PlaceValue(s) * 10 + (c as int - '0' as int)
  {
    if s == [] {
      assert s + [c] == [c] && [c][1..] == [];
      assert PowerOfTen(0) == 1;
    } else {
      assert (s + [c])[1..] == s[1..] + [c];
      PlaceAppend(s[1..], c);
    }
  }

  lemma {:induction false} DigitsArePlaces(s: string)
    requires AllDigits(s)
    ensures Digits(s) == PlaceValue(s) >= 0
  {
    if s != [] {
      var init := s[..|s| - 1];
      DigitsArePlaces(init);
      PlaceAppend(init, s[|s| - 1]);
      assert s == init + [s[|s| - 1]];
    }
  }

  lemma ReadIsWritten(w: string, v: int)
    requires 0 <= v <= 59 && Atoi(w) == Ok(v)
    ensures Writes(w, v)
  {
    if w[0] == '-' || w[0] == '+' {
      DigitsArePlaces(w[1..]);
      assert w == [w[0]] + w[1..] && NumberIs([w[0]], w[1..], v);
    } else {
      DigitsArePlaces(w);
      assert w == "" + w && NumberIs("", w, v);
    }
  }

  lemma DigitsRead(body: string)
    requires body != "" && AllDigits(body) && Digits(body) <= 59
    ensures Atoi(body) == Ok(Digits(body))
  {
    DigitsArePlaces(body);
    assert Digit(body[0]);
  }

  lemma SignedRead(sign: char, body: string)
    requires sign == '+' || sign == '-'
    requires body != "" && AllDigits(body) && Digits(body) <= 59
    ensures Atoi([sign] + body) == Ok(if sign == '-' then -Digits(body) else Digits(body))
  {
    DigitsArePlaces(body);
    assert ([sign] + body)[1..] == body;
  }

  lemma WrittenIsRead(sign: string, body: string, v: int)
    requires 0 <= v <= 59 && NumberIs(sign, body, v)
    ensures Atoi(sign + body) == Ok(v)
  {
    assert AllDigits(body);
    DigitsArePlaces(body);
    if sign == "" {
      assert sign + body == body;
      DigitsRead(body);
    } else {
      assert sign == [sign[0]];
      SignedRead(sign[0], body);
    }
  }

  /** A part of a clock time is read as a number in range exactly if it writes that number. */
  lemma AtoiReads(w: string, v: int)
    requires 0 <= v <= 59
    ensures Atoi(w) == Ok(v) <==> Writes(w, v)
  {
    if Atoi(w) == Ok(v) {
      ReadIsWritten(w, v);
    }
    if sign, body :| w == sign + body && NumberIs(sign, body, v) {
      WrittenIsRead(sign, body, v);
    }
  }

  // --- clock times --------------------------------------------------------------------------------

  // Two or three parts that write an hour, a minute and perhaps a second.
  ghost predicate ClockParts(f: seq<string>, vs: seq<int>) {
    && 2 <= |f| == |vs| <= 3
    && 0 <= vs[0] <= 24 && 0 <= vs[1] <= 59 && (|vs| == 3 ==> 0 <= vs[2] <= 59)
    && forall i :: 0 <= i < |f| ==> Writes(f[i], vs[i])
  }

  function Seconds(vs: seq<int>): int
    requires 2 <= |vs| <= 3
  {
    3600 * vs[0] + 60 * vs[1] + if |vs| == 3 then vs[2] else 0
  }

  // The text is such parts with colons between them, and comes to this.
  ghost predicate Tells(s: string, f: seq<string>, vs: seq<int>, d: int) {
    ClockParts(f, vs) && Join(f, ':') == TrimSpace(s) && Seconds(vs) <= 86_400 && d == Seconds(vs) * 1_000_000_000
  }

  lemma TotalNext(f: seq<string>, n: nat, v: int)
    requires n < |f| && Total(f, n).Ok? && PartRead(f[n], v, n)
    ensures Total(f, n + 1) == Ok(Total(f, n).value + v * Unit(n))
  {
  }

  function Sum(vs: seq<int>, n: nat): int
    requires n <= |vs|
  {
    if n == 0 then 0 else Sum(vs, n - 1) + vs[n - 1] * Unit(n - 1)
  }

  lemma SumIs(vs: seq<int>)
    requires 2 <= |vs| <= 3
    ensures Sum(vs, |vs|) == Seconds(vs) * 1_000_000_000
  {
    assert Unit(0) == 3600 * 1_000_000_000 && Unit(1) == 60 * 1_000_000_000 && Unit(2) == 1_000_000_000;
    assert Sum(vs, 1) == vs[0] * Unit(0);
    assert Sum(vs, 2) == vs[0] * Unit(0) + vs[1] * Unit(1);
  }

  predicate PartsRead(f: seq<string>, vs: seq<int>, n: nat)
    requires n <= |f| == |vs|
  {
    forall i :: 0 <= i < n ==> PartRead(f[i], vs[i], i)
  }

  predicate PartRead(part: string, v: int, i: nat) { Atoi(part) == Ok(v) && 0 <= v <= Limit(i) }

  lemma {:induction false} TotalIs(f: seq<string>, vs: seq<int>, n: nat)
    requires n <= |f| == |vs| && PartsRead(f, vs, n)
    ensures Total(f, n) == Ok(Sum(vs, n))
  {
    if n > 0 {
      var m, v := n - 1, vs[n - 1];
      assert PartRead(f[m], v, m);
      TotalIs(f, vs, m);
      TotalNext(f, m, v);
      assert Sum(vs, n) == Sum(vs, m) + v * Unit(m);
    }
  }

  lemma TotalReads(f: seq<string>, vs: seq<int>)
    requires 2 <= |f| == |vs| <= 3 && PartsRead(f, vs, |f|)
    ensures Total(f, |f|) == Ok(Seconds(vs) * 1_000_000_000)
  {
    TotalIs(f, vs, |f|);
    SumIs(vs);
  }

  lemma TotalParts(f: seq<string>) returns (vs: seq<int>)
    requires 2 <= |f| <= 3 && Total(f, |f|).Ok?
    ensures |vs| == |f| && PartsRead(f, vs, |f|)
  {
    assert Total(f, 2).Ok? && Total(f, 1).Ok?;
    vs := [Atoi(f[0]).value, Atoi(f[1]).value];
    assert PartRead(f[0], vs[0], 0) && PartRead(f[1], vs[1], 1);
    if |f| == 3 {
      vs := vs + [Atoi(f[2]).value];
      assert PartRead(f[2], vs[2], 2);
    }
  }

  lemma PartsSplit(f: seq<string>, vs: seq<int>)
    requires ClockParts(f, vs)
    ensures Split(Join(f, ':'), ':') == f
  {
    forall i | 0 <= i < |f| ensures ':' !in f[i] {
      var sign, body :| f[i] == sign + body && NumberIs(sign, body, vs[i]);
      assert ':' !in sign && ':' !in body;
    }
    SplitJoin(f, ':');
  }

  lemma ReadTells(s: string, d: int) returns (f: seq<string>, vs: seq<int>)
    requires ParsedClock(s) == Ok(d)
    ensures Tells(s, f, vs, d)
  {
    f := Split(TrimSpace(s), ':');
    vs := TotalParts(f);
    TotalReads(f, vs);
    JoinSplit(TrimSpace(s), ':');
    forall i | 0 <= i < |f| ensures Writes(f[i], vs[i]) {
      assert PartRead(f[i], vs[i], i);
      AtoiReads(f[i], vs[i]);
    }
  }

  lemma PartsAreRead(f: seq<string>, vs: seq<int>)
    requires ClockParts(f, vs)
    ensures PartsRead(f, vs, |f|)
  {
    forall i | 0 <= i < |f| ensures PartRead(f[i], vs[i], i) {
      assert Writes(f[i], vs[i]);
      AtoiReads(f[i], vs[i]);
    }
  }

  lemma ToldIsRead(s: string, f: seq<string>, vs: seq<int>, d: int)
    requires Tells(s, f, vs, d)
    ensures ParsedClock(s) == Ok(d)
  {
    PartsSplit(f, vs);
    PartsAreRead(f, vs);
    TotalReads(f, vs);
  }

  /** A clock time is read if and only if it is an hour up to 24, a minute and perhaps a
      second up to 59, with colons between and nothing past 24:00; and it is read as their
      time since midnight. */
  lemma ClockExact(s: string, d: int)
    ensures ParsedClock(s) == Ok(d) <==> exists f, vs :: Tells(s, f, vs, d)
  {
    if ParsedClock(s) == Ok(d) {
      var f, vs := ReadTells(s, d);
    }
    if f, vs :| Tells(s, f, vs, d) {
      ToldIsRead(s, f, vs, d);
    }
  }

  // --- days ---------------------------------------------------------------------------------------

  const WEEK_DAYS := ["sunday", "monday", "tuesday", "wednesday", "thursday", "friday", "saturday"]

  // A day's name in full, its first three letters, and the longer short forms there are.
  predicate Calls(word: string, d: int)
    requires 0 <= d < 7
  {
    || word == WEEK_DAYS[d] || word == WEEK_DAYS[d][..3]
    || (d == 2 && word == "tues") || (d == 3 && word == "weds") || (d == 4 && word in ["thur", "thurs"])
  }

  // Which row of the table a word could be in, by a few of its letters.
  function RowOf(word: string): nat {
    if |word| < 3 then 0
    else if word[0] == 's' then if word[1] == 'u' then 3 else 9
    else if word[0] == 'm' then 4
    else if word[0] == 't' then if word[1] == 'u' then 5 else 7
    else if word[0] == 'w' then if word[2] == 'd' then 6 else if |word| > 4 && word[4] == 'd' then 1 else 2
    else if word[0] == 'f' then 8
    else 0
  }

  lemma RowsApart(word: string, i: nat)
    requires i < 10 && word in DayWords()[i].0
    ensures RowOf(word) == i
  {
  }

  lemma {:induction false} NamedAt(rows: seq<(seq<string>, set<int>)>, word: string, i: nat)
    requires i < |rows| && word in rows[i].0 && forall j :: 0 <= j < i ==> word !in rows[j].0
    ensures Named(rows, word) == rows[i].1
  {
    if i > 0 {
      assert forall j | 0 <= j < i - 1 :: rows[1..][j] == rows[j + 1];
      NamedAt(rows[1..], word, i - 1);
    }
  }

  lemma {:induction false} NamedNone(rows: seq<(seq<string>, set<int>)>, word: string)
    requires forall j :: 0 <= j < |rows| ==> word !in rows[j].0
    ensures Named(rows, word) == {}
  {
    if rows != [] {
      NamedNone(rows[1..], word);
    }
  }

  lemma NamedByRow(word: string)
    ensures RowOf(word) < |DayWords()| == 10
    ensures var row := DayWords()[RowOf(word)]; Named(DayWords(), word) == if word in row.0 then row.1 else {}
  {
    forall i | 0 <= i < 10 && word in DayWords()[i].0 ensures RowOf(word) == i {
      RowsApart(word, i);
    }
    if word in DayWords()[RowOf(word)].0 {
      NamedAt(DayWords(), word, RowOf(word));
    } else {
      NamedNone(DayWords(), word);
    }
  }

  lemma CallsIsRow(word: string, d: int)
    requires 0 <= d < 7
    ensures Calls(word, d) <==> word in DayWords()[d + 3].0
  {
    DayShorts();
  }

  lemma DayShorts()
    ensures WEEK_DAYS[0][..3] == "sun" && WEEK_DAYS[1][..3] == "mon" && WEEK_DAYS[2][..3] == "tue"
    ensures WEEK_DAYS[3][..3] == "wed" && WEEK_DAYS[4][..3] == "thu" && WEEK_DAYS[5][..3] == "fri"
    ensures WEEK_DAYS[6][..3] == "sat"
  {
  }

  // The table read row by row, a word being in one row at most.
  lemma RowsName(word: string, d: int)
    requires 0 <= d < 7
    ensures d in Named(DayWords(), word) <==>
            || word in DayWords()[d + 3].0 || word in DayWords()[0].0
            || (word in DayWords()[1].0 && 1 <= d <= 5) || (word in DayWords()[2].0 && (d == 6 || d == 0))
  {
    NamedByRow(word);
    forall i | 0 <= i < 10 && word in DayWords()[i].0 ensures RowOf(word) == i {
      RowsApart(word, i);
    }
  }

  /** A word names a day exactly if it is called so, or is one for the days from Monday to
      Friday, for the two others, or for every day. */
  lemma DaysExact(word: string, d: int)
    ensures d in Named(DayWords(), word) <==>
            0 <= d < 7 && (|| Calls(word, d)
                           || (word in ["weekday", "weekdays"] && 1 <= d <= 5)
                           || (word in ["weekend", "weekends"] && (d == 6 || d == 0))
                           || word in ["daily", "all", "everyday", "every-day"])
  {
    if 0 <= d < 7 {
      RowsName(word, d);
      CallsIsRow(word, d);
    } else {
      NamedByRow(word);
    }
  }

  // --- declarations -------------------------------------------------------------------------------

  // The word, trimmed and in lower case, names a day.
  ghost predicate NamesADay(name: string) { exists d :: d in Named(DayWords(), ToLower(TrimSpace(name))) }

  // A text tells a time since midnight.
  ghost predicate Timely(s: string, d: int) { exists f, vs :: Tells(s, f, vs, d) }

  lemma TimelyWhen(s: string)
    ensures ParsedClock(s).Ok? <==> exists d :: Timely(s, d)
    ensures ParsedClock(s).Ok? && ParsedClock(s).value < DAY <==> exists d :: Timely(s, d) && d < 86_400 * 1_000_000_000
  {
    if ParsedClock(s).Ok? {
      ClockExact(s, ParsedClock(s).value);
      assert Timely(s, ParsedClock(s).value);
    }
    forall d | Timely(s, d) ensures ParsedClock(s) == Ok(d) {
      ClockExact(s, d);
    }
  }

  // Every row of the table names some day.
  lemma SomeDay(word: string)
    ensures Named(DayWords(), word) != {} <==> exists d :: d in Named(DayWords(), word)
  {
    NamedByRow(word);
    var i := RowOf(word);
    var d := if i == 1 then 1 else if i < 3 then 0 else i - 3;
    assert word in DayWords()[i].0 ==> d in Named(DayWords(), word);
  }

  lemma DaysMean(days: seq<string>)
    ensures (forall i :: 0 <= i < |days| ==> NamesSome(days[i])) <==> forall name :: name in days ==> NamesADay(name)
  {
    forall name ensures NamesSome(name) <==> NamesADay(name) {
      SomeDay(ToLower(TrimSpace(name)));
    }
  }

  /** A declaration is usable if and only if it names days and nothing else, starts at a
      clock time before midnight, and has either an end, at a clock time, or a length. */
  lemma CompilesWhen(w: Declared)
    ensures Compiles(w) <==>
            && |w.days| > 0 && (forall name :: name in w.days ==> NamesADay(name))
            && (exists d :: Timely(w.start, d) && d < 86_400 * 1_000_000_000)
            && (if w.duration.Absent? then exists d :: Timely(w.end, d)
                else TrimSpace(w.end) == "" && w.duration.Length? && w.duration.d > 0)
  {
    TimelyWhen(w.start);
    TimelyWhen(w.end);
    DaysMean(w.days);
    BlankIsNoTime(w.end);
  }

  lemma BlankIsNoTime(s: string)
    ensures ParsedClock(s).Ok? ==> TrimSpace(s) != ""
  {
    assert Split("", ':') == [""];
  }

  /** The days of a declaration are those that its words name. */
  lemma {:induction false} DaysUpToAre(days: seq<string>, n: nat, d: int)
    requires n <= |days|
    ensures d in DaysUpTo(days, n) <==> exists i :: 0 <= i < n && d in DaysNamed(days[i])
  {
    if n > 0 {
      DaysUpToAre(days, n - 1, d);
      if d in DaysNamed(days[n - 1]) {
        assert 0 <= n - 1 < n;
      }
    }
  }
}
