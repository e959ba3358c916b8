/** Reading a window's declaration: clock times, days, and the normalisation that
    turns an end at or before the start into the next day's. */
module Clock {
  import opened Text
  import opened Windows

  datatype Result<T> = Ok(value: T) | Err

  // --- numbers ---------------------------------------------------------------------

  predicate Digit(c: char) { '0' <= c <= '9' }

  predicate AllDigits(s: string) { forall i :: 0 <= i < |s| ==> Digit(s[i]) }

  function Digits(s: string): int
    requires AllDigits(s)
  {
    if s == [] then 0 else Digits(s[..|s| - 1]) * 10 + (s[|s| - 1] as int - '0' as int)
  }

  const MAXINT := 0x7FFF_FFFF_FFFF_FFFF

  // strconv.Atoi: an optional sign and at least one digit, within 64 bits.
  function Atoi(s: string): Result<int> {
    var signed := s != [] && (s[0] == '-' || s[0] == '+');
    var body := if signed then s[1..] else s;
    if body == [] || !AllDigits(body) then Err
    else
      var n := if signed && s[0] == '-' then -Digits(body) else Digits(body);
      if -MAXINT - 1 <= n <= MAXINT then Ok(n) else Err
  }

  // --- clock times -------------------------------------------------------------------

  function Unit(i: nat): int { if i == 0 then HOUR else if i == 1 then MINUTE else SECOND }

  function Limit(i: nat): int { if i == 0 then 24 else 59 }

  // The sum of the first n parts, each in range.
  function Total(parts: seq<string>, n: nat): Result<int>
    requires n <= |parts|
  {
    if n == 0 then Ok(0)
    else
      var before := Total(parts, n - 1);
      var part := Atoi(parts[n - 1]);
      if before.Ok? && part.Ok? && 0 <= part.value <= Limit(n - 1)
      then Ok(before.value + part.value * Unit(n - 1)) else Err
  }

  function ParsedClock(s: string): Result<int> {
    var f := Split(TrimSpace(s), ':');
    if !(2 <= |f| <= 3) then Err
    else
      var total := Total(f, |f|);
      if total.Ok? && total.value <= DAY then total else Err
  }

  /** An hour and a minute, and a second if there is a third part, as the time since
      midnight. Up to the end of the day is in range. */
  method ParseClock(s: string) returns (r: Result<int>)
    ensures r == ParsedClock(s)
    ensures r.Ok? ==> 0 <= r.value <= DAY && r.value % SECOND == 0
  {
    var f := Split(TrimSpace(s), ':');
    if |f| < 2 || |f| > 3 {
      return Err;
    }
    var total := 0;
    for i := 0 to |f|
      invariant Total(f, i) == Ok(total)
    {
      var n := Atoi(f[i]);
      if n.Err? {
        TotalFails(f, i + 1, |f|);
        return Err;
      }
      if n.value < 0 || n.value > Limit(i) {
        TotalFails(f, i + 1, |f|);
        return Err;
      }
      total := total + n.value * Unit(i);
    }
    if total > DAY {
      return Err;
    }
    TotalBounds(f, |f|);
    return Ok(total);
  }

  lemma {:induction false} TotalBounds(parts: seq<string>, n: nat)
    requires n <= |parts| && Total(parts, n).Ok?
    ensures 0 <= Total(parts, n).value && Total(parts, n).value % SECOND == 0
  {
    if n > 0 {
      TotalBounds(parts, n - 1);
      WholeSeconds(Total(parts, n - 1).value, Atoi(parts[n - 1]).value, n - 1);
    }
  }

  lemma WholeSeconds(sum: int, v: int, i: nat)
    requires sum >= 0 && sum % SECOND == 0 && v >= 0
    ensures sum + v * Unit(i) >= 0 && (sum + v * Unit(i)) % SECOND == 0
  {
    assert Unit(i) == HOUR || Unit(i) == MINUTE || Unit(i) == SECOND;
  }

  lemma {:induction false} TotalFails(parts: seq<string>, i: nat, n: nat)
    requires i <= n <= |parts| && Total(parts, i).Err?
    ensures Total(parts, n).Err?
  {
    if i < n {
      TotalFails(parts, i, n - 1);
    }
  }

  // %02d for a number of at most two digits.
  function TwoDigits(n: int): string
    requires 0 <= n < 100
  {
    [(n / 10) as char + '0', (n % 10) as char + '0']
  }

  function ShowClock(d: int): string
    requires 0 <= d < 100 * HOUR
  {
    TwoDigits(d / HOUR) + ":" + TwoDigits(d / MINUTE % 60)
  }

  lemma TwoDigitsRead(n: int)
    requires 0 <= n < 100
    ensures Atoi(TwoDigits(n)) == Ok(n) && ':' !in TwoDigits(n)
    ensures !IsSpace(TwoDigits(n)[0]) && !IsSpace(TwoDigits(n)[1])
  {
    var s := TwoDigits(n);
    assert Digit(s[0]) && Digit(s[1]);
    assert s[..1] == [s[0]] && s[..1][..0] == [];
    assert Digits(s[..1]) == n / 10;
    assert Digits(s) == n / 10 * 10 + n % 10;
  }

  /** Every whole minute of the day, 24:00 included, is read back from the way the
      program writes it. */
  lemma ClockRoundTrip(minutes: int)
    requires 0 <= minutes <= 24 * 60
    ensures ParsedClock(ShowClock(minutes * MINUTE)) == Ok(minutes * MINUTE)
  {
    var d := minutes * MINUTE;
    var h, m := minutes / 60, minutes % 60;
    MinutesSplit(minutes);
    ClockSplits(h, m);
    TwoDigitsRead(h);
    TwoDigitsRead(m);
    TotalOfTwo(TwoDigits(h), TwoDigits(m), h, m);
  }

  lemma MinutesSplit(minutes: int)
    requires 0 <= minutes
    ensures minutes * MINUTE / HOUR == minutes / 60 && minutes * MINUTE / MINUTE % 60 == minutes % 60
    ensures minutes / 60 * HOUR + minutes % 60 * MINUTE == minutes * MINUTE
  {
  }

  lemma TotalOfTwo(a: string, b: string, h: int, m: int)
    requires Atoi(a) == Ok(h) && Atoi(b) == Ok(m) && 0 <= h <= 24 && 0 <= m < 60
    ensures Total([a, b], 2) == Ok(h * HOUR + m * MINUTE)
  {
    assert Total([a, b], 0) == Ok(0);
    assert Total([a, b], 1) == Ok(h * HOUR);
  }

  lemma ClockSplits(h: int, m: int)
    requires 0 <= h < 100 && 0 <= m < 100
    ensures Split(TrimSpace(TwoDigits(h) + ":" + TwoDigits(m)), ':') == [TwoDigits(h), TwoDigits(m)]
  {
    TwoDigitsRead(h);
    TwoDigitsRead(m);
    var s := TwoDigits(h) + ":" + TwoDigits(m);
    assert s[0] == TwoDigits(h)[0] && s[|s| - 1] == TwoDigits(m)[1];
    TrimIdle(s, Spaces);
    assert s == TwoDigits(h) + [':'] + TwoDigits(m);
    SplitFirst(TwoDigits(h), TwoDigits(m), ':');
    SplitClean(TwoDigits(m), ':');
  }

  // --- days --------------------------------------------------------------------------------

  // The words for days and the weekdays they name, Sunday being 0.
  function DayWords(): seq<(seq<string>, set<int>)> {
    [(["daily", "every-day", "everyday", "all"], {0, 1, 2, 3, 4, 5, 6}),
     (["weekdays", "weekday"], {1, 2, 3, 4, 5}),
     (["weekends", "weekend"], {0, 6}),
     (["sun", "sunday"], {0}),
     (["mon", "monday"], {1}),
     (["tue", "tues", "tuesday"], {2}),
     (["wed", "weds", "wednesday"], {3}),
     (["thu", "thur", "thurs", "thursday"], {4}),
     (["fri", "friday"], {5}),
     (["sat", "saturday"], {6})]
  }

  function Named(rows: seq<(seq<string>, set<int>)>, word: string): set<int> {
    if rows == [] then {} else if word in rows[0].0 then rows[0].1 else Named(rows[1..], word)
  }

  function DaysNamed(name: string): set<int> { Named(DayWords(), ToLower(TrimSpace(name))) }

  predicate NamesSome(name: string) { DaysNamed(name) != {} }

  /** Marks the days a word names, in place; a word that names none changes nothing. */
  method SetDays(into: array<bool>, name: string) returns (ok: bool)
    requires into.Length == 7
    modifies into
    ensures ok == NamesSome(name)
    ensures forall i :: 0 <= i < 7 ==> into[i] == (old(into[i]) || i in DaysNamed(name))
  {
    var days := DaysNamed(name);
    for i := 0 to 7
      invariant forall j :: 0 <= j < i ==> into[j] == (old(into[j]) || j in days)
      invariant forall j :: i <= j < 7 ==> into[j] == old(into[j])
    {
      if i in days {
        into[i] := true;
      }
    }
    return days != {};
  }

  // --- windows --------------------------------------------------------------------------------

  // What a duration field holds: nothing, something unreadable, or a length.
  datatype Duration = Absent | Unreadable | Length(d: int)

  datatype Declared = Declared(days: seq<string>, start: string, end: string, duration: Duration)

  function DaysUpTo(days: seq<string>, n: nat): set<int>
    requires n <= |days|
  {
    if n == 0 then {} else DaysUpTo(days, n - 1) + DaysNamed(days[n - 1])
  }

  // The declaration is usable.
  ghost predicate Compiles(w: Declared) {
    && w.days != [] && (forall i :: 0 <= i < |w.days| ==> NamesSome(w.days[i]))
    && ParsedClock(w.start).Ok? && ParsedClock(w.start).value < DAY
    && (TrimSpace(w.end) != "" <==> w.duration == Absent)
    && (w.duration != Absent ==> w.duration.Length? && w.duration.d > 0)
    && (TrimSpace(w.end) != "" ==> ParsedClock(w.end).Ok?)
  }

  /** Compiling a declaration succeeds exactly when it is usable, and then gives a
      valid window that opens on the days named, at the start, and - when an end was
      given - closes at that time of the same day or the next, after more than no
      time and at most a day. */
  method CompileWindow(w: Declared) returns (r: Result<Window>)
    ensures r.Ok? <==> Compiles(w)
    ensures r.Ok? ==>
      && Valid(r.value)
      && (forall i :: 0 <= i < 7 ==> (r.value.days[i] <==> i in DaysUpTo(w.days, |w.days|)))
      && ParsedClock(w.start) == Ok(r.value.start)
      && (w.duration.Length? ==> r.value.length == w.duration.d)
      && (w.duration == Absent ==>
            && r.value.length <= DAY
            && (r.value.start + r.value.length - ParsedClock(w.end).value) % DAY == 0)
  {
    var days := CompileDays(w.days);
    if days.Err? {
      return Err;
    }
    var start := ParseClock(w.start);
    if start.Err? || start.value >= DAY {
      return Err;
    }
    var hasEnd, hasDuration := TrimSpace(w.end) != "", w.duration != Absent;
    if hasEnd == hasDuration {
      return Err;
    }
    if hasDuration {
      if w.duration.Unreadable? || w.duration.d <= 0 {
        return Err;
      }
      return Ok(Window(days.value, start.value, w.duration.d));
    }
    var end := ParseClock(w.end);
    if end.Err? {
      return Err;
    }
    var close := if end.value <= start.value then end.value + DAY else end.value;
    return Ok(Window(days.value, start.value, close - start.value));
  }

  method CompileDays(days: seq<string>) returns (r: Result<seq<bool>>)
    ensures r.Ok? <==> days != [] && forall i :: 0 <= i < |days| ==> NamesSome(days[i])
    ensures r.Ok? ==> |r.value| == 7 && forall i :: 0 <= i < 7 ==> (r.value[i] <==> i in DaysUpTo(days, |days|))
  {
    if |days| == 0 {
      return Err;
    }
    var marked := new bool[7](i => false);
    for i := 0 to |days|
      invariant forall j :: 0 <= j < i ==> NamesSome(days[j])
      invariant forall j :: 0 <= j < 7 ==> (marked[j] <==> j in DaysUpTo(days, i))
    {
      var ok := SetDays(marked, days[i]);
      if !ok {
        return Err;
      }
    }
    return Ok(marked[..]);
  }
}
