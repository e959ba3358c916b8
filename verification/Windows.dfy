/** Window arithmetic: which instants a recurring window covers, and how far back
    the look-back has to reach to know. Instants and durations count nanoseconds. */
module Windows {

  const SECOND := 1_000_000_000
  const MINUTE := 60 * SECOND
  const HOUR := 60 * MINUTE
  const DAY := 24 * HOUR

  // A compiled window: the days it opens on, Sunday first, the offset of the opening
  // from local midnight, and how long it stays open.
  datatype Window = Window(days: seq<bool>, start: int, length: int)

  // What compilation guarantees of every window.
  predicate Valid(w: Window) { |w.days| == 7 && 0 <= w.start < DAY && 0 < w.length }

  predicate AllValid(ws: seq<Window>) { forall i :: 0 <= i < |ws| ==> Valid(ws[i]) }

  // Local days are numbered; day 0 is a Thursday.
  function Weekday(day: int): int { (day + 4) % 7 }

  /** The days of the week go round, from the Thursday on which the count began. */
  lemma WeekGoesRound(day: int)
    ensures Weekday(0) == 4 && Weekday(day + 1) == if Weekday(day) == 6 then 0 else Weekday(day) + 1
  {
  }

  /** A zone is its midnights: the instant each local day begins. */
  type Midnights = int -> int

  function DayLength(mid: Midnights, day: int): int { mid(day + 1) - mid(day) }

  ghost predicate DaysAtLeast(mid: Midnights, least: int) { forall day :: DayLength(mid, day) >= least }

  predicate OnDay(mid: Midnights, day: int, t: int) { mid(day) <= t < mid(day + 1) }

  // The opening of one day covers t.
  predicate Covers(mid: Midnights, w: Window, day: int, t: int)
    requires Valid(w)
  {
    w.days[Weekday(day)] && mid(day) + w.start <= t < mid(day) + w.start + w.length
  }

  function Back(w: Window): int { w.length / DAY + 1 }

  // What the look-back sees: the openings of today and of Back days before it.
  predicate ActiveWindow(mid: Midnights, w: Window, today: int, t: int)
    requires Valid(w)
  {
    exists day :: today - Back(w) <= day <= today && Covers(mid, w, day, t)
  }

  predicate Active(mid: Midnights, ws: seq<Window>, today: int, t: int)
    requires AllValid(ws)
  {
    exists i :: 0 <= i < |ws| && ActiveWindow(mid, ws[i], today, t)
  }

  // What the schedule means: some opening, however far back, covers t.
  ghost predicate Covered(mid: Midnights, w: Window, t: int)
    requires Valid(w)
  {
    exists day :: Covers(mid, w, day, t)
  }

  method ActiveNow(ws: seq<Window>, mid: Midnights, today: int, t: int) returns (up: bool)
    requires AllValid(ws)
    ensures up == Active(mid, ws, today, t)
  {
    for i := 0 to |ws|
      invariant forall j :: 0 <= j < i ==> !ActiveWindow(mid, ws[j], today, t)
    {
      var w := ws[i];
      var back := w.length / DAY + 1;
      var d := 0;
      while d <= back
        invariant 0 <= d <= back + 1
        invariant forall day :: today - d < day <= today ==> !Covers(mid, w, day, t)
      {
        var day := today - d;
        if !w.days[Weekday(day)] {
          d := d + 1;
          continue;
        }
        var open := mid(day) + w.start;
        if open <= t && t < open + w.length {
          assert Covers(mid, w, day, t) && ActiveWindow(mid, ws[i], today, t);
          return true;
        }
        d := d + 1;
      }
    }
    return false;
  }

  // --- spans of days -----------------------------------------------------------------

  lemma {:induction false} SpanAtLeast(mid: Midnights, lo: int, n: nat, least: int)
    requires forall day :: lo <= day < lo + n ==> DayLength(mid, day) >= least
    ensures mid(lo + n) - mid(lo) >= n * least
  {
    if n > 0 {
      SpanAtLeast(mid, lo, n - 1, least);
      assert DayLength(mid, lo + n - 1) >= least;
      assert n * least == (n - 1) * least + least;
    }
  }

  // At most one day of the span is shorter than a day, and by no more than an hour.
  predicate OneShort(mid: Midnights, lo: int, n: nat, short: int) {
    forall day :: lo <= day < lo + n ==> DayLength(mid, day) >= if day == short then DAY - HOUR else DAY
  }

  lemma {:induction false} SpanOneShort(mid: Midnights, lo: int, n: nat, short: int)
    requires OneShort(mid, lo, n, short)
    ensures mid(lo + n) - mid(lo) >= n * DAY - if lo <= short < lo + n then HOUR else 0
  {
    if n > 0 {
      SpanOneShort(mid, lo, n - 1, short);
      assert DayLength(mid, lo + n - 1) >= if lo + n - 1 == short then DAY - HOUR else DAY;
    }
  }

  /** What an opening out of the look-back's reach would need: the days of the
      look-back together are shorter than the window reaches. */
  lemma OutOfReach(mid: Midnights, w: Window, today: int, t: int, day: int)
    requires Valid(w) && DaysAtLeast(mid, 1) && OnDay(mid, today, t)
    requires Covers(mid, w, day, t) && !(today - Back(w) <= day <= today)
    ensures day < today - Back(w) && mid(today) - mid(day) < w.start + w.length
  {
    if day > today {
      SpanAtLeast(mid, today + 1, day - today - 1, 1);
    }
  }

  /** On days of at least 24 hours the bounded look-back is exact: the schedule is
      reported active if and only if some opening, unboundedly far back, covers t. */
  lemma LookBackExact(mid: Midnights, w: Window, today: int, t: int)
    requires Valid(w) && DaysAtLeast(mid, DAY) && OnDay(mid, today, t)
    ensures ActiveWindow(mid, w, today, t) <==> Covered(mid, w, t)
  {
    if day :| Covers(mid, w, day, t) {
      if !(today - Back(w) <= day <= today) {
        assert forall d :: DayLength(mid, d) >= DAY >= 1;
        OutOfReach(mid, w, today, t, day);
        SpanAtLeast(mid, day, today - day, DAY);
      }
    }
  }

  /** So a schedule is open if and only if an opening of any of its windows covers t. */
  lemma ActiveExact(mid: Midnights, ws: seq<Window>, today: int, t: int)
    requires AllValid(ws) && DaysAtLeast(mid, DAY) && OnDay(mid, today, t)
    ensures Active(mid, ws, today, t) <==> exists w :: w in ws && Valid(w) && Covered(mid, w, t)
  {
    forall i | 0 <= i < |ws| ensures ActiveWindow(mid, ws[i], today, t) <==> Covered(mid, ws[i], t) {
      LookBackExact(mid, ws[i], today, t);
    }
  }

  // The windows that one 23-hour day can hide: their reach past whole days is long, and
  // some opening of theirs is followed by none on the days it spans.
  predicate Missable(w: Window)
    requires Valid(w)
  {
    && w.start + w.length % DAY > 47 * HOUR
    && exists wd :: 0 <= wd < 7 && OpensThenRests(w, wd)
  }

  predicate OpensThenRests(w: Window, wd: int)
    requires Valid(w) && 0 <= wd < 7
  {
    w.days[wd] && forall j :: 1 <= j <= w.length / DAY ==> !OpensAfter(w, wd, j)
  }

  predicate OpensAfter(w: Window, wd: int, j: int)
    requires Valid(w)
  {
    w.days[(wd + j) % 7]
  }

  /** With one 23-hour day among the days the look-back spans it is still exact for
      every window that cannot be missed. */
  lemma LookBackExactShort(mid: Midnights, w: Window, today: int, t: int, short: int)
    requires Valid(w) && DaysAtLeast(mid, DAY - HOUR) && OnDay(mid, today, t)
    requires OneShort(mid, today - Back(w) - 1, Back(w) + 1, short)
    requires !Missable(w)
    ensures ActiveWindow(mid, w, today, t) <==> Covered(mid, w, t)
  {
    if day :| Covers(mid, w, day, t) {
      if !(today - Back(w) <= day <= today) {
        ShortReach(mid, w, today, t, day, short);
        assert !OpensThenRests(w, Weekday(day));
        var j :| 1 <= j <= w.length / DAY && OpensAfter(w, Weekday(day), j);
        LaterOpening(mid, w, today, t, day, j);
      }
    }
  }

  // Only the day just out of reach can still cover t, and only for a window that
  // opens late and whose length ends late in a day.
  lemma ShortReach(mid: Midnights, w: Window, today: int, t: int, day: int, short: int)
    requires Valid(w) && DaysAtLeast(mid, DAY - HOUR) && OnDay(mid, today, t)
    requires OneShort(mid, today - Back(w) - 1, Back(w) + 1, short)
    requires Covers(mid, w, day, t) && !(today - Back(w) <= day <= today)
    ensures day == today - Back(w) - 1 && w.start + w.length % DAY > 47 * HOUR
  {
    var n := Back(w) + 1;
    assert forall d :: DayLength(mid, d) >= DAY - HOUR >= 1;
    OutOfReach(mid, w, today, t, day);
    SpanOneShort(mid, today - n, n, short);
    SpanAtLeast(mid, day, today - n - day, DAY - HOUR);
    assert w.length == w.length / DAY * DAY + w.length % DAY;
  }

  // Another opening on the days that one spans covers t too.
  lemma LaterOpening(mid: Midnights, w: Window, today: int, t: int, day: int, j: int)
    requires Valid(w) && DaysAtLeast(mid, DAY - HOUR) && OnDay(mid, today, t)
    requires day == today - Back(w) - 1 && Covers(mid, w, day, t)
    requires 1 <= j <= w.length / DAY && OpensAfter(w, Weekday(day), j)
    ensures ActiveWindow(mid, w, today, t)
  {
    var later := day + j;
    SpanAtLeast(mid, later, today - later, DAY - HOUR);
    assert (today - later) * (DAY - HOUR) >= 2 * (DAY - HOUR);
    SpanAtLeast(mid, day, j, DAY - HOUR);
    assert Weekday(later) == (Weekday(day) + j) % 7;
    assert Covers(mid, w, later, t);
  }

  // Midnights with one 23-hour day.
  function OneShortDay(short: int): Midnights { (day: int) => day * DAY - if day > short then HOUR else 0 }

  // A zone's one 23-hour day hides the window at t: it is open and reported shut.
  ghost predicate Missed(w: Window, short: int, today: int, t: int)
    requires Valid(w)
  {
    var mid := OneShortDay(short);
    && OnDay(mid, today, t) && OneShort(mid, today - Back(w) - 1, Back(w) + 1, short)
    && Covered(mid, w, t) && !ActiveWindow(mid, w, today, t)
  }

  /** And only for those: every window that can be missed is missed on some day of some
      zone with a single 23-hour day. */
  lemma LookBackMisses(w: Window)
    requires Valid(w) && Missable(w)
    ensures exists short, today, t :: Missed(w, short, today, t)
  {
    var wd :| 0 <= wd < 7 && OpensThenRests(w, wd);
    var today := wd + 3 + Back(w) + 1;
    MissedAt(w, wd, today - 1, today);
    assert Missed(w, today - 1, today, today * DAY - HOUR);
  }

  lemma MissedAt(w: Window, wd: int, short: int, today: int)
    requires Valid(w) && w.start + w.length % DAY > 47 * HOUR
    requires 0 <= wd < 7 && OpensThenRests(w, wd) && today == wd + 3 + Back(w) + 1 && short == today - 1
    ensures Missed(w, short, today, today * DAY - HOUR)
  {
    var q, day, mid, t := w.length / DAY, wd + 3, OneShortDay(short), today * DAY - HOUR;
    assert w.length == q * DAY + w.length % DAY;
    assert Covers(mid, w, day, t);
    forall d | today - Back(w) <= d <= today ensures !Covers(mid, w, d, t) {
      NotSeen(w, wd, today, d);
    }
  }

  lemma NotSeen(w: Window, wd: int, today: int, d: int)
    requires Valid(w) && w.start + w.length % DAY > 47 * HOUR
    requires 0 <= wd < 7 && OpensThenRests(w, wd) && today == wd + 3 + Back(w) + 1 && today - Back(w) <= d <= today
    ensures !Covers(OneShortDay(today - 1), w, d, today * DAY - HOUR)
  {
    if d <= today - 2 {
      assert Weekday(d) == (wd + (d - wd - 3)) % 7;
      assert !OpensAfter(w, wd, d - wd - 3);
    } else {
      assert w.start > 23 * HOUR;
    }
  }

  /** So with one 23-hour day among them, exactness is exactly not being missable. */
  lemma ExactWhen(w: Window)
    requires Valid(w)
    ensures !Missable(w) <==> ExactOnShortDays(w)
  {
    if !Missable(w) {
      forall mid, today, t, short | ShortSpan(mid, w, today, t, short)
        ensures ActiveWindow(mid, w, today, t) <==> Covered(mid, w, t)
      {
        LookBackExactShort(mid, w, today, t, short);
      }
    } else {
      LookBackMisses(w);
      var short, today, t :| Missed(w, short, today, t);
      assert ShortSpan(OneShortDay(short), w, today, t, short);
    }
  }

  // t is on today, and at most one of the days the look-back spans is short.
  ghost predicate ShortSpan(mid: Midnights, w: Window, today: int, t: int, short: int)
    requires Valid(w)
  {
    && DaysAtLeast(mid, DAY - HOUR) && OnDay(mid, today, t)
    && OneShort(mid, today - Back(w) - 1, Back(w) + 1, short)
  }

  ghost predicate ExactOnShortDays(w: Window)
    requires Valid(w)
  {
    forall mid, today, t, short | ShortSpan(mid, w, today, t, short) ::
      ActiveWindow(mid, w, today, t) <==> Covered(mid, w, t)
  }
}
