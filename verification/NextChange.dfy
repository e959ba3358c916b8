/** When a schedule next opens or closes, searched a minute at a time, in a zone
    whose offset from universal time is fixed. */
module NextChange {
  import opened Windows

  // Midnights of a zone with a fixed offset.
  function Fixed(offset: int): Midnights { (day: int) => day * DAY - offset }

  function DayOf(offset: int, t: int): int { (t + offset) / DAY }

  predicate ActiveAt(ws: seq<Window>, offset: int, t: int)
    requires AllValid(ws)
  {
    Active(Fixed(offset), ws, DayOf(offset, t), t)
  }

  predicate WholeMinutes(ws: seq<Window>, offset: int) {
    offset % MINUTE == 0
    && forall i :: 0 <= i < |ws| ==> ws[i].start % MINUTE == 0 && ws[i].length % MINUTE == 0
  }

  function Truncate(t: int): int { t - t % MINUTE }

  // A boundary on the minute grid does not fall inside a minute.
  lemma SameSide(boundary: int, t: int)
    requires boundary % MINUTE == 0
    ensures boundary <= t <==> boundary <= Truncate(t)
  {}

  lemma DayGrid(day: int, offset: int, start: int)
    requires offset % MINUTE == 0 && start % MINUTE == 0
    ensures (Fixed(offset)(day) + start) % MINUTE == 0
  {
  }

  /** An opening covers an instant if and only if it covers the start of its minute. */
  lemma CoversMinute(w: Window, offset: int, day: int, t: int)
    requires Valid(w) && offset % MINUTE == 0 && w.start % MINUTE == 0 && w.length % MINUTE == 0
    ensures Covers(Fixed(offset), w, day, t) <==> Covers(Fixed(offset), w, day, Truncate(t))
  {
    DayGrid(day, offset, w.start);
    var open := Fixed(offset)(day) + w.start;
    SameSide(open, t);
    SameSide(open + w.length, t);
  }

  lemma CoveredMinute(w: Window, offset: int, t: int)
    requires Valid(w) && offset % MINUTE == 0 && w.start % MINUTE == 0 && w.length % MINUTE == 0
    ensures Covered(Fixed(offset), w, t) <==> Covered(Fixed(offset), w, Truncate(t))
  {
    if day :| Covers(Fixed(offset), w, day, t) {
      CoversMinute(w, offset, day, t);
    }
    if day :| Covers(Fixed(offset), w, day, Truncate(t)) {
      CoversMinute(w, offset, day, t);
    }
  }

  lemma ActiveIsCovered(w: Window, offset: int, t: int)
    requires Valid(w)
    ensures ActiveWindow(Fixed(offset), w, DayOf(offset, t), t) <==> Covered(Fixed(offset), w, t)
  {
  }

  /** Activity is constant within each minute. */
  lemma ActiveMinute(ws: seq<Window>, offset: int, t: int)
    requires AllValid(ws) && WholeMinutes(ws, offset)
    ensures ActiveAt(ws, offset, t) == ActiveAt(ws, offset, Truncate(t))
  {
    forall i | 0 <= i < |ws|
      ensures ActiveWindow(Fixed(offset), ws[i], DayOf(offset, t), t)
              <==> ActiveWindow(Fixed(offset), ws[i], DayOf(offset, Truncate(t)), Truncate(t))
    {
      CoveredMinute(ws[i], offset, t);
      ActiveIsCovered(ws[i], offset, t);
      ActiveIsCovered(ws[i], offset, Truncate(t));
    }
  }

  const WEEK := 7 * DAY

  lemma CoversWeek(w: Window, offset: int, day: int, t: int)
    requires Valid(w)
    ensures Covers(Fixed(offset), w, day, t) <==> Covers(Fixed(offset), w, day + 7, t + WEEK)
  {
  }

  /** Activity repeats every week. */
  lemma ActiveWeek(ws: seq<Window>, offset: int, t: int)
    requires AllValid(ws)
    ensures ActiveAt(ws, offset, t + WEEK) == ActiveAt(ws, offset, t)
  {
    forall i | 0 <= i < |ws|
      ensures ActiveWindow(Fixed(offset), ws[i], DayOf(offset, t), t)
              <==> ActiveWindow(Fixed(offset), ws[i], DayOf(offset, t + WEEK), t + WEEK)
    {
      var w := ws[i];
      ActiveIsCovered(w, offset, t);
      ActiveIsCovered(w, offset, t + WEEK);
      if day :| Covers(Fixed(offset), w, day, t) {
        CoversWeek(w, offset, day, t);
      }
      var later := t + WEEK;
      if day :| Covers(Fixed(offset), w, day, later) {
        CoversWeek(w, offset, day - 7, t);
      }
    }
  }

  lemma {:induction false} ActiveWeeks(ws: seq<Window>, offset: int, t: int, n: nat)
    requires AllValid(ws)
    ensures ActiveAt(ws, offset, t + n * WEEK) == ActiveAt(ws, offset, t)
  {
    if n > 0 {
      ActiveWeeks(ws, offset, t, n - 1);
      ActiveWeek(ws, offset, t + (n - 1) * WEEK);
    }
  }

  // The n-th minute after the one from falls in.
  function Minute(from: int, n: nat): int { Truncate(from) + n * MINUTE }

  const FORTNIGHT := 14 * 24 * 60

  /** No flip on the grid for a fortnight means no flip ever again. */
  lemma SteadyForever(ws: seq<Window>, offset: int, from: int, t: int)
    requires AllValid(ws) && WholeMinutes(ws, offset) && from <= t
    requires forall n :: 0 <= n <= FORTNIGHT ==> ActiveAt(ws, offset, Minute(from, n)) == ActiveAt(ws, offset, from)
    ensures ActiveAt(ws, offset, t) == ActiveAt(ws, offset, from)
  {
    var since := Truncate(t) - Truncate(from);
    var n := since / MINUTE;
    assert since == n * MINUTE;
    var weeks, rest := n / 10080, n % 10080;
    ActiveMinute(ws, offset, t);
    assert Truncate(t) == Minute(from, rest) + weeks * WEEK;
    ActiveWeeks(ws, offset, Minute(from, rest), weeks);
  }

  /** No flip on the first n minutes of the grid means no flip before the next one. */
  lemma SteadyUntil(ws: seq<Window>, offset: int, from: int, n: nat, t: int)
    requires AllValid(ws) && WholeMinutes(ws, offset) && from <= t < Minute(from, n)
    requires forall k :: 0 <= k < n ==> ActiveAt(ws, offset, Minute(from, k)) == ActiveAt(ws, offset, from)
    ensures ActiveAt(ws, offset, t) == ActiveAt(ws, offset, from)
  {
    var k := (Truncate(t) - Truncate(from)) / MINUTE;
    assert Truncate(t) == Minute(from, k);
    ActiveMinute(ws, offset, t);
  }

  datatype Change = Never | When(t: int)

  /** The answer is the first instant after from, at any resolution, at which the
      schedule flips; and no answer means it never does. */
  method NextFlip(ws: seq<Window>, offset: int, from: int) returns (change: Change)
    requires AllValid(ws) && WholeMinutes(ws, offset)
    ensures change.When? ==>
      && from < change.t && ActiveAt(ws, offset, change.t) != ActiveAt(ws, offset, from)
      && forall t :: from <= t < change.t ==> ActiveAt(ws, offset, t) == ActiveAt(ws, offset, from)
    ensures change.Never? ==> forall t :: from <= t ==> ActiveAt(ws, offset, t) == ActiveAt(ws, offset, from)
  {
    var now := ActiveNow(ws, Fixed(offset), DayOf(offset, from), from);
    var t := from - from % MINUTE;
    ActiveMinute(ws, offset, from);
    for i := 0 to 14 * 24 * 60
      invariant t == Minute(from, i)
      invariant forall n :: 0 <= n <= i ==> ActiveAt(ws, offset, Minute(from, n)) == now
    {
      t := t + MINUTE;
      var flips := ActiveNow(ws, Fixed(offset), DayOf(offset, t), t);
      if flips != now {
        forall u | from <= u < t ensures ActiveAt(ws, offset, u) == ActiveAt(ws, offset, from) {
          SteadyUntil(ws, offset, from, i + 1, u);
        }
        return When(t);
      }
    }
    forall u | from <= u ensures ActiveAt(ws, offset, u) == ActiveAt(ws, offset, from) {
      SteadyForever(ws, offset, from, u);
    }
    return Never;
  }
}
