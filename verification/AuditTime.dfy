/** The checkpoint grid: instants are microseconds since the Unix epoch, in UTC. */
module AuditTime {
  type Instant = int

  const SECOND: int := 1_000_000
  const MINUTE: int := 60 * SECOND
  const DAY: int := 1440 * MINUTE
  /** `datetime.min` in UTC. */
  const EARLIEST: int := -62_135_596_800 * SECOND

  /** What `AuditSettings` accepts as `checkpoint_window_minutes`. */
  predicate ValidWindow(minutes: int) {
    1 <= minutes && 1440 % minutes == 0
  }

  function Span(minutes: int): int {
    minutes * MINUTE
  }

  /** The next multiple of the window length after `start`. */
  function WindowEnd(start: Instant, minutes: int): Instant
    requires 1 <= minutes
  {
    (start / Span(minutes) + 1) * Span(minutes)
  }

  /** Where the very first window starts: the oldest row, floored to the grid. */
  function FirstStart(first: Instant, minutes: int): Instant
    requires 1 <= minutes
  {
    first - first % Span(minutes)
  }

  /** The UTC midnight at or before `t`. */
  function Midnight(t: Instant): Instant {
    t / DAY * DAY
  }

  predicate OnMinute(t: Instant) {
    t % MINUTE == 0
  }

  lemma DivBounds(a: int, s: int)
    requires s > 0
    ensures a / s * s <= a < (a / s + 1) * s
  {
    assert a == a / s * s + a % s;
  }

  /** `(a / s + 1) * s` is the least multiple of `s` above `a`. */
  lemma LeastMultipleAbove(a: int, s: int, m: int)
    requires s > 0 && a < m * s
    ensures (a / s + 1) * s <= m * s
  {
    DivBounds(a, s);
    var q := a / s;
    assert m <= q ==> m * s <= q * s;
    assert q + 1 <= m ==> (q + 1) * s <= m * s;
  }

  lemma {:induction false} ModOfMultiple(k: int, s: int)
    requires s > 0
    ensures (k * s) % s == 0
  {
    var q, r := (k * s) / s, (k * s) % s;
    assert k * s == q * s + r;
    assert r == (k - q) * s;
    assert k - q >= 1 ==> (k - q) * s >= s;
    assert k - q <= -1 ==> (k - q) * s <= -s;
  }

  /** A window length that divides a day: midnights lie on its grid. */
  lemma SpanDividesDay(minutes: int)
    requires ValidWindow(minutes)
    ensures Span(minutes) > 0
    ensures DAY == (1440 / minutes) * Span(minutes)
  {
    assert 1440 == (1440 / minutes) * minutes;
    assert (1440 / minutes) * (minutes * MINUTE) == (1440 / minutes) * minutes * MINUTE;
  }

  /** A window is never empty in time nor longer than the setting, ends on the grid, and stays inside one UTC day,
      wherever the previous setting left its start. */
  lemma WindowEndOnGrid(start: Instant, minutes: int)
    requires ValidWindow(minutes)
    ensures start < WindowEnd(start, minutes) <= start + Span(minutes)
    ensures WindowEnd(start, minutes) % Span(minutes) == 0
    ensures OnMinute(WindowEnd(start, minutes))
    ensures WindowEnd(start, minutes) <= Midnight(start) + DAY
    ensures Midnight(start) <= start
  {
    var s := Span(minutes);
    SpanDividesDay(minutes);
    DivBounds(start, s);
    assert (start / s + 1) * s == start / s * s + s;
    ModOfMultiple(start / s + 1, s);
    assert WindowEnd(start, minutes) == (start / s + 1) * minutes * MINUTE by {
      assert (start / s + 1) * (minutes * MINUTE) == (start / s + 1) * minutes * MINUTE;
    }
    ModOfMultiple((start / s + 1) * minutes, MINUTE);
    DivBounds(start, DAY);
    var m := (start / DAY + 1) * (1440 / minutes);
    assert m * s == (start / DAY + 1) * DAY by {
      assert (start / DAY + 1) * (1440 / minutes) * s == (start / DAY + 1) * ((1440 / minutes) * s);
    }
    LeastMultipleAbove(start, s, m);
    assert (start / DAY + 1) * DAY == Midnight(start) + DAY;
  }

  /** The first window starts on the grid, at or before the oldest row. */
  lemma FirstStartOnGrid(first: Instant, minutes: int)
    requires ValidWindow(minutes)
    ensures FirstStart(first, minutes) <= first < WindowEnd(FirstStart(first, minutes), minutes)
    ensures FirstStart(first, minutes) % Span(minutes) == 0
    ensures OnMinute(FirstStart(first, minutes))
  {
    var s := Span(minutes);
    assert s > 0;
    DivBounds(first, s);
    var q := first / s;
    assert FirstStart(first, minutes) == q * s;
    ModOfMultiple(q, s);
    ExactQuotient(q, s);
    assert (q + 1) * s == q * s + s;
    assert q * s == q * minutes * MINUTE by {
      assert q * (minutes * MINUTE) == q * minutes * MINUTE;
    }
    ModOfMultiple(q * minutes, MINUTE);
  }

  lemma ExactQuotient(q: int, s: int)
    requires s > 0
    ensures q * s / s == q
  {
    DivBounds(q * s, s);
    var k := q * s / s;
    var d := k - q;
    assert d * s == k * s - q * s;
    assert d >= 1 ==> d * s >= s;
    assert d <= -1 ==> d * s <= -s;
  }

  /** A midnight never falls strictly inside a window: the day a partition drop removes holds whole windows. */
  lemma MidnightOutside(start: Instant, end: Instant, t: Instant)
    requires start < end <= Midnight(start) + DAY
    ensures end <= Midnight(t) || Midnight(t) <= start
  {
    DivBounds(start, DAY);
    var d, e := start / DAY, t / DAY;
    if e <= d {
      assert e * DAY <= d * DAY;
    } else {
      assert (d + 1) * DAY <= e * DAY;
      assert (d + 1) * DAY == d * DAY + DAY;
    }
  }
}
