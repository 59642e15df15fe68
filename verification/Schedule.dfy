/**
 * Which days a habit expects action on, and the week ranges reviews use.
 * Day 0 is 1970-01-01, a Thursday.
 */
module Schedule {
  import opened Common
  import opened Streaks

  const WEEKDAY_KEYS: seq<string> := ["Sun", "Mon", "Tue", "Wed", "Thu", "Fri", "Sat"]

  /** 2026-01-01, the anchor of interval habits without a start date. */
  const DEFAULT_ANCHOR: Day := 20454

  function WeekdayIndex(d: Day): (i: nat)
    ensures i < 7
  {
    (d + 4) % 7
  }

  function WeekdayKey(d: Day): string { WEEKDAY_KEYS[WeekdayIndex(d)] }

  datatype Schedule =
    | Daily
    | SpecificDays(days: seq<string>)
    | TimesPerWeek(quota: Option<int>)
    | Interval(every: Option<int>, start: Option<Day>)

  predicate IsScheduled(s: Schedule, d: Day) {
    match s
    case Daily => true
    case SpecificDays(days) => days == [] || WeekdayKey(d) in days
    case TimesPerWeek(_) => true
    case Interval(every, start) =>
      var n := every.GetOr(1);
      var anchor := start.GetOr(DEFAULT_ANCHOR);
      n <= 1 || (anchor <= d && (d - anchor) % n == 0)
  }

  /** The scheduled days among the `window` days ending on `end`, latest first. */
  function ScheduledDays(s: Schedule, end: Day, window: nat): seq<Day> {
    if window == 0 then []
    else
      var d := end - (window - 1);
      ScheduledDays(s, end, window - 1) + (if IsScheduled(s, d) then [d] else [])
  }

  method CountScheduledDays(s: Schedule, end: Day, window: nat) returns (scheduled: seq<Day>)
    ensures scheduled == ScheduledDays(s, end, window)
  {
    scheduled := [];
    for i := 0 to window
      invariant scheduled == ScheduledDays(s, end, i)
    {
      var key := end - i;
      if IsScheduled(s, key) {
        scheduled := scheduled + [key];
      }
    }
  }

  /** The list holds exactly the scheduled days of the window, without repetition. */
  lemma {:induction false} ScheduledDaysExact(s: Schedule, end: Day, window: nat)
    ensures forall d :: d in ScheduledDays(s, end, window) <==> end - window < d <= end && IsScheduled(s, d)
    ensures forall i, j :: 0 <= i < j < |ScheduledDays(s, end, window)| ==>
      ScheduledDays(s, end, window)[i] > ScheduledDays(s, end, window)[j]
  {
    if window > 0 {
      ScheduledDaysExact(s, end, window - 1);
      var d := end - (window - 1);
      var earlier := ScheduledDays(s, end, window - 1);
      assert forall x :: x in earlier + [d] <==> x in earlier || x == d;
      forall i | 0 <= i < |earlier| ensures earlier[i] > d {
        assert earlier[i] in earlier;
      }
    }
  }

  // ---- Interval habits -----------------------------------------------------

  /** An interval habit is due on its anchor, 2026-01-01 by default, and every n days after it; below 2, every day. */
  lemma IntervalDays(every: Option<int>, start: Option<Day>, d: Day)
    ensures var n := every.GetOr(1);
      var anchor := if start.Some? then start.value else 20454;
      IsScheduled(Interval(every, start), d) <==> n <= 1 || exists k: nat :: d == anchor + n * k
  {
    var n := every.GetOr(1);
    var anchor := start.GetOr(20454);
    if n > 1 {
      if IsScheduled(Interval(every, start), d) {
        var k: nat := (d - anchor) / n;
        assert d == anchor + n * k;
      }
      forall k: nat | d == anchor + n * k
        ensures IsScheduled(Interval(every, start), d)
      {
        assert n * k >= 0;
        DivUnique(d - anchor, n, k, 0);
      }
    }
  }

  /** How many multiples of `n` lie in [0, y). */
  function MultiplesBelow(y: nat, n: int): int
    requires n > 0
  {
    (y + n - 1) / n
  }

  lemma DivUnique(a: int, n: int, q: int, r: int)
    requires n > 0 && a == q * n + r && 0 <= r < n
    ensures a / n == q && a % n == r
  {
    var k := a / n - q;
    assert k * n == r - a % n;
    assert -n < k * n < n;
    assert k >= 1 ==> k * n >= n;
    assert k <= -1 ==> k * n <= -n;
  }

  lemma MultiplesStep(y: nat, n: int)
    requires n > 0
    ensures MultiplesBelow(y + 1, n) == MultiplesBelow(y, n) + (if y % n == 0 then 1 else 0)
  {
    var q, r := y / n, y % n;
    assert y == q * n + r;
    if r == 0 {
      DivUnique(y + n, n, q + 1, 0);
      DivUnique(y + n - 1, n, q, n - 1);
    } else {
      assert (q + 1) * n == q * n + n;
      DivUnique(y + n, n, q + 1, r);
      DivUnique(y + n - 1, n, q + 1, r - 1);
    }
  }

  lemma {:induction false} IntervalCount(anchor: Day, n: int, end: Day, window: nat)
    requires n > 1 && anchor <= end - window + 1
    ensures |ScheduledDays(Interval(Some(n), Some(anchor)), end, window)|
         == MultiplesBelow(end + 1 - anchor, n) - MultiplesBelow(end + 1 - anchor - window, n)
    decreases window
  {
    if window > 0 {
      IntervalCount(anchor, n, end, window - 1);
      MultiplesStep(end - (window - 1) - anchor, n);
    }
  }

  /**
   * Any window of `w` days on or after the anchor of an every-n-days habit holds
   * floor(w/n) or ceil(w/n) scheduled days, and exactly w/n when n divides w.
   */
  lemma IntervalWindow(anchor: Day, n: int, end: Day, w: nat)
    requires n >= 1 && anchor <= end - w + 1
    ensures var count := |ScheduledDays(Interval(Some(n), Some(anchor)), end, w)|;
      && w / n <= count <= (w + n - 1) / n
      && (w % n == 0 ==> count == w / n)
  {
    if n == 1 {
      EveryDayCount(anchor, end, w);
    } else {
      IntervalCount(anchor, n, end, w);
      MultiplesAdd(end + 1 - anchor - w, w, n);
    }
  }

  lemma {:induction false} EveryDayCount(anchor: Day, end: Day, w: nat)
    ensures |ScheduledDays(Interval(Some(1), Some(anchor)), end, w)| == w
    decreases w
  {
    if w > 0 {
      EveryDayCount(anchor, end, w - 1);
    }
  }

  /** The quotient of a sum: the quotients added, plus one exactly when the remainders carry. */
  lemma QuotientOfSum(a: nat, w: nat, n: int)
    requires n > 1
    ensures (a + w) / n == a / n + w / n + (if a % n + w % n >= n then 1 else 0)
  {
    var q, r := a / n, a % n;
    var p, t := w / n, w % n;
    assert a + w == (q + p) * n + (r + t);
    if r + t >= n {
      assert (q + p + 1) * n == (q + p) * n + n;
      DivUnique(a + w, n, q + p + 1, r + t - n);
    } else {
      DivUnique(a + w, n, q + p, r + t);
    }
  }

  lemma MultiplesAdd(y: nat, w: nat, n: int)
    requires n > 1
    ensures var more := MultiplesBelow(y + w, n) - MultiplesBelow(y, n);
      && w / n <= more <= (w + n - 1) / n
      && (w % n == 0 ==> more == w / n)
  {
    QuotientOfSum(y + n - 1, w, n);
    QuotientOfSum(n - 1, w, n);
    DivUnique(n - 1, n, 0, n - 1);
  }

  // ---- Weeks -----------------------------------------------------------------

  datatype WeekRange = WeekRange(start: Day, end: Day) {
    predicate Contains(d: Day) { start <= d <= end }
  }

  function MondayOf(d: Day): Day { d - (WeekdayIndex(d) + 6) % 7 }

  function WeekRangeFor(d: Day): WeekRange { WeekRange(MondayOf(d), MondayOf(d) + 6) }

  function PreviousWeekRange(r: WeekRange): WeekRange { WeekRange(r.start - 7, r.start - 1) }

  /** Weeks are counted from Monday, day -3. */
  lemma MondayByQuotient(d: Day)
    ensures MondayOf(d) == 7 * ((d + 3) / 7) - 3
    ensures MondayOf(d) <= d < MondayOf(d) + 7
    ensures WeekdayKey(MondayOf(d)) == "Mon"
  {
    assert ((d + 4) % 7 + 6) % 7 == (d + 3) % 7;
    var q := (d + 3) / 7;
    assert (7 * q - 3 + 4) % 7 == 1;
  }

  /** Monday weeks tile the calendar: a day's range holds exactly the days that share it. */
  lemma MondayWeeksTile(d: Day, e: Day)
    ensures WeekdayKey(MondayOf(d)) == "Mon"
    ensures WeekRangeFor(d).Contains(d)
    ensures WeekRangeFor(d).Contains(e) <==> WeekRangeFor(e) == WeekRangeFor(d)
    ensures PreviousWeekRange(WeekRangeFor(d)) == WeekRangeFor(d - 7)
  {
    MondayByQuotient(d);
    MondayByQuotient(e);
    MondayByQuotient(d - 7);
    assert (d - 7 + 3) / 7 == (d + 3) / 7 - 1;
  }

  /** A habit on named weekdays: in every week, each day is scheduled exactly when its name is listed, or no name is. */
  lemma NamedDays(days: seq<string>, d: Day)
    ensures var monday := MondayOf(d);
      && (IsScheduled(SpecificDays(days), monday) <==> days == [] || "Mon" in days)
      && (IsScheduled(SpecificDays(days), monday + 1) <==> days == [] || "Tue" in days)
      && (IsScheduled(SpecificDays(days), monday + 2) <==> days == [] || "Wed" in days)
      && (IsScheduled(SpecificDays(days), monday + 3) <==> days == [] || "Thu" in days)
      && (IsScheduled(SpecificDays(days), monday + 4) <==> days == [] || "Fri" in days)
      && (IsScheduled(SpecificDays(days), monday + 5) <==> days == [] || "Sat" in days)
      && (IsScheduled(SpecificDays(days), monday + 6) <==> days == [] || "Sun" in days)
  {
    MondayByQuotient(d);
    var q := (d + 3) / 7;
    WeekdayFrom(q, 0);
    WeekdayFrom(q, 1);
    WeekdayFrom(q, 2);
    WeekdayFrom(q, 3);
    WeekdayFrom(q, 4);
    WeekdayFrom(q, 5);
    WeekdayFrom(q, 6);
  }

  lemma WeekdayFrom(q: int, k: int)
    requires 0 <= k < 7
    ensures WeekdayIndex(7 * q - 3 + k) == (k + 1) % 7
  {
    assert 7 * q - 3 + k + 4 == 7 * q + (k + 1);
    assert (7 * q + (k + 1)) % 7 == (k + 1) % 7;
  }

  /** Seven-day weeks anchored on the account's creation day; earlier days report week 1. */
  function UserWeek(created: Day, today: Day): (WeekRange, int) {
    var days := today - created;
    if days < 0 then (WeekRange(created, created + 6), 1)
    else
      var start := created + days / 7 * 7;
      (WeekRange(start, start + 6), days / 7 + 1)
  }

  /** Account weeks tile the days from creation on, numbered consecutively from 1. */
  lemma UserWeeksTile(created: Day, d: Day, e: Day)
    requires created <= d && created <= e
    ensures UserWeek(created, d).0.Contains(d)
    ensures UserWeek(created, d).0.Contains(e) <==> UserWeek(created, e) == UserWeek(created, d)
    ensures UserWeek(created, created).1 == 1
    ensures UserWeek(created, d + 7).1 == UserWeek(created, d).1 + 1
    ensures UserWeek(created, d + 7).0.start == UserWeek(created, d).0.end + 1
  {
  }
}
