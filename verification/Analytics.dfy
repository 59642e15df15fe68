/**
 * Behaviour analytics: the day series of a habit, its completion rate over a
 * window, and the same days split by weekday. Rates are exact.
 */
module Analytics {
  import opened Common
  import opened Schedule
  import opened Streaks

  datatype Habit = Habit(schedule: Schedule, start: Option<Day>)

  datatype CompletionFact = CompletionFact(day: Day, status: bool)

  datatype Observation = Observation(day: Day, scheduled: bool, isToday: bool, completion: Option<bool>)

  // ---- The series ------------------------------------------------------------------

  /** The last row of a day wins. */
  function Lookup(facts: seq<CompletionFact>, day: Day): Option<bool>
    decreases |facts|
  {
    if facts == [] then None
    else
      var last := facts[|facts| - 1];
      if last.day == day then Some(last.status) else Lookup(facts[..|facts| - 1], day)
  }

  /** A day before the habit starts is never scheduled. */
  predicate Expected(h: Habit, day: Day) { !(h.start.Some? && day < h.start.value) && IsScheduled(h.schedule, day) }

  function Observe(h: Habit, today: Day, facts: seq<CompletionFact>, day: Day): Observation {
    Observation(day, Expected(h, day), day == today, Lookup(facts, day))
  }

  /** One observation a day, oldest first, ending with today. */
  ghost predicate IsSeries(series: seq<Observation>, h: Habit, today: Day, facts: seq<CompletionFact>) {
    forall k :: 0 <= k < |series| ==> series[k] == Observe(h, today, facts, today - (|series| - 1 - k))
  }

  method BuildDaySeries(h: Habit, today: Day, window: int, facts: seq<CompletionFact>)
    returns (series: seq<Observation>)
    ensures |series| == Max(0, window) && IsSeries(series, h, today, facts)
  {
    var byDate: map<Day, bool> := map[];
    for i := 0 to |facts|
      invariant forall d :: (if d in byDate then Some(byDate[d]) else None) == Lookup(facts[..i], d)
    {
      assert facts[..i + 1][..i] == facts[..i];
      byDate := byDate[facts[i].day := facts[i].status];
    }
    assert facts[..|facts|] == facts;
    series := [];
    var i := window - 1;
    while i >= 0
      invariant -1 <= i || i == window - 1
      invariant |series| == Max(0, window) - Max(0, i + 1)
      invariant forall k :: 0 <= k < |series| ==> series[k] == Observe(h, today, facts, today - (window - 1 - k))
    {
      var day := today - i;
      var beforeStart := h.start.Some? && day < h.start.value;
      var completion := if day in byDate then Some(byDate[day]) else None;
      assert completion == Lookup(facts, day);
      series := series + [Observation(day, !beforeStart && IsScheduled(h.schedule, day), day == today, completion)];
      i := i - 1;
    }
  }

  // ---- Counting --------------------------------------------------------------------

  /** A scheduled day whose outcome is settled. */
  predicate Past(o: Observation) { o.scheduled && !o.isToday }

  /** Past days, all of them or those of one weekday. */
  predicate Counted(o: Observation, weekday: Option<nat>) {
    Past(o) && (weekday.None? || weekday.value == WeekdayIndex(o.day))
  }

  function Eligible(series: seq<Observation>, weekday: Option<nat>): (n: nat)
    ensures n <= |series|
  {
    if series == [] then 0
    else
      var last := |series| - 1;
      Eligible(series[..last], weekday) + (if Counted(series[last], weekday) then 1 else 0)
  }

  function Done(series: seq<Observation>, weekday: Option<nat>): (n: nat)
    ensures n <= Eligible(series, weekday)
  {
    if series == [] then 0
    else
      var last := |series| - 1;
      Done(series[..last], weekday)
      + (if Counted(series[last], weekday) && series[last].completion == Some(true) then 1 else 0)
  }

  // ---- Rates -----------------------------------------------------------------------

  /** The weekly quota pro-rated over the window, rounded up; other schedules expect every eligible day. */
  function ExpectedCompletions(h: Habit, eligible: nat, window: nat): nat {
    match h.schedule
    case TimesPerWeek(quota) => Min(eligible, (Max(1, quota.GetOr(1)) * Max(1, window) + 6) / 7)
    case _ => eligible
  }

  datatype Rate = Rate(rate: Option<real>, expected: nat, completed: nat)

  /** A slice from `-window`: a zero window is the whole series. */
  function LastDays(series: seq<Observation>, window: nat): seq<Observation> {
    if window == 0 || window >= |series| then series else series[|series| - window..]
  }

  predicate CompletedToday(series: seq<Observation>) {
    series != [] && series[|series| - 1].isToday && series[|series| - 1].completion == Some(true)
  }

  function MinReal(a: real, b: real): real { if a <= b then a else b }

  function RateForWindow(series: seq<Observation>, h: Habit, window: nat): Rate {
    var days := LastDays(series, window);
    var today := if CompletedToday(series) then 1 else 0;
    var expected := ExpectedCompletions(h, Eligible(days, None), window) + today;
    var completed := Done(days, None) + today;
    if expected == 0 then Rate(None, 0, 0)
    else Rate(Some(MinReal(1.0, completed as real / expected as real)), expected, completed)
  }

  method ComputeRateForWindow(series: seq<Observation>, h: Habit, window: nat) returns (r: Rate)
    ensures r == RateForWindow(series, h, window)
  {
    var slice := LastDays(series, window);
    var eligiblePast, completedPast := 0, 0;
    for i := 0 to |slice|
      invariant eligiblePast == Eligible(slice[..i], None) && completedPast == Done(slice[..i], None)
    {
      assert slice[..i + 1][..i] == slice[..i];
      var day := slice[i];
      if day.isToday || !day.scheduled {
        continue;
      }
      eligiblePast := eligiblePast + 1;
      if day.completion == Some(true) {
        completedPast := completedPast + 1;
      }
    }
    assert slice[..|slice|] == slice;
    var today := if CompletedToday(series) then 1 else 0;
    var expected := ExpectedCompletions(h, eligiblePast, window) + today;
    if expected == 0 {
      return Rate(None, 0, 0);
    }
    r := Rate(Some(MinReal(1.0, (completedPast + today) as real / expected as real)), expected, completedPast + today);
  }

  function Clamp01(x: real): real { MinReal(1.0, if x < 0.0 then 0.0 else x) }

  function MissRateForWindow(series: seq<Observation>, h: Habit, window: nat): Rate {
    var r := RateForWindow(series, h, window);
    r.(rate := if r.rate.None? then None else Some(Clamp01(1.0 - r.rate.value)))
  }

  lemma Fraction(c: nat, e: nat)
    requires e > 0
    ensures 0.0 <= c as real / e as real
    ensures c <= e <==> c as real / e as real <= 1.0
  {
    var q := c as real / e as real;
    assert q * e as real == c as real;
    assert q < 0.0 ==> q * e as real < 0.0;
    if q <= 1.0 {
      assert q * e as real <= 1.0 * e as real;
    } else {
      assert q * e as real > 1.0 * e as real;
    }
  }

  /**
   * Whatever the schedule: there is no rate exactly when nothing was expected,
   * and then nothing was done either; a rate lies in [0, 1] and the miss rate is
   * what is left of it.
   */
  lemma RatesAreFractions(series: seq<Observation>, h: Habit, window: nat)
    ensures var r := RateForWindow(series, h, window); var m := MissRateForWindow(series, h, window);
            && (r.rate.None? <==> Eligible(LastDays(series, window), None) == 0 && !CompletedToday(series))
            && (r.rate.None? <==> r.expected == 0) && (r.rate.None? ==> r.completed == 0 && m.rate.None?)
            && (r.rate.Some? ==> 0.0 <= r.rate.value <= 1.0 && m.rate == Some(1.0 - r.rate.value))
            && m.expected == r.expected && m.completed == r.completed
  {
    var r := RateForWindow(series, h, window);
    var eligible := Eligible(LastDays(series, window), None);
    if h.schedule.TimesPerWeek? {
      QuotaIsPositive(Max(1, h.schedule.quota.GetOr(1)), Max(1, window));
    }
    if r.rate.Some? {
      Fraction(r.completed, r.expected);
    }
  }

  lemma QuotaIsPositive(quota: int, days: int)
    requires quota >= 1 && days >= 1
    ensures (quota * days + 6) / 7 >= 1
  {
    assert quota * days >= 1;
  }

  /**
   * Off a weekly quota no more is done than expected and the rate is the plain
   * fraction; on a quota, exactly when the past days done stay within its share.
   */
  lemma CompletedWithinExpected(series: seq<Observation>, h: Habit, window: nat)
    ensures var r := RateForWindow(series, h, window);
            var done := Done(LastDays(series, window), None);
            && (!h.schedule.TimesPerWeek? ==> r.completed <= r.expected)
            && (h.schedule.TimesPerWeek? ==>
              (r.completed <= r.expected
               <==> done <= (Max(1, h.schedule.quota.GetOr(1)) * Max(1, window) + 6) / 7))
            && (r.completed <= r.expected && r.expected > 0 ==>
              r.rate == Some(r.completed as real / r.expected as real))
  {
    var r := RateForWindow(series, h, window);
    if h.schedule.TimesPerWeek? {
      QuotaIsPositive(Max(1, h.schedule.quota.GetOr(1)), Max(1, window));
    }
    if r.expected > 0 {
      Fraction(r.completed, r.expected);
    }
  }

  /** A habit meant for once a week, done on the two days before today: two completed of one expected. */
  lemma QuotaExceeded()
    ensures var h := Habit(TimesPerWeek(Some(1)), None);
            var facts := [CompletionFact(8, true), CompletionFact(9, true)];
            var series := [Observe(h, 10, facts, 8), Observe(h, 10, facts, 9), Observe(h, 10, facts, 10)];
            && IsSeries(series, h, 10, facts)
            && RateForWindow(series, h, 3) == Rate(Some(1.0), 1, 2)
  {
    var h := Habit(TimesPerWeek(Some(1)), None);
    var facts := [CompletionFact(8, true), CompletionFact(9, true)];
    var a, b, c := Observe(h, 10, facts, 8), Observe(h, 10, facts, 9), Observe(h, 10, facts, 10);
    var series := [a, b, c];
    var one := [CompletionFact(8, true)];
    assert facts[..1] == one && one[..0] == [];
    assert Lookup(one, 8) == Some(true) && Lookup(one, 10) == Lookup([], 10) == None;
    assert series[..2] == [a, b] && [a, b][..1] == [a] && [a][..0] == [];
    assert Eligible([a], None) == 1 && Done([a], None) == 1;
    assert Eligible([a, b], None) == 2 && Done([a, b], None) == 2;
    Fraction(2, 1);
  }

  /** The series without its last day's completion. */
  function TodayOpen(series: seq<Observation>): seq<Observation>
    requires series != []
  {
    var n := |series| - 1;
    series[..n] + [series[n].(completion := None)]
  }

  lemma {:induction false} OpenTodayCounts(series: seq<Observation>, weekday: Option<nat>)
    requires series != [] && series[|series| - 1].isToday
    ensures Eligible(TodayOpen(series), weekday) == Eligible(series, weekday)
    ensures Done(TodayOpen(series), weekday) == Done(series, weekday)
  {
    var n := |series| - 1;
    assert TodayOpen(series)[..n] == series[..n];
  }

  /** Completing today never lowers the rate, and an open today costs nothing. */
  lemma TodayOnlyHelps(series: seq<Observation>, h: Habit, window: nat)
    requires CompletedToday(series)
    ensures var before := RateForWindow(TodayOpen(series), h, window);
            var after := RateForWindow(series, h, window);
            && after.rate.Some? && after.completed == before.completed + 1 && after.expected == before.expected + 1
            && (before.rate.Some? ==> before.rate.value <= after.rate.value)
  {
    var open := TodayOpen(series);
    var days := LastDays(series, window);
    assert LastDays(open, window) == TodayOpen(days);
    OpenTodayCounts(days, None);
    RatesAreFractions(open, h, window);
    var before := RateForWindow(open, h, window);
    if before.rate.Some? {
      OneMore(before.completed, before.expected);
    }
  }

  lemma FractionOrder(a: nat, b: nat, c: nat, d: nat)
    requires b > 0 && d > 0 && a * d <= c * b
    ensures a as real / b as real <= c as real / d as real
  {
    var p, q, bd := a as real / b as real, c as real / d as real, b as real * d as real;
    assert p * bd == a as real * d as real == (a * d) as real;
    assert q * bd == c as real * b as real == (c * b) as real;
    assert p > q ==> p * bd > q * bd;
  }

  lemma OneMore(c: nat, e: nat)
    requires e > 0
    ensures MinReal(1.0, c as real / e as real) <= MinReal(1.0, (c + 1) as real / (e + 1) as real)
  {
    Fraction(c, e);
    Fraction(c + 1, e + 1);
    if c <= e {
      FractionOrder(c, e, c + 1, e + 1);
    }
  }

  // ---- The two ways to count scheduled days agree -----------------------------------------

  /** Days in order up to today, each flagged as the habit expects. */
  ghost predicate Follows(series: seq<Observation>, h: Habit, today: Day) {
    forall k :: 0 <= k < |series| ==>
      var o := series[k];
      o.day == today - (|series| - 1 - k) && o.scheduled == Expected(h, o.day) && o.isToday == (o.day == today)
  }

  lemma FollowsRest(series: seq<Observation>, h: Habit, today: Day)
    requires series != [] && Follows(series, h, today)
    ensures Follows(series[1..], h, today)
    ensures Counted(series[0], None) <==> |series| > 1 && Expected(h, today - (|series| - 1))
  {
    forall k | 0 <= k < |series| - 1
      ensures series[1..][k] == series[k + 1]
    {
    }
  }

  lemma ScheduledStep(s: Schedule, end: Day, window: nat)
    requires window > 0
    ensures |ScheduledDays(s, end, window)|
            == |ScheduledDays(s, end, window - 1)| + (if IsScheduled(s, end - (window - 1)) then 1 else 0)
  {
  }

  /** The days before today, at most `window`, that are not before the habit's start. */
  function DaysSinceStart(h: Habit, today: Day, window: nat): nat {
    match h.start
    case None => window
    case Some(start) => Max(0, Min(window, today - start))
  }

  lemma {:induction false} FollowsCounts(series: seq<Observation>, h: Habit, today: Day)
    requires series != [] && Follows(series, h, today)
    ensures Eligible(series, None) == |ScheduledDays(h.schedule, today - 1, DaysSinceStart(h, today, |series| - 1))|
    decreases |series|
  {
    var rest := series[1..];
    assert series == [series[0]] + rest;
    EligibleCons(series[0], rest, None);
    FollowsRest(series, h, today);
    if rest != [] {
      FollowsCounts(rest, h, today);
      OneDayMore(h, today, |series| - 1);
    }
  }

  lemma OneDayMore(h: Habit, today: Day, window: nat)
    requires window > 0
    ensures |ScheduledDays(h.schedule, today - 1, DaysSinceStart(h, today, window))|
            == |ScheduledDays(h.schedule, today - 1, DaysSinceStart(h, today, window - 1))|
             + (if Expected(h, today - window) then 1 else 0)
  {
    if h.start.None? || h.start.value <= today - window {
      ScheduledStep(h.schedule, today - 1, window);
    }
  }

  /** The settled days of a series are those the scheduler lists up to yesterday, from the later start on. */
  lemma SeriesCountsSchedule(series: seq<Observation>, h: Habit, today: Day, facts: seq<CompletionFact>)
    requires series != [] && IsSeries(series, h, today, facts)
    ensures Eligible(series, None) == |ScheduledDays(h.schedule, today - 1, DaysSinceStart(h, today, |series| - 1))|
  {
    assert Follows(series, h, today);
    FollowsCounts(series, h, today);
  }

  lemma {:induction false} EligibleCons(o: Observation, rest: seq<Observation>, weekday: Option<nat>)
    ensures Eligible([o] + rest, weekday) == (if Counted(o, weekday) then 1 else 0) + Eligible(rest, weekday)
    decreases |rest|
  {
    if rest == [] {
      assert [o] + rest == [o] && [o][..0] == [];
    } else {
      var n := |rest| - 1;
      EligibleCons(o, rest[..n], weekday);
      assert ([o] + rest)[..n + 1] == [o] + rest[..n];
    }
  }

  // ---- Weekdays -------------------------------------------------------------------------

  const MIN_SCHEDULED_PER_DAY: nat := 3

  /** Monday first. */
  const DISPLAY_ORDER: seq<nat> := [1, 2, 3, 4, 5, 6, 0]

  datatype WeekdayStat = WeekdayStat(day: nat, scheduled: nat, completed: nat, rate: Option<real>)

  function StatOf(series: seq<Observation>, day: nat): WeekdayStat {
    var scheduled, completed := Eligible(series, Some(day)), Done(series, Some(day));
    WeekdayStat(day, scheduled, completed,
                if scheduled >= MIN_SCHEDULED_PER_DAY then Some(completed as real / scheduled as real) else None)
  }

  datatype Bucket = Bucket(scheduled: nat, completed: nat)

  method WeekdayStats(series: seq<Observation>) returns (stats: seq<WeekdayStat>)
    ensures |stats| == 7 && forall i :: 0 <= i < 7 ==> stats[i] == StatOf(series, DISPLAY_ORDER[i])
  {
    var buckets: seq<Bucket> := seq(7, _ => Bucket(0, 0));
    for i := 0 to |series|
      invariant |buckets| == 7
      invariant forall d: nat :: d < 7 ==> buckets[d].scheduled == Eligible(series[..i], Some(d))
      invariant forall d: nat :: d < 7 ==> buckets[d].completed == Done(series[..i], Some(d))
    {
      assert series[..i + 1][..i] == series[..i];
      var day := series[i];
      if day.isToday || !day.scheduled {
        continue;
      }
      var wd := WeekdayIndex(day.day);
      var b := buckets[wd];
      var completed := if day.completion == Some(true) then b.completed + 1 else b.completed;
      buckets := buckets[wd := Bucket(b.scheduled + 1, completed)];
    }
    assert series[..|series|] == series;
    stats := [];
    for i := 0 to 7
      invariant |stats| == i && forall k :: 0 <= k < i ==> stats[k] == StatOf(series, DISPLAY_ORDER[k])
    {
      var b := buckets[DISPLAY_ORDER[i]];
      var enough := b.scheduled >= MIN_SCHEDULED_PER_DAY;
      var rate := if enough then Some(b.completed as real / b.scheduled as real) else None;
      stats := stats + [WeekdayStat(DISPLAY_ORDER[i], b.scheduled, b.completed, rate)];
    }
  }

  /** The first `k` weekdays together: their settled days, or those of them done. */
  function SumOfWeekdays(series: seq<Observation>, k: nat, done: bool): nat {
    if k == 0 then 0
    else
      SumOfWeekdays(series, k - 1, done) + (if done then Done(series, Some(k - 1)) else Eligible(series, Some(k - 1)))
  }

  lemma {:induction false} LastDayHasOneWeekday(series: seq<Observation>, k: nat, done: bool)
    requires series != []
    ensures var last := series[|series| - 1];
            SumOfWeekdays(series, k, done) == SumOfWeekdays(series[..|series| - 1], k, done)
            + (if Past(last) && WeekdayIndex(last.day) < k && (done ==> last.completion == Some(true)) then 1 else 0)
    decreases k
  {
    if k > 0 {
      LastDayHasOneWeekday(series, k - 1, done);
    }
  }

  lemma {:induction false} NoDaysNoSum(k: nat, done: bool)
    ensures SumOfWeekdays([], k, done) == 0
    decreases k
  {
    if k > 0 {
      NoDaysNoSum(k - 1, done);
    }
  }

  /** Each settled day falls in exactly one weekday bucket. */
  lemma {:induction false} WeekdaysPartition(series: seq<Observation>)
    ensures SumOfWeekdays(series, 7, false) == Eligible(series, None)
    ensures SumOfWeekdays(series, 7, true) == Done(series, None)
    decreases |series|
  {
    if series == [] {
      NoDaysNoSum(7, false);
      NoDaysNoSum(7, true);
    } else {
      WeekdaysPartition(series[..|series| - 1]);
      LastDayHasOneWeekday(series, 7, false);
      LastDayHasOneWeekday(series, 7, true);
    }
  }

  /** The buckets sum to the past counts of the completion rate over the same days. */
  lemma WeekdaysSumToRate(series: seq<Observation>, h: Habit)
    ensures var r := RateForWindow(series, h, |series|);
            var today := if CompletedToday(series) then 1 else 0;
            && (r.rate.Some? ==> SumOfWeekdays(series, 7, true) + today == r.completed)
            && (r.rate.None? ==> SumOfWeekdays(series, 7, false) == 0)
            && (!h.schedule.TimesPerWeek? ==> SumOfWeekdays(series, 7, false) + today == r.expected)
  {
    WeekdaysPartition(series);
    RatesAreFractions(series, h, |series|);
  }
}
