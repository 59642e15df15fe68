/**
 * What the analytics report, told from the habit, its rows and the calendar.
 */
module AnalyticsAnswers {
  import opened Common
  import opened Schedule
  import opened Streaks
  import opened Analytics

  /** The last row of a day decides it; a day without rows has no outcome. */
  lemma {:induction false} LookupAnswers(facts: seq<CompletionFact>, day: Day)
    ensures var r := Lookup(facts, day);
            if r.Some? then
              exists i :: 0 <= i < |facts| && facts[i] == CompletionFact(day, r.value)
                          && forall j :: i < j < |facts| ==> facts[j].day != day
            else forall i :: 0 <= i < |facts| ==> facts[i].day != day
    decreases |facts|
  {
    if facts != [] {
      var n := |facts| - 1;
      if facts[n].day == day {
        assert facts[n] == CompletionFact(day, Lookup(facts, day).value);
      } else {
        LookupAnswers(facts[..n], day);
        if Lookup(facts, day).Some? {
          var i :| 0 <= i < n && facts[..n][i] == CompletionFact(day, Lookup(facts, day).value)
                   && forall j :: i < j < n ==> facts[..n][j].day != day;
          assert facts[i] == CompletionFact(day, Lookup(facts, day).value);
          forall j | i < j < |facts|
            ensures facts[j].day != day
          {
            assert j < n ==> facts[..n][j] == facts[j];
          }
        } else {
          forall i | 0 <= i < |facts|
            ensures facts[i].day != day
          {
            assert i < n ==> facts[..n][i] == facts[i];
          }
        }
      }
    }
  }

  /** Days before today, from the habit's start on, that its schedule names; of one weekday or any, 0 for Sunday. */
  predicate Due(h: Habit, today: Day, weekday: Option<nat>, d: Day) {
    && d != today && (h.start.None? || h.start.value <= d) && IsScheduled(h.schedule, d)
    && (weekday.None? || (d + 4) % 7 == weekday.value)
  }

  /** How many of the `n` days from `first` on are due. */
  function DueDays(h: Habit, today: Day, weekday: Option<nat>, first: Day, n: nat): nat {
    if n == 0 then 0
    else DueDays(h, today, weekday, first, n - 1) + if Due(h, today, weekday, first + n - 1) then 1 else 0
  }

  /** How many of them are due and have a completed row. */
  function DoneDays(
    h: Habit, today: Day, facts: seq<CompletionFact>, weekday: Option<nat>, first: Day, n: nat): nat
  {
    if n == 0 then 0
    else
      var d := first + n - 1;
      DoneDays(h, today, facts, weekday, first, n - 1)
      + if Due(h, today, weekday, d) && Lookup(facts, d) == Some(true) then 1 else 0
  }

  /** Consecutive observations from a day on. */
  ghost predicate ObservesFrom(s: seq<Observation>, h: Habit, today: Day, facts: seq<CompletionFact>, first: Day) {
    forall k :: 0 <= k < |s| ==> s[k] == Observe(h, today, facts, first + k)
  }

  /** The counters count days. */
  lemma {:induction false} CountsAreDays(
    s: seq<Observation>, h: Habit, today: Day, facts: seq<CompletionFact>, weekday: Option<nat>, first: Day)
    requires ObservesFrom(s, h, today, facts, first)
    ensures Eligible(s, weekday) == DueDays(h, today, weekday, first, |s|)
    ensures Done(s, weekday) == DoneDays(h, today, facts, weekday, first, |s|)
    decreases |s|
  {
    if s != [] {
      var n := |s| - 1;
      CountsAreDays(s[..n], h, today, facts, weekday, first);
      assert s[n] == Observe(h, today, facts, first + n);
      assert Counted(s[n], weekday) <==> Due(h, today, weekday, first + n);
    }
  }

  /** The least whole number of completions covering the quota's share of the window. */
  predicate QuotaShare(quota: Option<int>, window: int, x: int) {
    var q := if quota.Some? && quota.value >= 1 then quota.value else 1;
    7 * (x - 1) < q * window <= 7 * x
  }

  /** What a schedule expects of so many eligible days. */
  ghost predicate ExpectsOf(h: Habit, eligible: nat, window: nat, expected: nat) {
    match h.schedule
    case TimesPerWeek(quota) =>
      exists x :: QuotaShare(quota, window, x) && expected == (if x <= eligible then x else eligible)
    case _ => expected == eligible
  }

  lemma ExpectedAnswers(h: Habit, eligible: nat, window: nat)
    requires window >= 1
    ensures ExpectsOf(h, eligible, window, ExpectedCompletions(h, eligible, window))
  {
    if h.schedule.TimesPerWeek? {
      var quota := h.schedule.quota;
      var q := if quota.Some? && quota.value >= 1 then quota.value else 1;
      var x := (q * window + 6) / 7;
      assert q == Max(1, quota.GetOr(1));
      QuotaIsPositive(q, window);
      assert QuotaShare(quota, window, x);
    }
  }

  /** Both counts and their fraction, at most one; nothing at all if nothing was expected. */
  predicate RatioOf(r: Rate, completed: nat, expected: nat) {
    if expected == 0 then r == Rate(None, 0, 0)
    else
      && r.expected == expected && r.completed == completed
      && r.rate == Some(if completed >= expected then 1.0 else completed as real / expected as real)
  }

  lemma RatioAnswers(completed: nat, expected: nat)
    requires expected > 0
    ensures RatioOf(Rate(Some(MinReal(1.0, completed as real / expected as real)), expected, completed),
                    completed, expected)
  {
    Fraction(completed, expected);
    if completed >= expected {
      FractionOrder(1, 1, completed, expected);
    }
  }

  /** So much done, and `extra` today, of what the schedule expects of so many due days. */
  ghost predicate Rated(r: Rate, h: Habit, window: nat, due: nat, done: nat, extra: nat) {
    exists expected: nat :: ExpectsOf(h, due, window, expected) && RatioOf(r, done + extra, expected + extra)
  }

  lemma RatedByCounts(series: seq<Observation>, h: Habit, window: nat, due: nat, done: nat, extra: nat)
    requires window >= 1
    requires due == Eligible(LastDays(series, window), None) && done == Done(LastDays(series, window), None)
    requires extra == if CompletedToday(series) then 1 else 0
    ensures Rated(RateForWindow(series, h, window), h, window, due, done, extra)
  {
    var expected := ExpectedCompletions(h, due, window);
    ExpectedAnswers(h, due, window);
    if expected + extra > 0 {
      RatioAnswers(done + extra, expected + extra);
    }
    assert RatioOf(RateForWindow(series, h, window), done + extra, expected + extra);
  }

  lemma LastDaysObserve(series: seq<Observation>, h: Habit, today: Day, facts: seq<CompletionFact>, window: nat)
    requires IsSeries(series, h, today, facts) && window >= 1
    ensures var days := LastDays(series, window);
            |days| == Min(window, |series|) && ObservesFrom(days, h, today, facts, today - |days| + 1)
  {
    var days := LastDays(series, window);
    var from := |series| - |days|;
    forall k | 0 <= k < |days|
      ensures days[k] == Observe(h, today, facts, today - |days| + 1 + k)
    {
      assert days[k] == series[from + k];
    }
  }

  lemma DoneToday(series: seq<Observation>, h: Habit, today: Day, facts: seq<CompletionFact>)
    requires series != [] && IsSeries(series, h, today, facts)
    ensures CompletedToday(series) <==> Lookup(facts, today) == Some(true)
  {
    assert series[|series| - 1] == Observe(h, today, facts, today);
  }

  lemma CountsInWindow(
    series: seq<Observation>, h: Habit, today: Day, facts: seq<CompletionFact>, window: nat, n: nat, first: Day)
    requires IsSeries(series, h, today, facts) && window >= 1
    requires n == Min(window, |series|) && first == today - n + 1
    ensures Eligible(LastDays(series, window), None) == DueDays(h, today, None, first, n)
    ensures Done(LastDays(series, window), None) == DoneDays(h, today, facts, None, first, n)
  {
    LastDaysObserve(series, h, today, facts, window);
    CountsAreDays(LastDays(series, window), h, today, facts, None, first);
  }

  /**
   * The rate of the last days of a series: what was done on the due days of the
   * window, and today if it is done already, over what was expected of them.
   */
  lemma RateAnswers(series: seq<Observation>, h: Habit, today: Day, facts: seq<CompletionFact>, window: nat)
    requires series != [] && IsSeries(series, h, today, facts) && window >= 1
    ensures var n := Min(window, |series|);
            var first := today - n + 1;
            Rated(RateForWindow(series, h, window), h, window, DueDays(h, today, None, first, n),
                  DoneDays(h, today, facts, None, first, n), if Lookup(facts, today) == Some(true) then 1 else 0)
  {
    var n := Min(window, |series|);
    var first := today - n + 1;
    CountsInWindow(series, h, today, facts, window, n, first);
    DoneToday(series, h, today, facts);
    RatedByCounts(series, h, window, DueDays(h, today, None, first, n),
                  DoneDays(h, today, facts, None, first, n), if Lookup(facts, today) == Some(true) then 1 else 0);
  }

  /** A weekday's bucket counts that weekday's due and done days of the series; its rate needs three due ones. */
  lemma WeekdayAnswers(series: seq<Observation>, h: Habit, today: Day, facts: seq<CompletionFact>, day: nat)
    requires IsSeries(series, h, today, facts)
    ensures var first := today - |series| + 1;
            var due := DueDays(h, today, Some(day), first, |series|);
            var done := DoneDays(h, today, facts, Some(day), first, |series|);
            StatOf(series, day)
            == WeekdayStat(day, due, done, if due >= 3 then Some(done as real / due as real) else None)
  {
    var first := today - |series| + 1;
    assert ObservesFrom(series, h, today, facts, first);
    CountsAreDays(series, h, today, facts, Some(day), first);
  }
}
