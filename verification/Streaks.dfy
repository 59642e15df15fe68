/**
 * Day runs. Day keys (YYYY-MM-DD) are integers, so shifting a key is addition.
 *
 * Four walks of the source work on the same idea: the reward engine's backward
 * walk, its cycle check, the analytics scan over ascending days and the
 * profile scan over unsorted days. Each is a method proved against `Run` or
 * `IsLongest`, and the lemmas tie the four together.
 */
module Streaks {
  import opened Common

  type Day = int

  /** The reward engine stops counting once a run passes this many days. */
  const STREAK_VALVE: nat := 3650

  /** Every day of [start, start + length) is in `days`. */
  predicate Block(days: set<Day>, start: Day, length: int) {
    forall i :: start <= i < start + length ==> i in days
  }

  /** Length of the maximal block of `days` that ends on `end`. */
  function Run(days: set<Day>, end: Day): (n: nat)
    ensures Block(days, end - n + 1, n)
    ensures end - n !in days
    decreases days
  {
    if end in days then 1 + Run(days - {end}, end - 1) else 0
  }

  /** `Run` is the only length with these two properties. */
  lemma RunUnique(days: set<Day>, end: Day, n: nat)
    requires Block(days, end - n + 1, n) && end - n !in days
    ensures Run(days, end) == n
  {
    var r := Run(days, end);
    assert r < n ==> end - r in days;
    assert n < r ==> end - n in days;
  }

  /** A block ending on `end` is never longer than the run. */
  lemma BlockWithinRun(days: set<Day>, end: Day, n: nat)
    requires Block(days, end - n + 1, n)
    ensures n <= Run(days, end)
  {
    assert Run(days, end) < n ==> end - Run(days, end) in days;
  }

  function CurrentStreak(days: set<Day>, end: Day): nat {
    Min(Run(days, end), STREAK_VALVE + 1)
  }

  function CycleStart(days: set<Day>, end: Day): Day {
    end - CurrentStreak(days, end) + 1
  }

  /** The reward engine's backward walk. `cycleStart` is the day after `end` when the streak is 0. */
  method ComputeCurrentStreak(completed: set<Day>, end: Day, frozen: set<Day>)
    returns (streak: nat, cycleStart: Day)
    ensures streak == CurrentStreak(completed + frozen, end)
    ensures cycleStart == CycleStart(completed + frozen, end)
  {
    streak := 0;
    var cursor := end;
    ghost var days := completed + frozen;
    while cursor in completed || cursor in frozen
      invariant cursor == end - streak
      invariant streak <= STREAK_VALVE
      invariant Block(days, cursor + 1, streak)
      decreases STREAK_VALVE - streak
    {
      streak := streak + 1;
      cursor := cursor - 1;
      if streak > STREAK_VALVE {
        BlockWithinRun(days, end, streak);
        return streak, cursor + 1;
      }
    }
    RunUnique(days, end, streak);
    return streak, cursor + 1;
  }

  /** The cycle check made before a milestone award is reversed. */
  method IsMilestoneCycleIntact(completed: set<Day>, cycleStart: Day, milestone: nat, frozen: set<Day>)
    returns (intact: bool)
    ensures intact <==> Block(completed + frozen, cycleStart, milestone)
  {
    for i := 0 to milestone
      invariant Block(completed + frozen, cycleStart, i)
    {
      var key := cycleStart + i;
      if key !in completed && key !in frozen {
        assert key !in completed + frozen;
        return false;
      }
    }
    return true;
  }

  /** Every milestone the streak has reached owns an intact cycle at the streak's own start. */
  lemma ReachedMilestoneIsIntact(days: set<Day>, end: Day, milestone: nat)
    requires milestone <= CurrentStreak(days, end)
    ensures Block(days, CycleStart(days, end), milestone)
  {
    var n := Run(days, end);
    forall i | CycleStart(days, end) <= i < CycleStart(days, end) + milestone
      ensures i in days
    {
      assert end - n + 1 <= i < end - n + 1 + n;
    }
  }

  /** Completing or freezing more days never shortens a streak. */
  lemma StreakMonotone(days: set<Day>, more: set<Day>, end: Day)
    requires days <= more
    ensures CurrentStreak(days, end) <= CurrentStreak(more, end)
  {
    BlockWithinRun(more, end, Run(days, end));
  }

  // ---- Longest streak -----------------------------------------------------

  /** `best` is the length of a longest block: some block attains it, none exceeds it. */
  ghost predicate IsLongest(days: set<Day>, best: nat) {
    && (exists start :: Block(days, start, best))
    && (forall start, n :: Block(days, start, n) ==> n <= best)
  }

  lemma LongestUnique(days: set<Day>, a: nat, b: nat)
    requires IsLongest(days, a) && IsLongest(days, b)
    ensures a == b
  {
    var s :| Block(days, s, a);
    var t :| Block(days, t, b);
  }

  ghost predicate StrictlyAscending(s: seq<Day>) {
    forall i, j :: 0 <= i < j < |s| ==> s[i] < s[j]
  }

  function DaysOf(s: seq<Day>): set<Day> { set d | d in s }

  /** What the scan knows after reading an ascending prefix. */
  ghost predicate ScanState(days: set<Day>, last: Day, run: nat, best: nat) {
    && run >= 1
    && last in days
    && (forall d :: d in days ==> d <= last)
    && Run(days, last) == run
    && IsLongest(days, best)
  }

  /** One step of the scan: reading the next, later day. */
  lemma ScanStep(days: set<Day>, last: Day, run: nat, best: nat, key: Day)
    requires ScanState(days, last, run, best) && last < key
    ensures ScanState(days + {key}, key, if last + 1 == key then run + 1 else 1,
                      Max(best, if last + 1 == key then run + 1 else 1))
  {
    var more := days + {key};
    var run' := if last + 1 == key then run + 1 else 1;
    assert Block(more, key - run' + 1, run') by {
      assert Block(days, last - run + 1, run);
    }
    assert key - run' !in more;
    RunUnique(more, key, run');
    var best' := Max(best, run');
    var s :| Block(days, s, best);
    assert Block(more, if best' == best then s else key - run' + 1, best');
    forall start, n | Block(more, start, n)
      ensures n <= best'
    {
      if start <= key < start + n {
        assert start + n - 1 in more;
        assert start + n - 1 == key;
        BlockWithinRun(more, key, n);
      } else {
        assert Block(days, start, n);
      }
    }
  }

  lemma FirstScan(key: Day)
    ensures ScanState({key}, key, 1, 1)
  {
    RunUnique({key}, key, 1);
    assert Block({key}, key, 1);
    var one := {key};
    assert forall start, n :: Block(one, start, n) && n > 1 ==> start in one && start + 1 in one;
  }

  lemma NoDaysNoBlock()
    ensures IsLongest({}, 0)
  {
    var none: set<Day> := {};
    assert Block(none, 0, 0);
    assert forall start, n :: Block(none, start, n) && n > 0 ==> start in none;
  }

  /** The analytics scan. The source names its input ascending; its callers sort distinct days. */
  method LongestStreakFromDates(completedDatesAsc: seq<Day>) returns (best: nat)
    requires StrictlyAscending(completedDatesAsc)
    ensures IsLongest(DaysOf(completedDatesAsc), best)
  {
    best := 0;
    var run: nat := 0;
    var prev: Option<Day> := None;
    NoDaysNoBlock();
    assert DaysOf([]) == {};
    for i := 0 to |completedDatesAsc|
      invariant i == 0 ==> best == 0 && run == 0 && prev == None
      invariant i > 0 ==> prev == Some(completedDatesAsc[i - 1])
      invariant i > 0 ==> ScanState(DaysOf(completedDatesAsc[..i]), completedDatesAsc[i - 1], run, best)
    {
      var key := completedDatesAsc[i];
      assert DaysOf(completedDatesAsc[..i + 1]) == DaysOf(completedDatesAsc[..i]) + {key};
      if i == 0 {
        FirstScan(key);
        assert DaysOf(completedDatesAsc[..1]) == {key};
      } else {
        ScanStep(DaysOf(completedDatesAsc[..i]), completedDatesAsc[i - 1], run, best, key);
      }
      var consecutive := prev.Some? && prev.value + 1 == key;
      run := if consecutive then run + 1 else 1;
      best := Max(best, run);
      prev := Some(key);
    }
    assert completedDatesAsc[..|completedDatesAsc|] == completedDatesAsc;
  }

  // ---- The profile's scan over unsorted, possibly repeated days -----------

  lemma SomeDay(days: set<Day>)
    requires days != {}
    ensures exists d :: d in days
  {
    assert (forall d :: d !in days) ==> days == {};
  }

  lemma {:induction false} LastDayExists(days: set<Day>)
    requires days != {}
    ensures exists m :: m in days && forall d :: d in days ==> d <= m
    decreases days
  {
    SomeDay(days);
    var x :| x in days;
    var rest := days - {x};
    if rest == {} {
      assert days == {x};
    } else {
      LastDayExists(rest);
      var m :| m in rest && forall d :: d in rest ==> d <= m;
      assert forall d :: d in days ==> d in rest || d == x;
      assert x in days && m in days;
    }
  }

  /** A set of days sorted ascending. */
  function Ascending(days: set<Day>): (s: seq<Day>)
    ensures StrictlyAscending(s) && DaysOf(s) == days
    decreases days
  {
    if days == {} then []
    else
      LastDayExists(days);
      var last :| last in days && forall d :: d in days ==> d <= last;
      var rest := Ascending(days - {last});
      assert forall d :: d in rest <==> d in DaysOf(rest);
      assert forall d :: d in rest + [last] <==> d in rest || d == last;
      rest + [last]
  }

  /** The profile's loop: gap by gap over ascending days. */
  method ScanGaps(ascending: seq<Day>) returns (longest: nat)
    requires StrictlyAscending(ascending)
    ensures IsLongest(DaysOf(ascending), longest)
  {
    longest := 0;
    var temp: nat := 0;
    var prev: Option<Day> := None;
    NoDaysNoBlock();
    assert DaysOf([]) == {};
    for i := 0 to |ascending|
      invariant i == 0 ==> longest == 0 && prev == None
      invariant i > 0 ==> prev == Some(ascending[i - 1])
      invariant i > 0 ==> ScanState(DaysOf(ascending[..i]), ascending[i - 1], temp, longest)
    {
      var current := ascending[i];
      assert DaysOf(ascending[..i + 1]) == DaysOf(ascending[..i]) + {current};
      if prev.Some? {
        ScanStep(DaysOf(ascending[..i]), ascending[i - 1], temp, longest, current);
        var diffDays := Abs(current - prev.value);
        temp := if diffDays == 1 then temp + 1 else 1;
      } else {
        FirstScan(current);
        assert DaysOf(ascending[..1]) == {current};
        temp := 1;
      }
      longest := Max(longest, temp);
      prev := Some(current);
    }
    assert ascending[..|ascending|] == ascending;
  }

  /** The longest-streak half of the profile scan: deduplicate, sort, scan the gaps. */
  method CalculateLongestStreak(completionDates: seq<Day>) returns (longest: nat)
    ensures IsLongest(DaysOf(completionDates), longest)
  {
    if |completionDates| == 0 {
      NoDaysNoBlock();
      assert DaysOf(completionDates) == {};
      return 0;
    }
    longest := ScanGaps(Ascending(DaysOf(completionDates)));
  }

  /** Both scans give the same number on any reordering, with any repetition, of the same days. */
  method LongestStreaksAgree(completedDatesAsc: seq<Day>, shuffled: seq<Day>)
    returns (fromAnalytics: nat, fromProfile: nat)
    requires StrictlyAscending(completedDatesAsc)
    requires DaysOf(completedDatesAsc) == DaysOf(shuffled)
    ensures fromAnalytics == fromProfile
    ensures IsLongest(DaysOf(shuffled), fromProfile)
  {
    fromAnalytics := LongestStreakFromDates(completedDatesAsc);
    fromProfile := CalculateLongestStreak(shuffled);
    LongestUnique(DaysOf(shuffled), fromAnalytics, fromProfile);
  }

  // ---- Analytics current streak -------------------------------------------

  /** An uncompleted today does not break a run that is alive through yesterday. */
  function AnalyticsStreak(done: set<Day>, today: Day): nat {
    CurrentStreak(done, if today in done then today else today - 1)
  }

  method CurrentStreakFrom(completedDatesAsc: seq<Day>, today: Day) returns (streak: nat)
    ensures streak == AnalyticsStreak(DaysOf(completedDatesAsc), today)
  {
    var done := DaysOf(completedDatesAsc);
    var cursor := today;
    if cursor !in done {
      cursor := cursor - 1;
    }
    ghost var end := cursor;
    streak := 0;
    while cursor in done
      invariant cursor == end - streak
      invariant streak <= STREAK_VALVE
      invariant Block(done, cursor + 1, streak)
      decreases STREAK_VALVE - streak
    {
      streak := streak + 1;
      cursor := cursor - 1;
      if streak > STREAK_VALVE {
        BlockWithinRun(done, end, streak);
        return;
      }
    }
    RunUnique(done, end, streak);
  }

  /** No choice of today makes the current streak exceed the longest one. */
  lemma CurrentWithinLongest(done: set<Day>, today: Day, longest: nat)
    requires IsLongest(done, longest)
    ensures AnalyticsStreak(done, today) <= longest
  {
    var end := if today in done then today else today - 1;
    assert Block(done, end - Run(done, end) + 1, Run(done, end));
  }
}
