/**
 * Runs from a new account on which a property the services' comments suggest
 * does not hold. Each has its exact condition beside the law it breaks.
 */
module Scenarios {
  import opened Common
  import opened Streaks
  import opened Schedule
  import opened Progression
  import opened Ledger
  import opened Completions
  import opened RewardLaws
  import opened BaseAwards
  import opened Milestones

  /** A daily habit with the default rewards. */
  const HABIT: Habit := Habit(1.0, false, false, false, None, None, None, true, true, Daily)

  function NewAccount(): State { Init(map["h" := HABIT], [], map[]) }

  function On(d: Day): Op { DoToggle(Slot("h", d), None, None) }

  /** Days 1 to `n` toggled on, one after the other. */
  function DaysOn(n: nat): seq<Op> { if n == 0 then [] else DaysOn(n - 1) + [On(n)] }

  lemma {:induction false} RunLast(s: State, ops: seq<Op>, op: Op)
    ensures RunOps(s, ops + [op]) == Step(RunOps(s, ops), op)
    decreases |ops|
  {
    if ops == [] {
      assert [op][1..] == [];
    } else {
      assert (ops + [op])[1..] == ops[1..] + [op];
      RunLast(Step(s, ops[0]), ops[1..], op);
    }
  }

  /** Exactly the first `k` days have rows, all completed. */
  ghost predicate RowsUpTo(rows: map<Slot, Row>, k: nat) {
    forall d :: (Slot("h", d) in rows <==> 1 <= d <= k) && (1 <= d <= k ==> rows[Slot("h", d)].status)
  }

  ghost predicate NothingReversed(entries: seq<Entry>) { forall i: nat :: !Reversed(entries, i) }

  ghost predicate Default(s: State) { s.habits == map["h" := HABIT] && s.identities == [] && s.frozen == {} }

  /** The first `k` days are completed, nothing else is, and nothing was ever reversed. */
  ghost predicate FirstDays(s: State, k: nat) {
    && Consistent(s) && AllCycles(s) && Default(s)
    && RowsUpTo(s.rows, k) && NothingReversed(s.wallet.entries)
  }

  lemma CompletedUpTo(rows: map<Slot, Row>, k: nat)
    requires RowsUpTo(rows, k)
    ensures CompletedDays(rows, "h") == DaysFrom(1, k)
  {
    forall d
      ensures d in CompletedDays(rows, "h") <==> d in DaysFrom(1, k)
    {
    }
  }

  lemma RowsGrow(rows: map<Slot, Row>, k: nat, row: Row)
    requires RowsUpTo(rows, k) && row.status
    ensures RowsUpTo(rows[Slot("h", k + 1) := row], k + 1)
  {
  }

  lemma StepKeepsBoth(s: State, op: Op)
    requires Consistent(s) && AllCycles(s) && !DropsPlanRow(op)
    ensures Consistent(Step(s, op)) && AllCycles(Step(s, op))
  {
    StepKeepsConsistent(s, op);
    StepKeepsCycles(s, op);
  }

  lemma FirstDaysGrow(s: State, t: State, k: nat, row: Row)
    requires FirstDays(s, k) && Consistent(t) && AllCycles(t) && Default(t) && row.status
    requires t.rows == s.rows[Slot("h", k + 1) := row] && NothingReversed(t.wallet.entries)
    ensures FirstDays(t, k + 1)
  {
    RowsGrow(s.rows, k, row);
  }

  /** The state in which day `k + 1` is awarded. */
  function NextRecord(s: State, k: nat): State { Record(s, Slot("h", k + 1), HABIT, 1.0, Full) }

  function NextAward(s: State, k: nat): Wallet { Award(NextRecord(s, k), HABIT, Slot("h", k + 1), Full, s.nextId) }

  lemma NextDayShape(s: State, k: nat)
    requires Default(s) && Slot("h", k + 1) !in s.rows
    ensures var t := Step(s, On(k + 1));
      && Default(t) && t.wallet == NextAward(s, k)
      && t.rows == s.rows[Slot("h", k + 1) := Row(s.nextId, true, 1.0, Full, None)] == NextRecord(s, k).rows
  {
  }

  /** Toggling the next day on keeps the shape; the ledger only grows. */
  lemma NextDay(s: State, k: nat)
    requires FirstDays(s, k)
    ensures FirstDays(Step(s, On(k + 1)), k + 1)
    ensures s.wallet.entries <= Step(s, On(k + 1)).wallet.entries
  {
    var row := Row(s.nextId, true, 1.0, Full, None);
    NextDayShape(s, k);
    StepKeepsBoth(s, On(k + 1));
    AwardFocused(NextRecord(s, k), HABIT, Slot("h", k + 1), Full, s.nextId);
    FirstDaysGrow(s, Step(s, On(k + 1)), k, row);
  }

  lemma WholeRun(k: nat)
    requires k >= 1
    ensures Run(DaysFrom(1, k), k) == k
  {
    RunUnique(DaysFrom(1, k), k, k);
  }

  /** Within the window, an award on day `n` of an unbroken run from day 1 offers the three-day bonus. */
  lemma RunOffers(t: State, n: nat)
    requires 3 <= n <= RECENT_WINDOW && RowsUpTo(t.rows, n) && t.frozen == {}
    ensures Source.Streak("h", 3, 1) in Sources(StreakOffersOf(t, HABIT, Slot("h", n), 10))
  {
    var offers := StreakOffersOf(t, HABIT, Slot("h", n), 10);
    CompletedUpTo(t.rows, n);
    RecentIsAll(DaysFrom(1, n), RECENT_WINDOW);
    assert Satisfied(t, "h") == DaysFrom(1, n);
    WholeRun(n);
    assert offers == StreakOffers("h", n, 1, STREAK_MILESTONES);
    assert offers[0].source == Source.Streak("h", 3, 1);
    SourceAt(offers, 0);
  }

  /** Every offer is in the ledger after the award. */
  lemma AwardTakesOffers(t: State, slot: Slot, id: CompletionId)
    ensures Sources(StreakOffersOf(t, HABIT, slot, 10)) <= Sources(Award(t, HABIT, slot, Full, id).entries)
  {
    var w := PostBase(t.wallet, Full, id, 10);
    var v := ClaimAll(w, StreakOffersOf(t, HABIT, slot, 10));
    ClaimAllExact(w, StreakOffersOf(t, HABIT, slot, 10));
    ClaimAllExact(v, IdentityOffersOf(t, HABIT, slot, 10));
  }

  /** So the next day claims it. */
  lemma NextDayClaims(s: State, k: nat)
    requires FirstDays(s, k) && 2 <= k < RECENT_WINDOW
    ensures HasSource(Step(s, On(k + 1)).wallet.entries, Source.Streak("h", 3, 1))
  {
    NextDayShape(s, k);
    RowsGrow(s.rows, k, Row(s.nextId, true, 1.0, Full, None));
    RunOffers(NextRecord(s, k), k + 1);
    AwardTakesOffers(NextRecord(s, k), Slot("h", k + 1), s.nextId);
  }

  lemma NewAccountIsFirst()
    ensures FirstDays(NewAccount(), 0)
  {
  }

  lemma {:induction false} FirstDaysRun(n: nat)
    ensures FirstDays(RunOps(NewAccount(), DaysOn(n)), n)
    ensures n >= 3 ==> HasSource(RunOps(NewAccount(), DaysOn(n)).wallet.entries, Source.Streak("h", 3, 1))
    decreases n
  {
    if n == 0 {
      NewAccountIsFirst();
    } else {
      var s := RunOps(NewAccount(), DaysOn(n - 1));
      FirstDaysRun(n - 1);
      RunLast(NewAccount(), DaysOn(n - 1), On(n));
      NextDay(s, n - 1);
      if n == 3 {
        NextDayClaims(s, n - 1);
      } else if n > 3 {
        SourcesPrefix(s.wallet.entries, Step(s, On(n)).wallet.entries);
      }
    }
  }

  // ---- The window forgets ---------------------------------------------------------------

  /** The step from `s` to `t` takes back the bonus of days 1 to 3, which are all still completed. */
  ghost predicate TakesUnbroken(s: State, t: State) {
    && Block(Covered(t, "h"), 1, 3)
    && exists i: nat :: Live(s.wallet.entries, i, Source.Streak("h", 3, 1)) && Reversed(t.wallet.entries, i)
  }

  /** However long the unbroken history is past the window, toggling its last day off takes that bonus back. */
  lemma WindowForgets(n: nat, s: State)
    requires n > RECENT_WINDOW && s == RunOps(NewAccount(), DaysOn(n + 1))
    ensures TakesUnbroken(s, Step(s, On(n + 1)))
  {
    FirstDaysRun(n + 1);
    LastDayOffForgets(s, n);
  }

  lemma LastDayOffForgets(s: State, n: nat)
    requires n > RECENT_WINDOW && FirstDays(s, n + 1) && HasSource(s.wallet.entries, Source.Streak("h", 3, 1))
    ensures TakesUnbroken(s, Step(s, On(n + 1)))
  {
    var slot := Slot("h", n + 1);
    var rows, row := s.rows - {slot}, s.rows[slot];
    OffShape(s, slot);
    RowsShrink(s.rows, n);
    FirstForgotten(s.(rows := rows), n);
    var i := SourceHasIndex(s.wallet.entries, Source.Streak("h", 3, 1));
    ReversalExactly(s.(rows := rows), "h", row.kind, row.id, i);
    assert Live(s.wallet.entries, i, Source.Streak("h", 3, 1));
  }

  lemma OffShape(s: State, slot: Slot)
    requires Default(s) && slot.habit == "h" && Done(s.rows, slot)
    ensures var t := Step(s, DoToggle(slot, None, None));
      && t.rows == s.rows - {slot} && t.frozen == {}
      && t.wallet == ReverseCompletion(s.(rows := s.rows - {slot}), "h", s.rows[slot].kind, s.rows[slot].id)
  {
  }

  lemma RowsShrink(rows: map<Slot, Row>, k: nat)
    requires RowsUpTo(rows, k + 1)
    ensures RowsUpTo(rows - {Slot("h", k + 1)}, k)
  {
  }

  /** With more than 400 completed days in a row, day 1 is beyond the window though its cycle is whole. */
  lemma FirstForgotten(u: State, n: nat)
    requires n > RECENT_WINDOW && RowsUpTo(u.rows, n) && u.frozen == {}
    ensures ForgetsCycle(u, "h", 1, 3) && Block(Covered(u, "h"), 1, 3)
  {
    CompletedUpTo(u.rows, n);
    assert Later(DaysFrom(1, n), 1) == DaysFrom(2, n - 1);
    assert Forgotten(u, "h", 1);
  }

  // ---- The daily plan forgets milestones ----------------------------------------------------

  lemma PlanShape(s: State, slot: Slot)
    requires Default(s) && slot.habit == "h" && slot !in s.rows
    ensures var t := Step(s, DoPlanComplete(slot, "task"));
      && Default(t) && t.wallet == Post(s.wallet, Entry(10, Base(Full, s.nextId)))
      && t.rows == s.rows[slot := Row(s.nextId, true, 1.0, Full, Some("task"))]
  {
  }

  lemma PostReversesNothing(w: Wallet, e: Entry)
    requires NothingReversed(w.entries) && e.source.Base?
    ensures NothingReversed(Post(w, e).entries)
  {
    forall i: nat
      ensures !Reversed(Post(w, e).entries, i)
    {
      assert !Reversed(w.entries, i) && e.source != Reversal(i);
    }
  }

  /** A plan task completes day `k + 1`. */
  lemma NextDayByPlan(s: State, k: nat)
    requires FirstDays(s, k)
    ensures var t := Step(s, DoPlanComplete(Slot("h", k + 1), "task"));
      FirstDays(t, k + 1) && WrittenBy(t, Slot("h", k + 1), "task")
  {
    var op := DoPlanComplete(Slot("h", k + 1), "task");
    StepKeepsBoth(s, op);
    PlanShape(s, Slot("h", k + 1));
    PostReversesNothing(s.wallet, Entry(10, Base(Full, s.nextId)));
    FirstDaysGrow(s, Step(s, op), k, Row(s.nextId, true, 1.0, Full, Some("task")));
  }

  /** Toggle days 1 and 2, let a task complete day 3, toggle day 4. */
  function PlanRun(): seq<Op> { DaysOn(2) + [DoPlanComplete(Slot("h", 3), "task")] + [On(4)] }

  lemma RunTwoMore(s: State, ops: seq<Op>, a: Op, b: Op)
    ensures RunOps(s, ops + [a] + [b]) == Step(Step(RunOps(s, ops), a), b)
  {
    RunLast(s, ops, a);
    RunLast(s, ops + [a], b);
  }

  lemma PlanThenToggle(s2: State)
    requires FirstDays(s2, 2)
    ensures var s := Step(Step(s2, DoPlanComplete(Slot("h", 3), "task")), On(4));
      && FirstDays(s, 4) && WrittenBy(s, Slot("h", 3), "task")
      && HasSource(s.wallet.entries, Source.Streak("h", 3, 1))
  {
    NextDayByPlan(s2, 2);
    FourthDay(Step(s2, DoPlanComplete(Slot("h", 3), "task")));
  }

  lemma FourthDay(s3: State)
    requires FirstDays(s3, 3) && WrittenBy(s3, Slot("h", 3), "task")
    ensures var s := Step(s3, On(4));
      && FirstDays(s, 4) && WrittenBy(s, Slot("h", 3), "task")
      && HasSource(s.wallet.entries, Source.Streak("h", 3, 1))
  {
    NextDay(s3, 3);
    NextDayClaims(s3, 3);
    NextDayShape(s3, 3);
  }

  /** Then un-completing or deleting the task leaves the three-day bonus standing on a gap. */
  lemma PlanDropLeavesBonus()
    ensures var s := RunOps(NewAccount(), PlanRun());
      && AllCycles(s)
      && !AllCycles(Step(s, DoPlanUncomplete(Slot("h", 3), "task", true)))
      && !AllCycles(Step(s, DoPlanRemove(Slot("h", 3), "task", true)))
  {
    var s2 := RunOps(NewAccount(), DaysOn(2));
    FirstDaysRun(2);
    RunTwoMore(NewAccount(), DaysOn(2), DoPlanComplete(Slot("h", 3), "task"), On(4));
    PlanThenToggle(s2);
    DropLeavesBonus(RunOps(NewAccount(), PlanRun()));
  }

  lemma DropLeavesBonus(s: State)
    requires FirstDays(s, 4) && WrittenBy(s, Slot("h", 3), "task")
    requires HasSource(s.wallet.entries, Source.Streak("h", 3, 1))
    ensures !AllCycles(Step(s, DoPlanUncomplete(Slot("h", 3), "task", true)))
    ensures !AllCycles(Step(s, DoPlanRemove(Slot("h", 3), "task", true)))
  {
    var i := SourceHasIndex(s.wallet.entries, Source.Streak("h", 3, 1));
    assert Needed(s.wallet.entries, Slot("h", 3));
    PlanUncompleteExact(s, Slot("h", 3), "task");
    PlanRemoveExact(s, Slot("h", 3), "task", true);
  }

  // ---- Archived habits still win --------------------------------------------------------------

  /**
   * An archived habit gains a completed day by a toggle exactly when the day
   * already has a row, and the call names a value or a kind that succeeds.
   */
  lemma ArchivedToggleWins(s: State, slot: Slot, value: Option<real>, kind: Option<Kind>)
    requires slot.habit in s.habits && s.habits[slot.habit].archived && !Done(s.rows, slot)
    ensures var habit := s.habits[slot.habit];
      Done(Step(s, DoToggle(slot, value, kind)).rows, slot) <==>
      && slot in s.rows
      && (value.Some? || kind.Some?)
      && (kind == Some(Minimum) ==> habit.hasMinimum) && (kind == Some(Emergency) ==> habit.hasEmergency)
      && Succeeds(habit, value.GetOr(habit.goal), kind.GetOr(Full))
  {
  }

  /** The daily plan never asks: it wins every open day of every habit that exists. */
  lemma ArchivedPlanWins(s: State, slot: Slot, task: TaskId)
    requires !Done(s.rows, slot)
    ensures Done(Step(s, DoPlanComplete(slot, task)).rows, slot) <==> slot.habit in s.habits
  {
  }

  /** A run of both: partial progress, archive, finish the day by value, and another day by a task. */
  lemma ArchivedHabitWins()
    ensures var archived := map["h" := HABIT.(archived := true)];
      var partial := Step(NewAccount(), DoToggle(Slot("h", 1), Some(0.5), None));
      var s := Step(partial, DoConfigure(archived, [], map[]));
      && !Done(s.rows, Slot("h", 1)) && Slot("h", 2) !in s.rows && s.habits["h"].archived
      && Toggle(s, Slot("h", 2), None, None) == Rejected(Conflict)
      && Done(Step(s, DoToggle(Slot("h", 1), Some(1.0), None)).rows, Slot("h", 1))
      && Done(Step(s, DoPlanComplete(Slot("h", 2), "task")).rows, Slot("h", 2))
  {
    var archived := map["h" := HABIT.(archived := true)];
    var partial := Step(NewAccount(), DoToggle(Slot("h", 1), Some(0.5), None));
    var s := Step(partial, DoConfigure(archived, [], map[]));
    assert s.rows == map[Slot("h", 1) := Row(0, false, 0.5, Full, None)];
    ArchivedToggleWins(s, Slot("h", 1), Some(1.0), None);
    ArchivedPlanWins(s, Slot("h", 2), "task");
  }
}
