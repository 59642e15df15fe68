/**
 * Streak bonuses and the cycles that justify them. Claims and reversals both
 * read only the latest 400 completed days; that window can only make reversal
 * stricter, so an unreversed bonus always has its whole cycle completed or
 * frozen, however long the history is.
 */
module Milestones {
  import opened Common
  import opened Streaks
  import opened Progression
  import opened Ledger
  import opened Completions
  import opened RewardLaws

  /** Every completed or frozen day of the habit, without any window. */
  function Covered(s: State, habit: HabitId): set<Day> {
    CompletedDays(s.rows, habit) + FrozenDays(s.frozen, habit)
  }

  predicate StreakOf(e: Entry, habit: HabitId) { e.source.Streak? && e.source.habit == habit }

  /** Every streak bonus of the habit that still counts has its cycle inside `days`. */
  ghost predicate Intact(entries: seq<Entry>, habit: HabitId, days: set<Day>) {
    forall i :: 0 <= i < |entries| && StreakOf(entries[i], habit) && !Reversed(entries, i) ==>
      Block(days, entries[i].source.cycleStart, entries[i].source.milestone)
  }

  ghost predicate AllCycles(s: State) {
    forall habit :: Intact(s.wallet.entries, habit, Covered(s, habit))
  }

  // ---- The 400-day window ---------------------------------------------------------

  lemma RecentWithin(s: State, habit: HabitId)
    ensures Satisfied(s, habit) <= Covered(s, habit)
  {
  }

  /** With at most 400 completed days the window hides nothing. */
  lemma RecentIsAll(days: set<Day>, n: nat)
    requires |days| <= n
    ensures Recent(days, n) == days
  {
    forall d | d in days
      ensures |Later(days, d)| < n
    {
      StrictSubsetSmaller(Later(days, d), days, d);
    }
  }

  lemma StrictSubsetSmaller(a: set<Day>, b: set<Day>, d: Day)
    requires a <= b && d in b && d !in a
    ensures |a| < |b|
  {
    SubsetNotLarger(a, b - {d});
  }

  lemma {:induction false} SubsetNotLarger(a: set<Day>, b: set<Day>)
    requires a <= b
    ensures |a| <= |b|
    decreases a
  {
    if a != {} {
      SomeDay(a);
      var x :| x in a;
      SubsetNotLarger(a - {x}, b - {x});
    }
  }

  /** The `n` consecutive days from `start`. */
  function DaysFrom(start: Day, n: nat): (days: set<Day>)
    ensures forall d :: d in days <==> start <= d < start + n
    ensures |days| == n
  {
    if n == 0 then {} else DaysFrom(start, n - 1) + {start + n - 1}
  }

  /** A day the engine does not read: 400 completed days are later, and no freeze protects it. */
  predicate Forgotten(s: State, habit: HabitId, d: Day) {
    Slot(habit, d) !in s.frozen && |Later(CompletedDays(s.rows, habit), d)| >= RECENT_WINDOW
  }

  ghost predicate ForgetsCycle(s: State, habit: HabitId, cycleStart: Day, milestone: nat) {
    exists d :: cycleStart <= d < cycleStart + milestone && Forgotten(s, habit, d)
  }

  /** What the engine reads of a cycle: the days that are completed or frozen and not forgotten. */
  lemma ReadsCycle(s: State, habit: HabitId, cycleStart: Day, milestone: nat)
    ensures Block(Satisfied(s, habit), cycleStart, milestone) <==>
      Block(Covered(s, habit), cycleStart, milestone) && !ForgetsCycle(s, habit, cycleStart, milestone)
  {
    forall d
      ensures d in Satisfied(s, habit) <==> d in Covered(s, habit) && !Forgotten(s, habit, d)
    {
    }
    if Block(Satisfied(s, habit), cycleStart, milestone) {
      assert forall d :: cycleStart <= d < cycleStart + milestone ==> d in Satisfied(s, habit);
    } else if Block(Covered(s, habit), cycleStart, milestone) {
      var d :| cycleStart <= d < cycleStart + milestone && d !in Satisfied(s, habit);
      assert Forgotten(s, habit, d);
    }
  }

  // ---- Claims and reversals -------------------------------------------------------------

  lemma IntactExtends(entries: seq<Entry>, more: seq<Entry>, habit: HabitId, days: set<Day>, wider: set<Day>)
    requires Intact(entries, habit, days) && days <= wider && entries <= more
    requires forall i :: |entries| <= i < |more| && StreakOf(more[i], habit) ==>
      Block(wider, more[i].source.cycleStart, more[i].source.milestone)
    ensures Intact(more, habit, wider)
  {
    SourcesPrefix(entries, more);
    forall i | 0 <= i < |more| && StreakOf(more[i], habit) && !Reversed(more, i)
      ensures Block(wider, more[i].source.cycleStart, more[i].source.milestone)
    {
      if i < |entries| {
        assert more[i] == entries[i];
      }
    }
  }

  /** A milestone is only claimed for a cycle that the days read cover. */
  lemma StreakOffersCovered(s: State, habit: Habit, slot: Slot, base: int)
    ensures forall o :: o in StreakOffersOf(s, habit, slot, base) ==>
      && o.source.Streak? && o.source.habit == slot.habit
      && Block(Satisfied(s, slot.habit), o.source.cycleStart, o.source.milestone)
  {
    var days := Satisfied(s, slot.habit);
    var streak := CurrentStreak(days, slot.day);
    var start := CycleStart(days, slot.day);
    StreakOffersKeyed(slot.habit, streak, start, STREAK_MILESTONES);
    forall o | o in StreakOffers(slot.habit, streak, start, STREAK_MILESTONES)
      ensures Block(days, o.source.cycleStart, o.source.milestone)
    {
      ReachedMilestoneIsIntact(days, slot.day, o.source.milestone);
    }
  }

  /** Claiming appends only offers. */
  ghost predicate Appends(entries: seq<Entry>, more: seq<Entry>, habit: HabitId, days: set<Day>) {
    && entries <= more
    && (forall i :: |entries| <= i < |more| && more[i].source.Streak? ==>
         more[i].source.habit == habit && Block(days, more[i].source.cycleStart, more[i].source.milestone))
  }

  lemma ClaimAppends(w: Wallet, offers: seq<Entry>, habit: HabitId, days: set<Day>)
    requires forall o :: o in offers && o.source.Streak? ==>
      o.source.habit == habit && Block(days, o.source.cycleStart, o.source.milestone)
    ensures Appends(w.entries, ClaimAll(w, offers).entries, habit, days)
  {
    ClaimAllExact(w, offers);
  }

  /** An award appends streak bonuses of its own habit only, each for a cycle the days read cover. */
  lemma AwardAppends(s: State, habit: Habit, slot: Slot, kind: Kind, id: CompletionId)
    ensures Appends(s.wallet.entries, Award(s, habit, slot, kind, id).entries, slot.habit, Satisfied(s, slot.habit))
  {
    var base := BaseCoins(habit, kind);
    var w := PostBase(s.wallet, kind, id, base);
    var streaks, identities := StreakOffersOf(s, habit, slot, base), IdentityOffersOf(s, habit, slot, base);
    var days := Satisfied(s, slot.habit);
    StreakOffersCovered(s, habit, slot, base);
    IdentityOffersKeyed(s.rows, slot.habit, s.identities);
    ClaimAppends(w, streaks, slot.habit, days);
    ClaimAppends(ClaimAll(w, streaks), identities, slot.habit, days);
  }

  lemma AwardIntact(s: State, habit: Habit, slot: Slot, kind: Kind, id: CompletionId)
    requires AllCycles(s)
    ensures AllCycles(s.(wallet := Award(s, habit, slot, kind, id)))
  {
    var t := s.(wallet := Award(s, habit, slot, kind, id));
    AwardAppends(s, habit, slot, kind, id);
    forall h
      ensures Intact(t.wallet.entries, h, Covered(t, h))
    {
      RecentWithin(s, slot.habit);
      IntactExtends(s.wallet.entries, t.wallet.entries, h, Covered(s, h), Covered(s, h));
    }
  }

  lemma ReverseCompletionExtends(s: State, habit: HabitId, kind: Kind, id: CompletionId)
    ensures OnlyReversals(s.wallet.entries, ReverseCompletion(s, habit, kind, id).entries)
  {
    var w := ReverseLatest(s.wallet, Base(kind, id));
    ReverseBrokenContinues(w, habit, Satisfied(s, habit), |w.entries|);
  }

  /**
   * Whatever the ledger held before, after a reversal every bonus of the habit
   * that still counts has its whole cycle among the days read.
   */
  lemma ReversalRestoresCycles(s: State, habit: HabitId, kind: Kind, id: CompletionId)
    ensures Intact(ReverseCompletion(s, habit, kind, id).entries, habit, Satisfied(s, habit))
    ensures Intact(ReverseCompletion(s, habit, kind, id).entries, habit, Covered(s, habit))
  {
    var w := ReverseLatest(s.wallet, Base(kind, id));
    var days := Satisfied(s, habit);
    var r := ReverseBroken(w, habit, days, |w.entries|);
    ReverseBrokenExact(w, habit, days, |w.entries|);
    ReverseBrokenContinues(w, habit, days, |w.entries|);
    forall i | 0 <= i < |r.entries| && StreakOf(r.entries[i], habit)
      && !Reversed(r.entries, i)
      ensures Block(days, r.entries[i].source.cycleStart, r.entries[i].source.milestone)
    {
      assert r.entries[i] == w.entries[i];
      assert !HasSource(r.entries, Reversal(i));
    }
    RecentWithin(s, habit);
    IntactExtends(r.entries, r.entries, habit, days, Covered(s, habit));
  }

  /**
   * A reversal takes back a bonus that still counts exactly when its cycle is
   * broken or a day of it is forgotten.
   */
  lemma ReversalExactly(s: State, habit: HabitId, kind: Kind, id: CompletionId, i: nat)
    requires Sound(s.wallet)
    requires i < |s.wallet.entries| && StreakOf(s.wallet.entries[i], habit)
    requires !Reversed(s.wallet.entries, i)
    ensures var source := s.wallet.entries[i].source;
      Reversed(ReverseCompletion(s, habit, kind, id).entries, i) <==>
      || !Block(Covered(s, habit), source.cycleStart, source.milestone)
      || ForgetsCycle(s, habit, source.cycleStart, source.milestone)
  {
    var source := s.wallet.entries[i].source;
    var w := ReverseLatest(s.wallet, Base(kind, id));
    ReverseLatestExact(s.wallet, Base(kind, id));
    ReverseBrokenExact(w, habit, Satisfied(s, habit), |w.entries|);
    ReadsCycle(s, habit, source.cycleStart, source.milestone);
    assert w.entries[i] == s.wallet.entries[i];
    assert Reversed(w.entries, i) <==> Reversed(s.wallet.entries, i);
    assert HasSource(ReverseCompletion(s, habit, kind, id).entries, Reversal(i)) <==>
      Broken(w.entries[i], habit, Satisfied(s, habit));
  }

  /** With at most 400 completed days nothing is forgotten: a reversal takes back exactly the broken bonuses. */
  lemma ReversalTakesOnlyBroken(s: State, habit: HabitId, kind: Kind, id: CompletionId, i: nat)
    requires Sound(s.wallet) && |CompletedDays(s.rows, habit)| <= RECENT_WINDOW
    requires i < |s.wallet.entries| && StreakOf(s.wallet.entries[i], habit)
    requires !Reversed(s.wallet.entries, i)
    ensures var source := s.wallet.entries[i].source;
      Reversed(ReverseCompletion(s, habit, kind, id).entries, i) <==>
      !Block(Covered(s, habit), source.cycleStart, source.milestone)
  {
    var source := s.wallet.entries[i].source;
    RecentIsAll(CompletedDays(s.rows, habit), RECENT_WINDOW);
    ReversalExactly(s, habit, kind, id, i);
    ReadsCycle(s, habit, source.cycleStart, source.milestone);
  }

  // ---- Steps ---------------------------------------------------------------------------------

  /** Other habits' days do not move when one row changes. */
  lemma OtherHabitsCovered(s: State, t: State, slot: Slot, habit: HabitId)
    requires t.rows - {slot} == s.rows - {slot} && t.frozen == s.frozen && habit != slot.habit
    ensures Covered(t, habit) == Covered(s, habit)
  {
    forall d
      ensures Done(t.rows, Slot(habit, d)) <==> Done(s.rows, Slot(habit, d))
    {
      var other := Slot(habit, d);
      assert other in t.rows <==> other in t.rows - {slot};
      assert other in s.rows <==> other in s.rows - {slot};
    }
  }

  /** Withdrawing a row's rewards repairs its own habit and leaves the others as they were. */
  lemma WithdrawIntact(s: State, t: State, slot: Slot)
    requires AllCycles(s) && slot in s.rows
    requires t.rows - {slot} == s.rows - {slot} && t == s.(rows := t.rows)
    ensures AllCycles(Withdraw(t, slot.habit, s.rows[slot]))
  {
    var row := s.rows[slot];
    var u := Withdraw(t, slot.habit, row);
    ReverseCompletionExtends(t, slot.habit, row.kind, row.id);
    forall h
      ensures Intact(u.wallet.entries, h, Covered(u, h))
    {
      if h == slot.habit {
        ReversalRestoresCycles(t, h, row.kind, row.id);
      } else {
        OtherHabitsCovered(s, t, slot, h);
        IntactExtends(s.wallet.entries, u.wallet.entries, h, Covered(s, h), Covered(t, h));
      }
    }
  }

  /** Completing a row, or leaving it incomplete, uncovers nothing. */
  lemma GrowIntact(s: State, t: State, slot: Slot)
    requires AllCycles(s) && t.wallet == s.wallet && t.frozen == s.frozen
    requires t.rows - {slot} == s.rows - {slot} && (Done(s.rows, slot) ==> Done(t.rows, slot))
    ensures AllCycles(t)
  {
    forall h
      ensures Intact(t.wallet.entries, h, Covered(t, h))
    {
      forall d | Done(s.rows, Slot(h, d))
        ensures Done(t.rows, Slot(h, d))
      {
        if Slot(h, d) != slot {
          assert Slot(h, d) in s.rows - {slot};
          assert Slot(h, d) in t.rows - {slot};
        }
      }
      IntactExtends(s.wallet.entries, t.wallet.entries, h, Covered(s, h), Covered(t, h));
    }
  }

  lemma LogIntact(s: State, slot: Slot, habit: Habit, value: real, kind: Kind)
    requires AllCycles(s)
    ensures AllCycles(Log(s, slot, habit, value, kind))
  {
    var t := Record(s, slot, habit, value, kind);
    var id := t.rows[slot].id;
    assert t.rows - {slot} == s.rows - {slot};
    if !Succeeds(habit, value, kind) && Done(s.rows, slot) {
      WithdrawIntact(s, t, slot);
    } else {
      GrowIntact(s, t, slot);
      if Succeeds(habit, value, kind) && Done(s.rows, slot) && s.rows[slot].kind != kind {
        WithdrawIntact(t.(rows := t.rows[slot := s.rows[slot]]), t, slot) by {
          assert t.(rows := t.rows[slot := s.rows[slot]]) == s;
        }
        var u := t.(wallet := ReverseCompletion(t, slot.habit, s.rows[slot].kind, id));
        SameCycles(Withdraw(t, slot.habit, s.rows[slot]), u);
        AwardIntact(u, habit, slot, kind, id);
      } else if Succeeds(habit, value, kind) && !Done(s.rows, slot) {
        AwardIntact(t, habit, slot, kind, id);
        SameCycles(t.(wallet := Award(t, habit, slot, kind, id)), Log(s, slot, habit, value, kind));
      }
    }
  }

  /** Only the ledger, the rows and the freezes matter to cycles. */
  lemma SameCycles(s: State, t: State)
    requires AllCycles(s) && t.wallet.entries == s.wallet.entries && t.rows == s.rows && t.frozen == s.frozen
    ensures AllCycles(t)
  {
    forall h
      ensures Intact(t.wallet.entries, h, Covered(t, h))
    {
      assert Covered(t, h) == Covered(s, h);
    }
  }

  lemma BuyIntact(s: State, p: Purchase)
    requires AllCycles(s)
    ensures Buy(s, p).Accepted? ==> AllCycles(Buy(s, p).state)
  {
    if Buy(s, p).Accepted? {
      var t := Buy(s, p).state;
      forall h
        ensures Intact(t.wallet.entries, h, Covered(t, h))
      {
        IntactExtends(s.wallet.entries, t.wallet.entries, h, Covered(s, h), Covered(t, h));
      }
    }
  }

  /** The daily plan deletes completions without looking at milestones. */
  predicate DropsPlanRow(op: Op) { op.DoPlanUncomplete? || op.DoPlanRemove? }

  lemma StepKeepsCycles(s: State, op: Op)
    requires AllCycles(s) && Sound(s.wallet) && !DropsPlanRow(op)
    ensures AllCycles(Step(s, op))
  {
    match op
    case DoToggle(slot, value, kind) =>
      if Toggle(s, slot, value, kind).Accepted? {
        var habit := s.habits[slot.habit];
        if slot in s.rows && value.None? && kind.None? {
          var t := s.(rows := s.rows - {slot});
          if s.rows[slot].status {
            WithdrawIntact(s, t, slot);
          } else {
            GrowIntact(s, t, slot);
          }
        } else {
          LogIntact(s, slot, habit, value.GetOr(habit.goal), kind.GetOr(Full));
        }
      }
    case DoPlanComplete(slot, task) =>
      if slot.habit in s.habits && !Done(s.rows, slot) {
        var t := PlanRecord(s, slot, s.habits[slot.habit].goal, task);
        assert t.rows - {slot} == s.rows - {slot};
        GrowIntact(s, t, slot);
        var u := Step(s, op);
        forall h
          ensures Intact(u.wallet.entries, h, Covered(u, h))
        {
          assert Covered(u, h) == Covered(t, h);
          IntactExtends(t.wallet.entries, u.wallet.entries, h, Covered(t, h), Covered(u, h));
        }
      }
    case DoPlanUncomplete(_, _, _) =>
    case DoPlanRemove(_, _, _) =>
    case DoRedeem(item) =>
      if item in s.catalog {
        BuyIntact(s, ShopItem(item, s.catalog[item].cost));
      }
    case DoFreeze(slot, today) => BuyIntact(s, FreezeDay(slot));
    case DoRepair => RepairIsIdle(s);
    case DoConfigure(h, i, c) => SameCycles(s, Step(s, op));
  }

  /** Over every sequential run without daily-plan deletions, for histories of any length. */
  lemma {:induction false} RunKeepsCycles(s: State, ops: seq<Op>)
    requires AllCycles(s) && Consistent(s)
    requires forall op :: op in ops ==> !DropsPlanRow(op)
    ensures AllCycles(RunOps(s, ops))
    decreases |ops|
  {
    if ops != [] {
      assert ops[0] in ops;
      StepKeepsCycles(s, ops[0]);
      StepKeepsConsistent(s, ops[0]);
      RunKeepsCycles(Step(s, ops[0]), ops[1..]);
    }
  }

  // ---- Exactly when a daily-plan deletion leaves an unjustified bonus ----------------------------

  /** Some bonus that counts needs this day. */
  ghost predicate Needed(entries: seq<Entry>, slot: Slot) {
    exists i :: 0 <= i < |entries| && StreakOf(entries[i], slot.habit)
      && !Reversed(entries, i)
      && entries[i].source.cycleStart <= slot.day < entries[i].source.cycleStart + entries[i].source.milestone
  }

  /** A daily-plan deletion keeps every cycle justified unless it removes a needed, unfrozen completed day. */
  lemma PlanDropExact(s: State, slot: Slot, w: Wallet, p: Profile)
    requires AllCycles(s) && slot in s.rows
    requires OnlyReversals(s.wallet.entries, w.entries)
    requires forall i :: 0 <= i < |s.wallet.entries| && s.wallet.entries[i].source.Streak? ==>
      (Reversed(w.entries, i) <==> Reversed(s.wallet.entries, i))
    ensures AllCycles(s.(rows := s.rows - {slot}, wallet := w, profile := p)) <==>
      !Done(s.rows, slot) || slot in s.frozen || !Needed(s.wallet.entries, slot)
  {
    var t := s.(rows := s.rows - {slot}, wallet := w, profile := p);
    var entries := s.wallet.entries;
    assert t.rows - {slot} == s.rows - {slot};
    if !Done(s.rows, slot) || slot in s.frozen {
      forall h
        ensures Intact(w.entries, h, Covered(t, h))
      {
        assert Covered(s, h) <= Covered(t, h);
        IntactExtends(entries, w.entries, h, Covered(s, h), Covered(t, h));
      }
    } else if !Needed(entries, slot) {
      forall h
        ensures Intact(w.entries, h, Covered(t, h))
      {
        if h == slot.habit {
          UnneededIntact(s, t, slot);
        } else {
          OtherHabitsCovered(s, t, slot, h);
          IntactExtends(entries, w.entries, h, Covered(s, h), Covered(t, h));
        }
      }
    } else {
      var i :| 0 <= i < |entries| && StreakOf(entries[i], slot.habit)
        && !Reversed(entries, i)
        && entries[i].source.cycleStart <= slot.day < entries[i].source.cycleStart + entries[i].source.milestone;
      assert w.entries[i] == entries[i];
      assert slot.day !in Covered(t, slot.habit);
      assert !Intact(w.entries, slot.habit, Covered(t, slot.habit));
    }
  }

  lemma UnneededIntact(s: State, t: State, slot: Slot)
    requires Intact(s.wallet.entries, slot.habit, Covered(s, slot.habit)) && !Needed(s.wallet.entries, slot)
    requires t.rows == s.rows - {slot} && t.frozen == s.frozen
    requires OnlyReversals(s.wallet.entries, t.wallet.entries)
    requires forall i :: 0 <= i < |s.wallet.entries| && s.wallet.entries[i].source.Streak? ==>
      (Reversed(t.wallet.entries, i) <==> Reversed(s.wallet.entries, i))
    ensures Intact(t.wallet.entries, slot.habit, Covered(t, slot.habit))
  {
    var entries, more := s.wallet.entries, t.wallet.entries;
    forall i | 0 <= i < |more| && StreakOf(more[i], slot.habit) && !Reversed(more, i)
      ensures Block(Covered(t, slot.habit), more[i].source.cycleStart, more[i].source.milestone)
    {
      assert more[i] == entries[i];
      assert Covered(s, slot.habit) <= Covered(t, slot.habit) + {slot.day};
    }
  }

  /** The daily plan's removal, for a row its task wrote. */
  lemma PlanUncompleteExact(s: State, slot: Slot, task: TaskId)
    requires AllCycles(s) && Consistent(s) && WrittenBy(s, slot, task) && slot.habit in s.habits
    ensures AllCycles(Step(s, DoPlanUncomplete(slot, task, true))) <==>
      !Done(s.rows, slot) || slot in s.frozen || !Needed(s.wallet.entries, slot)
  {
    var row := s.rows[slot];
    var w := ReverseLatest(s.wallet, Base(row.kind, row.id));
    ReverseLatestExact(s.wallet, Base(row.kind, row.id));
    PlanDropExact(s, slot, w, AddXp(s.profile, -XP_PER_COMPLETION));
  }

  lemma PlanRemoveExact(s: State, slot: Slot, task: TaskId, refundXp: bool)
    requires AllCycles(s) && Consistent(s) && WrittenBy(s, slot, task)
    ensures AllCycles(Step(s, DoPlanRemove(slot, task, refundXp))) <==>
      !Done(s.rows, slot) || slot in s.frozen || !Needed(s.wallet.entries, slot)
  {
    var row := s.rows[slot];
    var t := Step(s, DoPlanRemove(slot, task, refundXp));
    ReverseLatestExact(s.wallet, Base(row.kind, row.id));
    PlanDropExact(s, slot, t.wallet, t.profile);
  }
}
