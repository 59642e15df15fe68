/**
 * The services as they run: one user's rows as fields that each call updates in
 * place, statement by statement. Every method is proved to leave exactly the
 * state, and report exactly the coins, that its function in Completions.dfy
 * gives.
 */
module HabitStore {
  import opened Common
  import opened Streaks
  import opened Schedule
  import opened Progression
  import opened Ledger
  import opened Completions

  lemma {:induction false} ClaimAllConcat(w: Wallet, a: seq<Entry>, b: seq<Entry>)
    ensures ClaimAll(w, a + b) == ClaimAll(ClaimAll(w, a), b)
    decreases |a|
  {
    if a == [] {
      assert a + b == b;
    } else {
      assert (a + b)[1..] == a[1..] + b;
      ClaimAllConcat(Claim(w, a[0]), a[1..], b);
    }
  }

  class Store {
    var coins: int
    var entries: seq<Entry>
    var rows: map<Slot, Row>
    var nextId: CompletionId
    var frozen: set<Slot>
    var owned: set<ItemId>
    var profile: Profile
    var habits: map<HabitId, Habit>
    var identities: seq<Identity>
    var catalog: map<ItemId, Item>

    constructor (habits: map<HabitId, Habit>, identities: seq<Identity>, catalog: map<ItemId, Item>)
      ensures Snapshot() == Init(habits, identities, catalog)
    {
      coins, entries, rows, nextId := 0, [], map[], 0;
      frozen, owned, profile := {}, {}, NEW_PROFILE;
      this.habits, this.identities, this.catalog := habits, identities, catalog;
    }

    function Purse(): Wallet
      reads this
    {
      Wallet(coins, entries)
    }

    function Snapshot(): State
      reads this
    {
      State(Purse(), rows, nextId, frozen, owned, profile, habits, identities, catalog)
    }

    // ---- Ledger primitives ----------------------------------------------------------

    /** Creates an award row and bumps the balance; false stands for the unique-index violation. */
    method CreateAward(e: Entry) returns (created: bool)
      modifies this`coins, this`entries
      ensures created == !(OneShot(e.source) && HasSource(old(entries), e.source))
      ensures Purse() == if created then Post(old(Purse()), e) else old(Purse())
    {
      if OneShot(e.source) && HasSource(entries, e.source) {
        return false;
      }
      entries := entries + [e];
      coins := coins + e.amount;
      return true;
    }

    method ReverseEntryOnce(original: nat) returns (reversed: int)
      requires original < |entries|
      modifies this`coins, this`entries
      ensures Purse() == ReverseOnce(old(Purse()), original)
      ensures reversed == old(coins) - coins
    {
      var amount := entries[original].amount;
      if Reversed(entries, original) {
        return 0;
      }
      entries := entries + [Entry(-amount, Reversal(original))];
      coins := coins - amount;
      return amount;
    }

    /** Used by the reward engine and, with the same effect, by the daily plan. */
    method ReverseBaseAward(kind: Kind, completion: CompletionId) returns (reversed: int)
      modifies this`coins, this`entries
      ensures Purse() == ReverseLatest(old(Purse()), Base(kind, completion))
      ensures reversed == old(coins) - coins
    {
      var source := Base(kind, completion);
      var i := |entries|;
      while i > 0 && entries[i - 1].source != source
        invariant 0 <= i <= |entries|
        invariant forall j :: i <= j < |entries| ==> entries[j].source != source
      {
        i := i - 1;
      }
      if i == 0 {
        assert Latest(entries, source).None?;
        return 0;
      }
      assert Latest(entries, source) == Some(i - 1) by {
        SourceAt(entries, i - 1);
      }
      if entries[i - 1].amount <= 0 {
        return 0;
      }
      reversed := ReverseEntryOnce(i - 1);
    }

    method ReverseCompletionRewards(habit: HabitId, completion: CompletionId, priorKind: Kind) returns (reversed: int)
      modifies this`coins, this`entries
      ensures Purse() == ReverseCompletion(old(Snapshot()), habit, priorKind, completion)
      ensures reversed == old(coins) - coins
    {
      reversed := ReverseBaseAward(priorKind, completion);
      ghost var w := Purse();
      ghost var days := Satisfied(old(Snapshot()), habit);
      var completedKeys := Recent(CompletedDays(rows, habit), RECENT_WINDOW);
      var frozenKeys := FrozenDays(frozen, habit);
      var awards := entries;
      for k := 0 to |awards|
        invariant awards == w.entries
        invariant Purse() == ReverseBroken(w, habit, days, k)
        invariant reversed == old(coins) - coins
      {
        var source := awards[k].source;
        if source.Streak? && source.habit == habit {
          var intact := IsMilestoneCycleIntact(completedKeys, source.cycleStart, source.milestone, frozenKeys);
          if !intact {
            assert entries[k] == awards[k];
            var amount := ReverseEntryOnce(k);
            reversed := reversed + amount;
          }
        }
      }
    }

    // ---- Awards ---------------------------------------------------------------------------

    method ClaimStreakMilestones(slot: Slot) returns (streak: nat, awarded: int)
      modifies this`coins, this`entries
      ensures var days := Satisfied(old(Snapshot()), slot.habit);
        && streak == CurrentStreak(days, slot.day)
        && Purse() == ClaimAll(old(Purse()),
             StreakOffers(slot.habit, streak, CycleStart(days, slot.day), STREAK_MILESTONES))
      ensures awarded == coins - old(coins)
    {
      var completedKeys := Recent(CompletedDays(rows, slot.habit), RECENT_WINDOW);
      var frozenKeys := FrozenDays(frozen, slot.habit);
      var cycleStart;
      streak, cycleStart := ComputeCurrentStreak(completedKeys, slot.day, frozenKeys);
      awarded := 0;
      if streak == 0 {
        return;
      }
      var claimed := Sources(entries);
      ghost var goal := ClaimAll(Purse(), StreakOffers(slot.habit, streak, cycleStart, STREAK_MILESTONES));
      var i := 0;
      while i < |STREAK_MILESTONES| && streak >= STREAK_MILESTONES[i]
        invariant 0 <= i <= |STREAK_MILESTONES|
        invariant ClaimAll(Purse(), StreakOffers(slot.habit, streak, cycleStart, STREAK_MILESTONES[i..])) == goal
        invariant claimed <= Sources(entries)
        invariant awarded == coins - old(coins)
      {
        var m := STREAK_MILESTONES[i];
        var key := Source.Streak(slot.habit, m, cycleStart);
        if key !in claimed {
          var created := CreateAward(Entry(MilestoneBonus(m), key));
          if created {
            awarded := awarded + MilestoneBonus(m);
          }
        }
        assert STREAK_MILESTONES[i..][1..] == STREAK_MILESTONES[i + 1..];
        i := i + 1;
      }
    }

    /** The thresholds of one identity, against keys read before any of them was claimed. */
    method ClaimThresholds(identity: IdentityId, points: nat, claimed: set<Source>) returns (awarded: int)
      requires claimed <= Sources(entries)
      modifies this`coins, this`entries
      ensures Purse() == ClaimAll(old(Purse()), ThresholdOffers(identity, points, IDENTITY_THRESHOLDS))
      ensures claimed <= Sources(entries)
      ensures awarded == coins - old(coins)
    {
      awarded := 0;
      ghost var goal := ClaimAll(Purse(), ThresholdOffers(identity, points, IDENTITY_THRESHOLDS));
      for i := 0 to |IDENTITY_THRESHOLDS|
        invariant ClaimAll(Purse(), ThresholdOffers(identity, points, IDENTITY_THRESHOLDS[i..])) == goal
        invariant claimed <= Sources(entries)
        invariant awarded == coins - old(coins)
      {
        var threshold := IDENTITY_THRESHOLDS[i];
        var key := Source.Identity(identity, threshold);
        assert IDENTITY_THRESHOLDS[i..][1..] == IDENTITY_THRESHOLDS[i + 1..];
        ClaimAllConcat(Purse(),
                       if points < threshold then [] else [Entry(IDENTITY_MILESTONE_BONUS, key)],
                       ThresholdOffers(identity, points, IDENTITY_THRESHOLDS[i + 1..]));
        if points >= threshold && key !in claimed {
          var created := CreateAward(Entry(IDENTITY_MILESTONE_BONUS, key));
          if created {
            awarded := awarded + IDENTITY_MILESTONE_BONUS;
          }
        }
      }
    }

    method ClaimIdentityMilestones(habit: HabitId) returns (awarded: int)
      modifies this`coins, this`entries
      ensures Purse() == ClaimAll(old(Purse()), IdentityOffers(rows, habit, identities))
      ensures awarded == coins - old(coins)
    {
      awarded := 0;
      var claimed := Sources(entries);
      ghost var goal := ClaimAll(Purse(), IdentityOffers(rows, habit, identities));
      for i := 0 to |identities|
        invariant ClaimAll(Purse(), IdentityOffers(rows, habit, identities[i..])) == goal
        invariant claimed <= Sources(entries)
        invariant awarded == coins - old(coins)
      {
        var identity := identities[i];
        assert identities[i..][1..] == identities[i + 1..];
        if identity.active && habit in identity.habits {
          var points := EvidencePoints(rows, identity.habits);
          ClaimAllConcat(Purse(), ThresholdOffers(identity.id, points, IDENTITY_THRESHOLDS),
                         IdentityOffers(rows, habit, identities[i + 1..]));
          var amount := ClaimThresholds(identity.id, points, claimed);
          awarded := awarded + amount;
        } else {
          var later := IdentityOffers(rows, habit, identities[i + 1..]);
          assert [] + later == later;
        }
      }
    }

    method AwardForCompletion(habit: Habit, slot: Slot, kind: Kind, completion: CompletionId) returns (total: int)
      modifies this`coins, this`entries
      ensures Purse() == Award(old(Snapshot()), habit, slot, kind, completion)
      ensures total == coins - old(coins)
    {
      total := 0;
      var base := BaseCoins(habit, kind);
      if base > 0 {
        var created := CreateAward(Entry(base, Base(kind, completion)));
        total := total + base;
      }
      if habit.streakBonus && base > 0 {
        var streak, awarded := ClaimStreakMilestones(slot);
        total := total + awarded;
      }
      if habit.identityBonus && base > 0 {
        var awarded := ClaimIdentityMilestones(slot.habit);
        total := total + awarded;
      }
    }

    // ---- Habit toggle -------------------------------------------------------------------------

    /** Whether a call left the state, and reported the coins, that an outcome says. */
    predicate Did(before: State, outcome: Outcome, error: Option<Error>, delta: int)
      reads this
    {
      match outcome
      case Accepted(after, change) => error == None && Snapshot() == after && delta == change
      case Rejected(e) => error == Some(e) && Snapshot() == before && delta == 0
    }

    method ToggleCompletion(slot: Slot, value: Option<real>, kindInput: Option<Kind>)
      returns (error: Option<Error>, coinsAwarded: int)
      modifies this
      ensures Did(old(Snapshot()), Toggle(old(Snapshot()), slot, value, kindInput), error, coinsAwarded)
    {
      if slot.habit !in habits {
        return Some(NotFound), 0;
      }
      var habit := habits[slot.habit];
      var kind := kindInput.GetOr(Full);
      if kind.Minimum? && !habit.hasMinimum {
        return Some(BadRequest), 0;
      }
      if kind.Emergency? && !habit.hasEmergency {
        return Some(BadRequest), 0;
      }
      if slot !in rows && habit.archived {
        return Some(Conflict), 0;
      }
      if slot in rows && value.None? && kindInput.None? {
        coinsAwarded := RemoveCompletion(slot);
      } else {
        coinsAwarded := LogCompletion(slot, habit, value.GetOr(habit.goal), kind);
      }
      return None, coinsAwarded;
    }

    method RemoveCompletion(slot: Slot) returns (coinsDelta: int)
      requires slot in rows
      modifies this
      ensures Snapshot() == ToggleOff(old(Snapshot()), slot)
      ensures coinsDelta == coins - old(coins)
    {
      var existing := rows[slot];
      rows := rows - {slot};
      coinsDelta := 0;
      if existing.status {
        profile := AddExperience(profile, -XP_PER_COMPLETION);
        var reversed := ReverseCompletionRewards(slot.habit, existing.id, existing.kind);
        coinsDelta := coinsDelta - reversed;
      }
    }

    method LogCompletion(slot: Slot, habit: Habit, value: real, kind: Kind) returns (coinsDelta: int)
      modifies this
      ensures Snapshot() == Log(old(Snapshot()), slot, habit, value, kind)
      ensures coinsDelta == coins - old(coins)
    {
      var isCompleted := if kind.Full? then value >= habit.goal else true;
      var prior := if slot in rows && rows[slot].status then Some(rows[slot]) else None;
      var kindChanged := prior.Some? && isCompleted && prior.value.kind != kind;
      var transition := isCompleted && prior.None?;
      if slot in rows {
        rows := rows[slot := rows[slot].(status := isCompleted, value := value, kind := kind)];
      } else {
        rows := rows[slot := Row(nextId, isCompleted, value, kind, None)];
        nextId := nextId + 1;
      }
      assert Snapshot() == Record(old(Snapshot()), slot, habit, value, kind);
      var id := rows[slot].id;
      coinsDelta := 0;
      if !isCompleted {
        if prior.Some? {
          profile := AddExperience(profile, -XP_PER_COMPLETION);
          var reversed := ReverseCompletionRewards(slot.habit, prior.value.id, prior.value.kind);
          coinsDelta := coinsDelta - reversed;
        }
      } else {
        if kindChanged {
          var reversed := ReverseCompletionRewards(slot.habit, prior.value.id, prior.value.kind);
          coinsDelta := coinsDelta - reversed;
        }
        if transition {
          profile := AddExperience(profile, XP_PER_COMPLETION);
        }
        if transition || kindChanged {
          var total := AwardForCompletion(habit, slot, kind, id);
          coinsDelta := coinsDelta + total;
        }
      }
    }

    // ---- Daily plan --------------------------------------------------------------------------------

    /** A task became COMPLETED. */
    method CompleteTask(slot: Slot, task: TaskId) returns (error: Option<Error>, coinsDelta: int)
      modifies this
      ensures Did(old(Snapshot()), PlanComplete(old(Snapshot()), slot, task), error, coinsDelta)
    {
      if slot.habit !in habits {
        return Some(NotFound), 0;
      }
      if slot in rows && rows[slot].status {
        return None, 0;
      }
      var goal := habits[slot.habit].goal;
      if slot in rows {
        rows := rows[slot := rows[slot].(status := true, value := goal, task := Some(task))];
      } else {
        rows := rows[slot := Row(nextId, true, goal, Full, Some(task))];
        nextId := nextId + 1;
      }
      assert Snapshot() == PlanRecord(old(Snapshot()), slot, goal, task);
      var amount := CoinsPerCompletion(Full);
      var created := CreateAward(Entry(amount, Base(Full, rows[slot].id)));
      profile := AddExperience(profile, XP_PER_COMPLETION);
      return None, amount;
    }

    /** A task left COMPLETED, or was never in it. */
    method UncompleteTask(slot: Slot, task: TaskId, wasCompleted: bool) returns (error: Option<Error>, coinsDelta: int)
      modifies this
      ensures Did(old(Snapshot()), PlanUncomplete(old(Snapshot()), slot, task, wasCompleted), error, coinsDelta)
    {
      if slot.habit !in habits {
        return Some(NotFound), 0;
      }
      error, coinsDelta := None, 0;
      if wasCompleted && slot in rows && rows[slot].task == Some(task) {
        var sourced := rows[slot];
        var reversed := ReverseBaseAward(sourced.kind, sourced.id);
        coinsDelta := -reversed;
        rows := rows - {slot};
        profile := AddExperience(profile, -XP_PER_COMPLETION);
      }
    }

    /** A task's new status reaches its habit's completion. */
    method SyncCompletion(slot: Slot, task: TaskId, wasCompleted: bool, nowCompleted: bool)
      returns (error: Option<Error>, coinsDelta: int)
      modifies this
      ensures Did(old(Snapshot()),
                  if nowCompleted then PlanComplete(old(Snapshot()), slot, task)
                  else PlanUncomplete(old(Snapshot()), slot, task, wasCompleted), error, coinsDelta)
    {
      if nowCompleted {
        error, coinsDelta := CompleteTask(slot, task);
      } else {
        error, coinsDelta := UncompleteTask(slot, task, wasCompleted);
      }
    }

    method RemoveDailyPlanCompletion(slot: Slot, task: TaskId, refundXp: bool)
      returns (error: Option<Error>, coinsDelta: int)
      modifies this
      ensures Did(old(Snapshot()), PlanRemove(old(Snapshot()), slot, task, refundXp), error, coinsDelta)
    {
      error, coinsDelta := None, 0;
      if slot !in rows || rows[slot].task != Some(task) {
        return;
      }
      var completion := rows[slot];
      if completion.status {
        var reversed := ReverseBaseAward(completion.kind, completion.id);
        coinsDelta := -reversed;
      }
      rows := rows - {slot};
      if completion.status && refundXp {
        profile := AddExperience(profile, -XP_PER_COMPLETION);
      }
    }

    // ---- Spending --------------------------------------------------------------------------------------

    /** Debit first, check the balance after; an overdrawn transaction rolls its own writes back. */
    method RedeemItem(item: ItemId) returns (error: Option<Error>, delta: int)
      modifies this
      ensures Did(old(Snapshot()), Completions.RedeemItem(old(Snapshot()), item), error, delta)
    {
      if item !in catalog {
        return Some(NotFound), 0;
      }
      if !catalog[item].active {
        return Some(BadRequest), 0;
      }
      if item in owned {
        return Some(Conflict), 0;
      }
      var cost := catalog[item].cost;
      var before := Purse();
      entries := entries + [Entry(-cost, Source.Redemption(item))];
      coins := coins - cost;
      if coins < 0 {
        coins, entries := before.coins, before.entries;
        return Some(BadRequest), 0;
      }
      owned := owned + {item};
      return None, -cost;
    }

    method PurchaseFreeze(slot: Slot, today: Day) returns (error: Option<Error>, delta: int)
      modifies this
      ensures Did(old(Snapshot()), Completions.PurchaseFreeze(old(Snapshot()), slot, today), error, delta)
    {
      if slot.habit !in habits {
        return Some(NotFound), 0;
      }
      var habit := habits[slot.habit];
      if habit.archived {
        return Some(Conflict), 0;
      }
      if slot.day > today || !IsScheduled(habit.schedule, slot.day) {
        return Some(BadRequest), 0;
      }
      if slot in rows && rows[slot].status {
        return Some(Conflict), 0;
      }
      if slot in frozen {
        return Some(Conflict), 0;
      }
      var before := Purse();
      entries := entries + [Entry(-STREAK_FREEZE_COST, Source.Freeze(slot))];
      coins := coins - STREAK_FREEZE_COST;
      if coins < 0 {
        coins, entries := before.coins, before.entries;
        return Some(BadRequest), 0;
      }
      frozen := frozen + {slot};
      return None, -STREAK_FREEZE_COST;
    }

    // ---- Reconciliation -----------------------------------------------------------------------------------

    /** Read-only: consistent exactly when the cache equals the ledger's sum. */
    method ReconcileBalance() returns (ledgerBalance: int, cached: int, difference: int, consistent: bool)
      ensures ledgerBalance == Sum(entries) && cached == coins
      ensures difference == cached - ledgerBalance
      ensures consistent <==> coins == Sum(entries)
    {
      ledgerBalance := 0;
      for i := 0 to |entries|
        invariant ledgerBalance == Sum(entries[..i])
      {
        assert entries[..i + 1][..i] == entries[..i];
        ledgerBalance := ledgerBalance + entries[i].amount;
      }
      assert entries[..|entries|] == entries;
      cached := coins;
      difference := cached - ledgerBalance;
      consistent := difference == 0;
    }

    method RepairBalanceFromCache() returns (adjustedBy: int)
      modifies this`coins, this`entries
      ensures Snapshot() == Repair(old(Snapshot()))
      ensures adjustedBy == old(coins) - Sum(old(entries))
    {
      var ledgerBalance, cached, difference, consistent := ReconcileBalance();
      if difference == 0 {
        return 0;
      }
      entries := entries + [Entry(difference, Adjustment)];
      coins := ledgerBalance + difference;
      return difference;
    }
  }
}
