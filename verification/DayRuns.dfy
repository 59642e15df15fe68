/**
 * Any toggles on one day, with any values and kinds. Once a plain round has paid
 * what the day can earn, no further run on that day earns anything.
 */
module DayRuns {
  import opened Common
  import opened Streaks
  import opened Progression
  import opened Ledger
  import opened Completions
  import opened RewardLaws
  import opened BaseAwards
  import opened Milestones
  import opened Farming

  /** A rested day of a habit that pays for the full version, within the window. */
  ghost predicate Exhausted(s0: State, slot: Slot) {
    Rested(s0, slot) && Base0(s0, slot) > 0 && |CompletedDays(s0.rows, slot.habit)| < RECENT_WINDOW
  }

  /** Since `entries`, only base awards of newer rows were granted, and only newer entries reversed. */
  ghost predicate OwnEntries(entries: seq<Entry>, more: seq<Entry>, nextId: CompletionId) {
    && entries <= more
    && forall i :: |entries| <= i < |more| ==>
      || (more[i].source.Base? && more[i].source.completion >= nextId)
      || (more[i].source.Reversal? && more[i].source.original >= |entries|)
  }

  /** Only the row of the day differs, and it is newer than every other. */
  ghost predicate OnlyDay(s0: State, s: State, slot: Slot) {
    && slot !in s0.rows
    && s == s0.(rows := s.rows, nextId := s.nextId, wallet := s.wallet, profile := s.profile)
    && s.rows - {slot} == s0.rows
    && s0.nextId <= s.nextId && (slot in s.rows ==> s.rows[slot].id >= s0.nextId)
  }

  /** What a run confined to the day keeps. */
  ghost predicate Idle(s0: State, s: State, slot: Slot) {
    && OnlyDay(s0, s, slot) && Consistent(s)
    && OwnEntries(s0.wallet.entries, s.wallet.entries, s0.nextId)
  }

  // ---- The day offers nothing new ----------------------------------------------------------

  lemma DayCompleted(s0: State, rows: map<Slot, Row>, slot: Slot)
    requires slot !in s0.rows && rows - {slot} == s0.rows
    ensures CompletedDays(rows, slot.habit)
         == CompletedDays(s0.rows, slot.habit) + (if Done(rows, slot) then {slot.day} else {})
  {
    forall d
      ensures Done(rows, Slot(slot.habit, d)) <==>
        Done(s0.rows, Slot(slot.habit, d)) || (d == slot.day && Done(rows, slot))
    {
      var other := Slot(slot.habit, d);
      assert other == slot <==> d == slot.day;
      assert other != slot ==> (other in rows <==> other in rows - {slot});
    }
  }

  /** Within the window, what the engine reads grows with the day and never shrinks. */
  lemma DaySatisfied(s0: State, t: State, slot: Slot)
    requires slot !in s0.rows && t.rows - {slot} == s0.rows && t.frozen == s0.frozen
    requires |CompletedDays(s0.rows, slot.habit)| < RECENT_WINDOW
    ensures Satisfied(t, slot.habit) == Satisfied(s0, slot.habit) + (if Done(t.rows, slot) then {slot.day} else {})
  {
    var extra := if Done(t.rows, slot) then {slot.day} else {};
    DayCompleted(s0, t.rows, slot);
    SatisfiedGrows(s0, t, slot.habit, extra);
  }

  lemma SatisfiedGrows(s0: State, t: State, habit: HabitId, extra: set<Day>)
    requires CompletedDays(t.rows, habit) == CompletedDays(s0.rows, habit) + extra && t.frozen == s0.frozen
    requires |CompletedDays(s0.rows, habit)| < RECENT_WINDOW && |extra| <= 1
    ensures Satisfied(t, habit) == Satisfied(s0, habit) + extra
  {
    WindowHolds(CompletedDays(s0.rows, habit), extra);
  }

  /** Below the bound one more day fits the window too. */
  lemma WindowHolds(days: set<Day>, extra: set<Day>)
    requires |days| < RECENT_WINDOW && |extra| <= 1
    ensures Recent(days, RECENT_WINDOW) == days
    ensures Recent(days + extra, RECENT_WINDOW) == days + extra
  {
    assert |days + extra| == |days| + |extra - days| && |extra - days| <= |extra| by {
      assert days + extra == days + (extra - days);
      SubsetNotLarger(extra - days, extra);
    }
    RecentIsAll(days, RECENT_WINDOW);
    RecentIsAll(days + extra, RECENT_WINDOW);
  }

  /** A reduced version is worth no more evidence than the full one. */
  lemma FullIsMostEvidence(rows: map<Slot, Row>, slot: Slot, row: Row, full: Row, habits: set<HabitId>)
    requires slot !in rows && row.status && full.status && full.kind.Full?
    ensures EvidencePoints(rows[slot := row], habits) <= EvidencePoints(rows[slot := full], habits)
  {
    EvidenceAdds(rows, slot, row, habits, true);
    EvidenceAdds(rows, slot, row, habits, false);
    EvidenceAdds(rows, slot, full, habits, true);
    EvidenceAdds(rows, slot, full, habits, false);
  }

  /** One more completed row counts once, among the full or the reduced versions. */
  lemma EvidenceAdds(rows: map<Slot, Row>, slot: Slot, row: Row, habits: set<HabitId>, full: bool)
    requires slot !in rows && row.status
    ensures |EvidenceSlots(rows[slot := row], habits, full)|
         == |EvidenceSlots(rows, habits, full)| + (if slot.habit in habits && row.kind.Full? == full then 1 else 0)
  {
    var before, after := EvidenceSlots(rows, habits, full), EvidenceSlots(rows[slot := row], habits, full);
    forall k | k != slot
      ensures k in after <==> k in before
    {
    }
    assert slot !in before && (slot in after <==> slot.habit in habits && row.kind.Full? == full);
    assert after == if slot in after then before + {slot} else before;
  }

  lemma {:induction false} ThresholdsMonotone(id: IdentityId, p: nat, q: nat, ts: seq<nat>)
    requires p <= q
    ensures Sources(ThresholdOffers(id, p, ts)) <= Sources(ThresholdOffers(id, q, ts))
    decreases |ts|
  {
    if ts != [] {
      var e := Entry(IDENTITY_MILESTONE_BONUS, Source.Identity(id, ts[0]));
      ThresholdsMonotone(id, p, q, ts[1..]);
      SourcesConcat(if p < ts[0] then [] else [e], ThresholdOffers(id, p, ts[1..]));
      SourcesConcat(if q < ts[0] then [] else [e], ThresholdOffers(id, q, ts[1..]));
    }
  }

  /** The offers of one identity. */
  function OffersOfOne(rows: map<Slot, Row>, habit: HabitId, identity: Identity): seq<Entry> {
    if identity.active && habit in identity.habits
    then ThresholdOffers(identity.id, EvidencePoints(rows, identity.habits), IDENTITY_THRESHOLDS)
    else []
  }

  lemma {:induction false} IdentitiesMonotone(rows: map<Slot, Row>, slot: Slot, row: Row, full: Row, ids: seq<Identity>)
    requires slot !in rows && row.status && full.status && full.kind.Full?
    ensures Sources(IdentityOffers(rows[slot := row], slot.habit, ids))
         <= Sources(IdentityOffers(rows[slot := full], slot.habit, ids))
    decreases |ids|
  {
    if ids != [] {
      var mine, best := rows[slot := row], rows[slot := full];
      IdentitiesMonotone(rows, slot, row, full, ids[1..]);
      FullIsMostEvidence(rows, slot, row, full, ids[0].habits);
      ThresholdsMonotone(ids[0].id, EvidencePoints(mine, ids[0].habits), EvidencePoints(best, ids[0].habits),
                         IDENTITY_THRESHOLDS);
      SourcesConcat(OffersOfOne(mine, slot.habit, ids[0]), IdentityOffers(mine, slot.habit, ids[1..]));
      SourcesConcat(OffersOfOne(best, slot.habit, ids[0]), IdentityOffers(best, slot.habit, ids[1..]));
    }
  }

  /** The completed day offers the streak bonuses of the plain round, if any. */
  lemma StreaksTaken(s0: State, t: State, slot: Slot, base: int)
    requires Exhausted(s0, slot) && Done(t.rows, slot) && t.rows - {slot} == s0.rows && t.frozen == s0.frozen
    ensures Sources(StreakOffersOf(t, s0.habits[slot.habit], slot, base)) <= Sources(s0.wallet.entries)
  {
    var full := OnRecord(s0, slot);
    assert full.rows - {slot} == s0.rows;
    DaySatisfied(s0, t, slot);
    DaySatisfied(s0, full, slot);
    assert Satisfied(t, slot.habit) == Satisfied(full, slot.habit);
  }

  /** And no identity bonus beyond those of the full version. */
  lemma IdentitiesTaken(s0: State, t: State, slot: Slot, base: int)
    requires Exhausted(s0, slot) && Done(t.rows, slot) && t.rows - {slot} == s0.rows
    requires t.identities == s0.identities
    ensures Sources(IdentityOffersOf(t, s0.habits[slot.habit], slot, base)) <= Sources(s0.wallet.entries)
  {
    IdentitiesWithin(s0, t, slot, base);
  }

  lemma IdentitiesWithin(s0: State, t: State, slot: Slot, base: int)
    requires CanFarm(s0, slot) && Base0(s0, slot) > 0 && Done(t.rows, slot) && t.rows - {slot} == s0.rows
    requires t.identities == s0.identities
    ensures Sources(IdentityOffersOf(t, s0.habits[slot.habit], slot, base)) <= Sources(IdentitiesOnOffer(s0, slot))
  {
    var full := OnRecord(s0, slot);
    IdentitiesMonotone(s0.rows, slot, t.rows[slot], full.rows[slot], s0.identities);
    assert s0.rows[slot := t.rows[slot]] == t.rows;
  }

  // ---- Awards and reversals on the day ---------------------------------------------------------

  lemma AwardIsBase(s0: State, t: State, slot: Slot, kind: Kind, id: CompletionId)
    requires Exhausted(s0, slot) && Done(t.rows, slot) && t.rows - {slot} == s0.rows
    requires t.frozen == s0.frozen && t.identities == s0.identities
    requires s0.wallet.entries <= t.wallet.entries
    ensures var habit := s0.habits[slot.habit];
      Award(t, habit, slot, kind, id) == PostBase(t.wallet, kind, id, BaseCoins(habit, kind))
  {
    var habit := s0.habits[slot.habit];
    var base := BaseCoins(habit, kind);
    var w := PostBase(t.wallet, kind, id, base);
    StreaksTaken(s0, t, slot, base);
    IdentitiesTaken(s0, t, slot, base);
    SourcesPrefix(s0.wallet.entries, w.entries);
    ClaimAllTaken(w, StreakOffersOf(t, habit, slot, base));
    ClaimAllTaken(w, IdentityOffersOf(t, habit, slot, base));
  }

  lemma {:induction false} NothingBroken(w: Wallet, habit: HabitId, days: set<Day>, k: nat)
    requires k <= |w.entries|
    requires forall i: nat :: i < k && Broken(w.entries[i], habit, days) ==> Reversed(w.entries, i)
    ensures ReverseBroken(w, habit, days, k) == w
    decreases k
  {
    if k > 0 {
      NothingBroken(w, habit, days, k - 1);
    }
  }

  /** The streak bonuses of the habit are all older than the run and covered without the day. */
  lemma StandingCovered(s0: State, more: seq<Entry>, habit: HabitId, days: set<Day>, i: nat)
    requires Intact(s0.wallet.entries, habit, Satisfied(s0, habit)) && Satisfied(s0, habit) <= days
    requires OwnEntries(s0.wallet.entries, more, s0.nextId) && i < |more| && Broken(more[i], habit, days)
    ensures Reversed(more, i)
  {
    SourcesPrefix(s0.wallet.entries, more);
    assert i < |s0.wallet.entries| && more[i] == s0.wallet.entries[i];
  }

  /** Withdrawing the day's row reverses at most its own base award. */
  lemma WithdrawOwn(s0: State, t: State, slot: Slot, kind: Kind, id: CompletionId)
    requires Exhausted(s0, slot) && OnlyDay(s0, t, slot) && Sound(t.wallet) && id >= s0.nextId
    requires OwnEntries(s0.wallet.entries, t.wallet.entries, s0.nextId)
    ensures ReverseCompletion(t, slot.habit, kind, id) == ReverseLatest(t.wallet, Base(kind, id))
    ensures OwnEntries(s0.wallet.entries, ReverseCompletion(t, slot.habit, kind, id).entries, s0.nextId)
  {
    var entries := s0.wallet.entries;
    var w := ReverseLatest(t.wallet, Base(kind, id));
    var latest := Latest(t.wallet.entries, Base(kind, id));
    assert latest.Some? ==> latest.value >= |entries|;
    assert OwnEntries(entries, w.entries, s0.nextId);
    DaySatisfied(s0, t, slot);
    forall i: nat | i < |w.entries| && Broken(w.entries[i], slot.habit, Satisfied(t, slot.habit))
      ensures Reversed(w.entries, i)
    {
      StandingCovered(s0, w.entries, slot.habit, Satisfied(t, slot.habit), i);
    }
    NothingBroken(w, slot.habit, Satisfied(t, slot.habit), |w.entries|);
  }

  // ---- Steps -----------------------------------------------------------------------------------

  lemma OffOwn(s0: State, s: State, slot: Slot)
    requires Exhausted(s0, slot) && Idle(s0, s, slot) && slot in s.rows
    ensures OnlyDay(s0, ToggleOff(s, slot), slot)
    ensures OwnEntries(s0.wallet.entries, ToggleOff(s, slot).wallet.entries, s0.nextId)
  {
    if s.rows[slot].status {
      WithdrawOwn(s0, s.(rows := s.rows - {slot}), slot, s.rows[slot].kind, s.rows[slot].id);
    }
  }

  lemma RecordOnlyDay(s0: State, s: State, slot: Slot, habit: Habit, value: real, kind: Kind)
    requires Idle(s0, s, slot)
    ensures var t := Record(s, slot, habit, value, kind);
      && OnlyDay(s0, t, slot) && slot in t.rows && t.wallet == s.wallet
      && Done(t.rows, slot) == Succeeds(habit, value, kind)
      && (slot in s.rows ==> t.rows[slot].id == s.rows[slot].id)
  {
    var t := Record(s, slot, habit, value, kind);
    assert t.rows - {slot} == s.rows - {slot};
  }

  lemma AwardOwn(s0: State, t: State, slot: Slot, kind: Kind, id: CompletionId)
    requires Exhausted(s0, slot) && OnlyDay(s0, t, slot) && Done(t.rows, slot) && id >= s0.nextId
    requires OwnEntries(s0.wallet.entries, t.wallet.entries, s0.nextId)
    ensures OwnEntries(s0.wallet.entries, Award(t, s0.habits[slot.habit], slot, kind, id).entries, s0.nextId)
  {
    AwardIsBase(s0, t, slot, kind, id);
  }

  lemma LogOwn(s0: State, s: State, slot: Slot, value: real, kind: Kind)
    requires Exhausted(s0, slot) && Idle(s0, s, slot)
    ensures var u := Log(s, slot, s0.habits[slot.habit], value, kind);
      OnlyDay(s0, u, slot) && OwnEntries(s0.wallet.entries, u.wallet.entries, s0.nextId)
  {
    var habit := s0.habits[slot.habit];
    var t := Record(s, slot, habit, value, kind);
    var id := t.rows[slot].id;
    RecordOnlyDay(s0, s, slot, habit, value, kind);
    if !Succeeds(habit, value, kind) {
      if Done(s.rows, slot) {
        WithdrawOwn(s0, t, slot, s.rows[slot].kind, id);
      }
    } else if !Done(s.rows, slot) {
      AwardOwn(s0, t, slot, kind, id);
    } else if s.rows[slot].kind != kind {
      WithdrawOwn(s0, t, slot, s.rows[slot].kind, id);
      AwardOwn(s0, t.(wallet := ReverseCompletion(t, slot.habit, s.rows[slot].kind, id)), slot, kind, id);
    }
  }

  lemma ToggleIdle(s0: State, s: State, op: Op, slot: Slot)
    requires Exhausted(s0, slot) && Idle(s0, s, slot) && op.DoToggle? && op.slot == slot
    ensures Idle(s0, Step(s, op), slot)
  {
    StepKeepsConsistent(s, op);
    if Toggle(s, slot, op.value, op.kind).Accepted? {
      if slot in s.rows && op.value.None? && op.kind.None? {
        OffOwn(s0, s, slot);
      } else {
        LogOwn(s0, s, slot, op.value.GetOr(s0.habits[slot.habit].goal), op.kind.GetOr(Full));
      }
    }
  }

  lemma {:induction false} RunIdle(s0: State, s: State, ops: seq<Op>, slot: Slot)
    requires Exhausted(s0, slot) && Idle(s0, s, slot)
    requires forall op :: op in ops ==> op.DoToggle? && op.slot == slot
    ensures Idle(s0, RunOps(s, ops), slot)
    decreases |ops|
  {
    if ops != [] {
      assert ops[0] in ops;
      ToggleIdle(s0, s, ops[0], slot);
      RunIdle(s0, Step(s, ops[0]), ops[1..], slot);
    }
  }

  // ---- The balance ---------------------------------------------------------------------------

  /** While the day is not done, nothing the run wrote counts. */
  lemma OwnEntriesAreDead(s0: State, s: State, slot: Slot, i: nat)
    requires Idle(s0, s, slot) && IdsFresh(s0.rows, s0.nextId) && !Done(s.rows, slot)
    requires |s0.wallet.entries| <= i < |s.wallet.entries|
    ensures !Counts(s.wallet.entries, i)
  {
    var e := s.wallet.entries[i];
    forall other | Done(s.rows, other)
      ensures s.rows[other].id < s0.nextId
    {
      assert other in s.rows - {slot} && s.rows[other] == s0.rows[other];
    }
    assert e.source.Base? ==> !Rewarded(s.rows, e.source.kind, e.source.completion);
  }

  lemma OldEntriesAsBefore(s0: State, s: State, slot: Slot, i: nat)
    requires Idle(s0, s, slot) && i < |s0.wallet.entries|
    ensures Reversed(s.wallet.entries, i) <==> Reversed(s0.wallet.entries, i)
  {
    SourcesPrefix(s0.wallet.entries, s.wallet.entries);
    if Reversed(s.wallet.entries, i) {
      var j := SourceHasIndex(s.wallet.entries, Reversal(i));
      SourceAt(s0.wallet.entries, if j < |s0.wallet.entries| then j else 0);
    }
  }

  lemma IdleBalance(s0: State, s: State, slot: Slot)
    requires Consistent(s0) && Idle(s0, s, slot) && !Done(s.rows, slot)
    ensures s.wallet.coins == s0.wallet.coins
  {
    var before, after := s0.wallet.entries, s.wallet.entries;
    var n := |before|;
    forall i: nat | i < n
      ensures Reversed(before, i) <==> Reversed(after, i)
    {
      OldEntriesAsBefore(s0, s, slot, i);
    }
    forall i: nat | n <= i < |after|
      ensures !Counts(after, i)
    {
      OwnEntriesAreDead(s0, s, slot, i);
    }
    SumIsLive(before);
    SumIsLive(after);
    LiveSumSame(before, after, 0, n);
    LiveSumSplit(after, 0, n, |after|);
    DeadSegment(after, n, |after|);
  }

  lemma {:induction false} RunFromExhausted(s0: State, ops: seq<Op>, slot: Slot)
    requires Exhausted(s0, slot)
    requires forall op :: op in ops ==> op.DoToggle? && op.slot == slot
    ensures var s := RunOps(s0, ops);
      !Done(s.rows, slot) ==> s.wallet.coins == s0.wallet.coins && s.rows - {slot} == s0.rows
  {
    assert s0.rows - {slot} == s0.rows;
    RunIdle(s0, s0, ops, slot);
    if !Done(RunOps(s0, ops).rows, slot) {
      IdleBalance(s0, RunOps(s0, ops), slot);
    }
  }

  /**
   * The main result. Toggle an absent day of a paying habit on and off once;
   * then any run of toggles on that day, whatever their values and kinds, that
   * leaves the day undone leaves the balance of that one round.
   */
  lemma AnyRunIsFree(s: State, ops: seq<Op>, slot: Slot)
    requires CanFarm(s, slot) && Consistent(s) && Base0(s, slot) > 0
    requires |CompletedDays(s.rows, slot.habit)| < RECENT_WINDOW
    requires forall op :: op in ops ==> op.DoToggle? && op.slot == slot
    ensures var t := OnOff(s, slot); var u := RunOps(t, ops);
      && t.rows == s.rows
      && (!Done(u.rows, slot) ==> u.wallet.coins == t.wallet.coins && u.rows - {slot} == s.rows)
  {
    RoundRests(s, slot);
    OnOffShape(s, slot);
    RunFromExhausted(OnOff(s, slot), ops, slot);
  }
}
