/**
 * What one call answers, told from its inputs and stored fields alone: the row a
 * toggle leaves, what it pays, which bonuses an award claims, and what the daily
 * plan writes. Amounts and thresholds are written out.
 */
module CompletionAnswers {
  import opened Common
  import opened Streaks
  import Schedule
  import opened Progression
  import opened Ledger
  import opened Completions
  import opened RewardLaws
  import opened BaseAwards
  import opened Milestones

  // ---- The row a toggle leaves ----------------------------------------------------

  /** Which error a toggle answers, if any. */
  lemma ToggleRejects(s: State, slot: Slot, value: Option<real>, kind: Option<Kind>)
    ensures var known := slot.habit in s.habits;
      var unconfigured := known && ((kind == Some(Minimum) && !s.habits[slot.habit].hasMinimum)
                                    || (kind == Some(Emergency) && !s.habits[slot.habit].hasEmergency));
      && (Toggle(s, slot, value, kind) == Rejected(NotFound) <==> !known)
      && (Toggle(s, slot, value, kind) == Rejected(BadRequest) <==> unconfigured)
      && (Toggle(s, slot, value, kind) == Rejected(Conflict) <==>
          known && !unconfigured && slot !in s.rows && s.habits[slot.habit].archived)
      && (Toggle(s, slot, value, kind).Accepted? <==>
          known && !unconfigured && (slot in s.rows || !s.habits[slot.habit].archived))
  {
  }

  /** The row is stored as given, under its old id and task or a new id. */
  predicate Stores(s: State, t: State, slot: Slot, goal: real, value: real, kind: Kind) {
    && slot in t.rows
    && t.rows[slot].kind == kind && t.rows[slot].value == value
    && (t.rows[slot].status <==> kind != Full || value >= goal)
    && (slot in s.rows ==>
        t.rows[slot].id == s.rows[slot].id && t.rows[slot].task == s.rows[slot].task && t.nextId == s.nextId)
    && (slot !in s.rows ==> t.rows[slot].id == s.nextId && t.rows[slot].task == None && t.nextId == s.nextId + 1)
  }

  /** Ten experience points come with a completed day and go with it; no freeze, item or setting moves. */
  predicate Moves(s: State, t: State, was: bool, now: bool) {
    && t.profile == (if now && !was then AddXp(s.profile, 10)
                     else if was && !now then AddXp(s.profile, -10)
                     else s.profile)
    && t.frozen == s.frozen && t.owned == s.owned
    && t.habits == s.habits && t.identities == s.identities && t.catalog == s.catalog
  }

  lemma LogAnswers(s: State, slot: Slot, habit: Habit, value: real, kind: Kind)
    ensures var t := Log(s, slot, habit, value, kind);
      && t.rows - {slot} == s.rows - {slot} && Stores(s, t, slot, habit.goal, value, kind)
      && Moves(s, t, Done(s.rows, slot), kind != Full || value >= habit.goal)
  {
    RecordAnswers(s, slot, habit, value, kind);
  }

  lemma RecordAnswers(s: State, slot: Slot, habit: Habit, value: real, kind: Kind)
    ensures var t := Record(s, slot, habit, value, kind);
      && t == s.(rows := t.rows, nextId := t.nextId)
      && t.rows - {slot} == s.rows - {slot} && Stores(s, t, slot, habit.goal, value, kind)
  {
  }

  lemma OffAnswers(s: State, slot: Slot)
    requires slot in s.rows
    ensures var t := ToggleOff(s, slot);
      && t.rows == s.rows - {slot} && t.nextId == s.nextId && Moves(s, t, Done(s.rows, slot), false)
  {
  }

  /**
   * An accepted toggle removes the row, or stores the kind and value given, done
   * exactly when the kind is reduced or the value reaches the goal. No other row
   * moves, and the call reports its coin change.
   */
  lemma ToggleAnswers(s: State, slot: Slot, value: Option<real>, kind: Option<Kind>)
    requires Toggle(s, slot, value, kind).Accepted?
    ensures var r := Toggle(s, slot, value, kind);
      var goal := s.habits[slot.habit].goal;
      var v, k := if value.Some? then value.value else goal, if kind.Some? then kind.value else Full;
      && r.state.rows - {slot} == s.rows - {slot}
      && r.delta == r.state.wallet.coins - s.wallet.coins
      && (if slot in s.rows && value == None && kind == None
          then slot !in r.state.rows && r.state.nextId == s.nextId && Moves(s, r.state, s.rows[slot].status, false)
          else Stores(s, r.state, slot, goal, v, k)
               && Moves(s, r.state, slot in s.rows && s.rows[slot].status, k != Full || v >= goal))
  {
    var habit := s.habits[slot.habit];
    if slot in s.rows && value == None && kind == None {
      OffAnswers(s, slot);
    } else {
      LogAnswers(s, slot, habit, value.GetOr(habit.goal), kind.GetOr(Full));
    }
  }

  // ---- Base coins --------------------------------------------------------------------

  /** 10, 3 and 2 coins unless the habit sets its own amount; a negative one counts as none. */
  predicate Pays(habit: Habit, kind: Kind, coins: int) {
    match kind
    case Full => if habit.fullCoins.None? then coins == 10 else coins == Max(0, habit.fullCoins.value)
    case Minimum => if habit.minimumCoins.None? then coins == 3 else coins == Max(0, habit.minimumCoins.value)
    case Emergency => if habit.emergencyCoins.None? then coins == 2 else coins == Max(0, habit.emergencyCoins.value)
  }

  lemma BaseCoinsPay(habit: Habit, kind: Kind, coins: int)
    ensures BaseCoins(habit, kind) == coins <==> Pays(habit, kind, coins)
  {
  }

  /** The ledger gained a standing base award of this amount, or needed none. */
  ghost predicate Granted(before: seq<Entry>, after: seq<Entry>, kind: Kind, id: CompletionId, coins: int) {
    && (coins > 0 ==> exists i: nat ::
         i >= |before| && Live(after, i, Base(kind, id)) && after[i].amount == coins)
    && (coins == 0 ==> forall i :: |before| <= i < |after| ==> !after[i].source.Base?)
  }

  lemma AwardGrants(s: State, habit: Habit, slot: Slot, kind: Kind, id: CompletionId, coins: int)
    requires Sound(s.wallet) && Pays(habit, kind, coins)
    ensures s.wallet.entries <= Award(s, habit, slot, kind, id).entries
    ensures Granted(s.wallet.entries, Award(s, habit, slot, kind, id).entries, kind, id, coins)
  {
    var w, n := Award(s, habit, slot, kind, id), |s.wallet.entries|;
    BaseCoinsPay(habit, kind, coins);
    AwardFocused(s, habit, slot, kind, id);
    if coins > 0 {
      NotYetReversed(s.wallet);
      assert w.entries[n] == PostBase(s.wallet, kind, id, coins).entries[n];
      assert Live(w.entries, n, Base(kind, id)) && w.entries[n].amount == coins;
    } else {
      AwardZero(s, habit, slot, kind, id);
    }
  }

  lemma ReverseCompletionIsSound(s: State, habit: HabitId, kind: Kind, id: CompletionId)
    requires Sound(s.wallet)
    ensures Sound(ReverseCompletion(s, habit, kind, id))
    ensures OnlyReversals(s.wallet.entries, ReverseCompletion(s, habit, kind, id).entries)
  {
    var w := ReverseLatest(s.wallet, Base(kind, id));
    ReverseLatestExact(s.wallet, Base(kind, id));
    ReverseBrokenKeepsSound(w, habit, Satisfied(s, habit), |w.entries|);
    ReverseCompletionExtends(s, habit, kind, id);
  }

  // ---- Streak bonuses -------------------------------------------------------------------

  /** The bonus of each milestone. */
  predicate Worth(milestone: nat, coins: int) {
    || (milestone == 3 && coins == 5) || (milestone == 7 && coins == 25) || (milestone == 14 && coins == 50)
    || (milestone == 30 && coins == 100) || (milestone == 60 && coins == 250) || (milestone == 100 && coins == 500)
  }

  predicate Milestone(m: nat) { m == 3 || m == 7 || m == 14 || m == 30 || m == 60 || m == 100 }

  ghost predicate AscendingMilestones(ms: seq<nat>) { forall i, j :: 0 <= i < j < |ms| ==> ms[i] <= ms[j] }

  /** Every reached milestone of an ascending list is offered. */
  lemma {:induction false} StreakOffersComplete(habit: HabitId, streak: nat, start: Day, ms: seq<nat>, k: nat)
    requires AscendingMilestones(ms) && k < |ms| && ms[k] <= streak
    ensures Source.Streak(habit, ms[k], start) in Sources(StreakOffers(habit, streak, start, ms))
    decreases |ms|
  {
    var rest := StreakOffers(habit, streak, start, ms[1..]);
    var first := Entry(MilestoneBonus(ms[0]), Source.Streak(habit, ms[0], start));
    assert ms[0] <= ms[k];
    SourcesConcat([first], rest);
    assert Sources([first]) == {first.source};
    if k > 0 {
      StreakOffersComplete(habit, streak, start, ms[1..], k - 1);
    }
  }

  lemma {:induction false} StreakOffersWorth(habit: HabitId, streak: nat, start: Day, ms: seq<nat>)
    requires forall m :: m in ms ==> Milestone(m)
    ensures forall o :: o in StreakOffers(habit, streak, start, ms) ==>
      && o.source.Streak? && o.source.habit == habit && o.source.cycleStart == start
      && o.source.milestone <= streak && Worth(o.source.milestone, o.amount)
    decreases |ms|
  {
    if ms != [] && streak >= ms[0] {
      assert ms[0] in ms;
      StreakOffersWorth(habit, streak, start, ms[1..]);
    }
  }

  lemma MilestoneOffered(habit: HabitId, streak: nat, start: Day, m: nat)
    requires Milestone(m) && m <= streak
    ensures Source.Streak(habit, m, start) in Sources(StreakOffers(habit, streak, start, STREAK_MILESTONES))
  {
    assert m in [3, 7, 14, 30, 60, 100] && [3, 7, 14, 30, 60, 100] == STREAK_MILESTONES;
    var k: nat :| k < |STREAK_MILESTONES| && STREAK_MILESTONES[k] == m;
    StreakOffersComplete(habit, streak, start, STREAK_MILESTONES, k);
  }

  lemma TwoClaims(w: Wallet, a: seq<Entry>, b: seq<Entry>)
    ensures var after := ClaimAll(ClaimAll(w, a), b).entries;
      && w.entries <= after && Sources(a) <= Sources(after) && Sources(b) <= Sources(after)
      && forall i :: |w.entries| <= i < |after| ==> after[i] in a || after[i] in b
  {
    var v := ClaimAll(w, a);
    var after := ClaimAll(v, b).entries;
    ClaimAllExact(w, a);
    ClaimAllExact(v, b);
    forall i | |w.entries| <= i < |after|
      ensures after[i] in a || after[i] in b
    {
      assert i < |v.entries| ==> after[i] == v.entries[i];
    }
  }

  /** Every new row is a base award or one of the offers. */
  ghost predicate OnlyOffers(before: seq<Entry>, after: seq<Entry>, a: seq<Entry>, b: seq<Entry>) {
    before <= after
    && forall i :: |before| <= i < |after| ==> after[i].source.Base? || after[i] in a || after[i] in b
  }

  lemma OffersAfterBase(before: seq<Entry>, mid: seq<Entry>, after: seq<Entry>, a: seq<Entry>, b: seq<Entry>)
    requires mid == before || (exists e: Entry :: e.source.Base? && mid == before + [e])
    requires mid <= after && forall i :: |mid| <= i < |after| ==> after[i] in a || after[i] in b
    ensures OnlyOffers(before, after, a, b)
  {
    forall i | |before| <= i < |after|
      ensures after[i].source.Base? || after[i] in a || after[i] in b
    {
      if i < |mid| {
        assert after[i] == mid[i];
      }
    }
  }

  lemma PostBaseAdds(w: Wallet, kind: Kind, id: CompletionId, base: int)
    ensures var mid := PostBase(w, kind, id, base).entries;
      mid == w.entries || exists e: Entry :: e.source.Base? && mid == w.entries + [e]
  {
    if base > 0 {
      var e := Entry(base, Base(kind, id));
      assert e.source.Base? && PostBase(w, kind, id, base).entries == w.entries + [e];
    }
  }

  /** After an award every offer of either kind is in the ledger, and every new bonus was offered. */
  lemma AwardClaims(s: State, habit: Habit, slot: Slot, kind: Kind, id: CompletionId)
    ensures var base := BaseCoins(habit, kind);
      var streaks, identities := StreakOffersOf(s, habit, slot, base), IdentityOffersOf(s, habit, slot, base);
      var after := Award(s, habit, slot, kind, id).entries;
      && Sources(streaks) <= Sources(after) && Sources(identities) <= Sources(after)
      && OnlyOffers(s.wallet.entries, after, streaks, identities)
  {
    var base := BaseCoins(habit, kind);
    var streaks, identities := StreakOffersOf(s, habit, slot, base), IdentityOffersOf(s, habit, slot, base);
    ClaimsAfterBase(s.wallet, kind, id, base, streaks, identities);
  }

  lemma ClaimsAfterBase(w: Wallet, kind: Kind, id: CompletionId, base: int, a: seq<Entry>, b: seq<Entry>)
    ensures var after := ClaimAll(ClaimAll(PostBase(w, kind, id, base), a), b).entries;
      Sources(a) <= Sources(after) && Sources(b) <= Sources(after) && OnlyOffers(w.entries, after, a, b)
  {
    var mid := PostBase(w, kind, id, base);
    TwoClaims(mid, a, b);
    PostBaseAdds(w, kind, id, base);
    OffersAfterBase(w.entries, mid.entries, ClaimAll(ClaimAll(mid, a), b).entries, a, b);
  }

  /** Every milestone the streak has reached is in the ledger; new streak rows are for those alone, at their worth. */
  ghost predicate StreaksPaid(
    s: State, habit: Habit, slot: Slot, coins: int, before: seq<Entry>, after: seq<Entry>)
  {
    var days := Satisfied(s, slot.habit);
    var streak, start := CurrentStreak(days, slot.day), CycleStart(days, slot.day);
    && (habit.streakBonus && coins > 0 ==> forall m: nat :: Milestone(m) && m <= streak ==>
         HasSource(after, Source.Streak(slot.habit, m, start)))
    && forall i :: |before| <= i < |after| && after[i].source.Streak? ==>
         && habit.streakBonus && coins > 0
         && after[i].source.habit == slot.habit && after[i].source.cycleStart == start
         && after[i].source.milestone <= streak && Worth(after[i].source.milestone, after[i].amount)
  }

  /**
   * A paying award of a habit with streak bonuses leaves every milestone the
   * streak has reached in the ledger, adds no other streak row, and pays 5, 25,
   * 50, 100, 250 and 500 coins for them.
   */
  lemma AwardPaysMilestones(s: State, habit: Habit, slot: Slot, kind: Kind, id: CompletionId, coins: int)
    requires Pays(habit, kind, coins)
    ensures StreaksPaid(s, habit, slot, coins, s.wallet.entries, Award(s, habit, slot, kind, id).entries)
  {
    var days := Satisfied(s, slot.habit);
    var streak, start := CurrentStreak(days, slot.day), CycleStart(days, slot.day);
    var after := Award(s, habit, slot, kind, id).entries;
    BaseCoinsPay(habit, kind, coins);
    AwardClaims(s, habit, slot, kind, id);
    StreakOffersWorth(slot.habit, streak, start, STREAK_MILESTONES);
    IdentityOffersKeyed(s.rows, slot.habit, s.identities);
    if habit.streakBonus && coins > 0 {
      forall m: nat | Milestone(m) && m <= streak
        ensures HasSource(after, Source.Streak(slot.habit, m, start))
      {
        MilestoneOffered(slot.habit, streak, start, m);
      }
    }
  }

  /**
   * The same told from days: with at most 400 completed days, if exactly the last
   * `n` days are completed or frozen, every milestone up to `n` has been paid.
   */
  lemma ReachedMilestoneIsPaid(
    s: State, habit: Habit, slot: Slot, kind: Kind, id: CompletionId, coins: int, n: nat, m: nat)
    requires Pays(habit, kind, coins) && coins > 0 && habit.streakBonus
    requires |CompletedDays(s.rows, slot.habit)| <= 400 && n <= 3651
    requires forall d :: slot.day - n < d <= slot.day ==>
      Done(s.rows, Slot(slot.habit, d)) || Slot(slot.habit, d) in s.frozen
    requires !Done(s.rows, Slot(slot.habit, slot.day - n)) && Slot(slot.habit, slot.day - n) !in s.frozen
    requires Milestone(m) && m <= n
    ensures HasSource(Award(s, habit, slot, kind, id).entries, Source.Streak(slot.habit, m, slot.day - n + 1))
  {
    var days := Satisfied(s, slot.habit);
    RecentIsAll(CompletedDays(s.rows, slot.habit), RECENT_WINDOW);
    assert Block(days, slot.day - n + 1, n);
    RunUnique(days, slot.day, n);
    AwardPaysMilestones(s, habit, slot, kind, id, coins);
  }

  // ---- Identity bonuses -------------------------------------------------------------------

  predicate IdentityLevel(t: nat) { t == 15 || t == 50 || t == 125 || t == 250 }

  /** Two points for each full completion of the habits, one for each reduced one. */
  function Points(rows: map<Slot, Row>, habits: set<HabitId>): nat {
    var completed := set slot | slot in rows.Keys && slot.habit in habits && rows[slot].status;
    var full := set slot | slot in completed && rows[slot].kind == Full;
    |completed| + |full|
  }

  lemma EvidenceIsPoints(rows: map<Slot, Row>, habits: set<HabitId>)
    ensures EvidencePoints(rows, habits) == Points(rows, habits)
  {
    var completed := set slot | slot in rows.Keys && slot.habit in habits && rows[slot].status;
    var full := set slot | slot in completed && rows[slot].kind == Full;
    assert EvidenceSlots(rows, habits, true) == full;
    assert EvidenceSlots(rows, habits, false) == completed - full;
  }

  lemma {:induction false} ThresholdsComplete(id: IdentityId, points: nat, ts: seq<nat>, k: nat)
    requires k < |ts| && ts[k] <= points
    ensures Source.Identity(id, ts[k]) in Sources(ThresholdOffers(id, points, ts))
    decreases |ts|
  {
    var first := Entry(IDENTITY_MILESTONE_BONUS, Source.Identity(id, ts[0]));
    SourcesConcat(if points < ts[0] then [] else [first], ThresholdOffers(id, points, ts[1..]));
    assert Sources([first]) == {first.source};
    if k > 0 {
      ThresholdsComplete(id, points, ts[1..], k - 1);
    }
  }

  lemma LevelOffered(id: IdentityId, points: nat, t: nat)
    requires IdentityLevel(t) && t <= points
    ensures Source.Identity(id, t) in Sources(ThresholdOffers(id, points, IDENTITY_THRESHOLDS))
  {
    assert t in [15, 50, 125, 250] && [15, 50, 125, 250] == IDENTITY_THRESHOLDS;
    var k: nat :| k < |IDENTITY_THRESHOLDS| && IDENTITY_THRESHOLDS[k] == t;
    ThresholdsComplete(id, points, IDENTITY_THRESHOLDS, k);
  }

  lemma {:induction false} ThresholdsOnly(id: IdentityId, points: nat, ts: seq<nat>)
    requires forall t :: t in ts ==> IdentityLevel(t)
    ensures forall o :: o in ThresholdOffers(id, points, ts) ==>
      o.amount == 20 && o.source.Identity? && o.source.identity == id
      && IdentityLevel(o.source.threshold) && o.source.threshold <= points
    decreases |ts|
  {
    if ts != [] {
      assert ts[0] in ts;
      ThresholdsOnly(id, points, ts[1..]);
    }
  }

  /** An active identity the habit feeds, with the points of a level. */
  predicate Earned(s: State, habit: HabitId, identity: Identity, t: nat) {
    && identity in s.identities && identity.active && habit in identity.habits
    && IdentityLevel(t) && t <= Points(s.rows, identity.habits)
  }

  function OneIdentity(rows: map<Slot, Row>, habit: HabitId, identity: Identity): seq<Entry> {
    if identity.active && habit in identity.habits
    then ThresholdOffers(identity.id, EvidencePoints(rows, identity.habits), IDENTITY_THRESHOLDS)
    else []
  }

  lemma {:induction false} IdentityOffersComplete(s: State, habit: HabitId, ids: seq<Identity>, k: nat, t: nat)
    requires k < |ids| && Earned(s, habit, ids[k], t)
    ensures Source.Identity(ids[k].id, t) in Sources(IdentityOffers(s.rows, habit, ids))
    decreases |ids|
  {
    SourcesConcat(OneIdentity(s.rows, habit, ids[0]), IdentityOffers(s.rows, habit, ids[1..]));
    if k == 0 {
      EvidenceIsPoints(s.rows, ids[0].habits);
      LevelOffered(ids[0].id, EvidencePoints(s.rows, ids[0].habits), t);
    } else {
      IdentityOffersComplete(s, habit, ids[1..], k - 1, t);
    }
  }

  lemma {:induction false} IdentityOffersOnly(s: State, habit: HabitId, ids: seq<Identity>, o: Entry)
    requires o in IdentityOffers(s.rows, habit, ids) && forall i :: i in ids ==> i in s.identities
    ensures o.amount == 20 && o.source.Identity?
    ensures exists i :: i in ids && i.id == o.source.identity && Earned(s, habit, i, o.source.threshold)
    decreases |ids|
  {
    if o in OneIdentity(s.rows, habit, ids[0]) {
      EvidenceIsPoints(s.rows, ids[0].habits);
      ThresholdsOnly(ids[0].id, EvidencePoints(s.rows, ids[0].habits), IDENTITY_THRESHOLDS);
      assert ids[0] in ids;
    } else {
      IdentityOffersOnly(s, habit, ids[1..], o);
    }
  }

  /** Every earned level is in the ledger; new identity rows are for those alone, at 20 coins. */
  ghost predicate IdentitiesPaid(
    s: State, habit: Habit, slot: Slot, coins: int, before: seq<Entry>, after: seq<Entry>)
  {
    && (habit.identityBonus && coins > 0 ==> forall i: Identity, t: nat :: Earned(s, slot.habit, i, t) ==>
         HasSource(after, Source.Identity(i.id, t)))
    && forall j :: |before| <= j < |after| && after[j].source.Identity? ==>
         && habit.identityBonus && coins > 0 && after[j].amount == 20
         && exists i :: i in s.identities && i.id == after[j].source.identity
                        && Earned(s, slot.habit, i, after[j].source.threshold)
  }

  /** A paying award leaves every earned level in the ledger, adds no other identity row, and pays 20 coins for each. */
  lemma AwardPaysIdentities(s: State, habit: Habit, slot: Slot, kind: Kind, id: CompletionId, coins: int)
    requires Pays(habit, kind, coins)
    ensures IdentitiesPaid(s, habit, slot, coins, s.wallet.entries, Award(s, habit, slot, kind, id).entries)
  {
    var before, after := s.wallet.entries, Award(s, habit, slot, kind, id).entries;
    BaseCoinsPay(habit, kind, coins);
    AwardClaims(s, habit, slot, kind, id);
    OffersKeyed(s, habit, slot, coins);
    StreakOffersCovered(s, habit, slot, coins);
    if habit.identityBonus && coins > 0 {
      forall i: Identity, t: nat | Earned(s, slot.habit, i, t)
        ensures HasSource(after, Source.Identity(i.id, t))
      {
        var k :| 0 <= k < |s.identities| && s.identities[k] == i;
        IdentityOffersComplete(s, slot.habit, s.identities, k, t);
      }
    }
    forall j | |before| <= j < |after| && after[j].source.Identity?
      ensures habit.identityBonus && coins > 0 && after[j].amount == 20
      ensures exists i :: i in s.identities && i.id == after[j].source.identity
                          && Earned(s, slot.habit, i, after[j].source.threshold)
    {
      assert after[j] in IdentityOffersOf(s, habit, slot, coins);
      IdentityOffersOnly(s, slot.habit, s.identities, after[j]);
    }
  }

  // ---- What a toggle pays -----------------------------------------------------------------

  /** Everything a newly completed day is paid, told from the rows it leaves. */
  ghost predicate FullyPaid(t: State, habit: Habit, slot: Slot, coins: int, before: seq<Entry>, after: seq<Entry>)
    requires slot in t.rows
  {
    && Granted(before, after, t.rows[slot].kind, t.rows[slot].id, coins)
    && StreaksPaid(t, habit, slot, coins, before, after)
    && IdentitiesPaid(t, habit, slot, coins, before, after)
  }

  lemma AwardPaysFully(s: State, habit: Habit, slot: Slot, coins: int)
    requires Sound(s.wallet) && slot in s.rows && Pays(habit, s.rows[slot].kind, coins)
    ensures var w := Award(s, habit, slot, s.rows[slot].kind, s.rows[slot].id);
      s.wallet.entries <= w.entries && FullyPaid(s, habit, slot, coins, s.wallet.entries, w.entries)
  {
    AwardGrants(s, habit, slot, s.rows[slot].kind, s.rows[slot].id, coins);
    AwardPaysMilestones(s, habit, slot, s.rows[slot].kind, s.rows[slot].id, coins);
    AwardPaysIdentities(s, habit, slot, s.rows[slot].kind, s.rows[slot].id, coins);
  }

  /** Reversals written first, and other fields, do not change what is paid. */
  lemma PaidAfterReversals(
    s: State, t: State, habit: Habit, slot: Slot, coins: int, a: seq<Entry>, b: seq<Entry>, c: seq<Entry>)
    requires slot in s.rows && t.rows == s.rows && t.frozen == s.frozen && t.identities == s.identities
    requires OnlyReversals(a, b) && b <= c && FullyPaid(s, habit, slot, coins, b, c)
    ensures FullyPaid(t, habit, slot, coins, a, c)
  {
    assert Satisfied(t, slot.habit) == Satisfied(s, slot.habit);
    forall i | |a| <= i < |b|
      ensures c[i].source.Reversal?
    {
      assert c[i] == b[i];
    }
  }

  /**
   * A toggle that completes a day, or completes it as another kind, pays that
   * kind's base coins, every milestone its streak has reached and every identity
   * level its evidence has earned, and no other bonus.
   */
  lemma TogglePays(s: State, slot: Slot, value: Option<real>, kind: Option<Kind>, coins: int)
    requires Consistent(s) && Toggle(s, slot, value, kind).Accepted?
    requires var t := Toggle(s, slot, value, kind).state;
      && Done(t.rows, slot) && (Done(s.rows, slot) ==> s.rows[slot].kind != t.rows[slot].kind)
      && Pays(s.habits[slot.habit], t.rows[slot].kind, coins)
    ensures var t := Toggle(s, slot, value, kind).state;
      FullyPaid(t, s.habits[slot.habit], slot, coins, s.wallet.entries, t.wallet.entries)
  {
    var habit := s.habits[slot.habit];
    ToggleAnswers(s, slot, value, kind);
    LogPays(s, slot, habit, value.GetOr(habit.goal), kind.GetOr(Full), coins);
  }

  lemma LogPays(s: State, slot: Slot, habit: Habit, value: real, kind: Kind, coins: int)
    requires Consistent(s) && Succeeds(habit, value, kind) && Pays(habit, kind, coins)
    requires Done(s.rows, slot) ==> s.rows[slot].kind != kind
    ensures var t := Log(s, slot, habit, value, kind);
      slot in t.rows && FullyPaid(t, habit, slot, coins, s.wallet.entries, t.wallet.entries)
  {
    var t := Record(s, slot, habit, value, kind);
    RecordFacts(s, slot, habit, value, kind);
    if Done(s.rows, slot) {
      SwapPays(s, t, slot, habit, s.rows[slot].kind, coins, Log(s, slot, habit, value, kind));
    } else {
      AwardPaysFully(t, habit, slot, coins);
      var w := Award(t, habit, slot, kind, t.rows[slot].id);
      PaidAfterReversals(t, Log(s, slot, habit, value, kind), habit, slot, coins, s.wallet.entries,
                         t.wallet.entries, w.entries);
    }
  }

  lemma SwapPays(s: State, t: State, slot: Slot, habit: Habit, prior: Kind, coins: int, u: State)
    requires Sound(s.wallet) && t.wallet == s.wallet && slot in t.rows && Pays(habit, t.rows[slot].kind, coins)
    requires var v := t.(wallet := ReverseCompletion(t, slot.habit, prior, t.rows[slot].id));
      u == v.(wallet := Award(v, habit, slot, t.rows[slot].kind, t.rows[slot].id))
    ensures FullyPaid(u, habit, slot, coins, s.wallet.entries, u.wallet.entries)
  {
    var v := t.(wallet := ReverseCompletion(t, slot.habit, prior, t.rows[slot].id));
    ReverseCompletionIsSound(t, slot.habit, prior, t.rows[slot].id);
    AwardPaysFully(v, habit, slot, coins);
    PaidAfterReversals(v, u, habit, slot, coins, s.wallet.entries, v.wallet.entries, u.wallet.entries);
  }

  // ---- The daily plan ----------------------------------------------------------------------

  /** A finished task completes an open day at its goal for ten coins and ten points, and leaves a done day alone. */
  lemma PlanCompletes(s: State, slot: Slot, task: TaskId)
    ensures PlanComplete(s, slot, task) == Rejected(NotFound) <==> slot.habit !in s.habits
    ensures slot.habit in s.habits && Done(s.rows, slot) ==> PlanComplete(s, slot, task) == Accepted(s, 0)
    ensures slot.habit in s.habits && !Done(s.rows, slot) ==>
      var id := if slot in s.rows then s.rows[slot].id else s.nextId;
      var kind := if slot in s.rows then s.rows[slot].kind else Full;
      var row := Row(id, true, s.habits[slot.habit].goal, kind, Some(task));
      PlanComplete(s, slot, task) == Accepted(
        s.(rows := s.rows[slot := row],
           nextId := if slot in s.rows then s.nextId else s.nextId + 1,
           wallet := Wallet(s.wallet.coins + 10, s.wallet.entries + [Entry(10, Base(Full, id))]),
           profile := AddXp(s.profile, 10)),
        10)
  {
  }

  /** Leaving COMPLETED removes the row its task wrote and no other; it gives back the points and the base coins. */
  lemma PlanUncompletes(s: State, slot: Slot, task: TaskId, wasCompleted: bool)
    requires slot.habit in s.habits
    ensures var hit := wasCompleted && slot in s.rows && s.rows[slot].task == Some(task);
      var r := PlanUncomplete(s, slot, task, wasCompleted);
      && (!hit ==> r == Accepted(s, 0))
      && (hit ==> r.Accepted? && r.state.rows == s.rows - {slot} && r.state.profile == AddXp(s.profile, -10)
                  && r.state == s.(rows := r.state.rows, wallet := r.state.wallet, profile := r.state.profile)
                  && r.delta == r.state.wallet.coins - s.wallet.coins)
    ensures Consistent(s) && wasCompleted && slot in s.rows && s.rows[slot].task == Some(task) ==>
      BaseTakenBack(s.wallet, PlanUncomplete(s, slot, task, wasCompleted).state.wallet, s.rows[slot].id)
  {
    if slot in s.rows && Consistent(s) {
      TakesBase(s.wallet, s.rows[slot].kind, s.rows[slot].id);
    }
  }

  /** The wallet either stayed, or gained one reversal of a standing base award of the row for its amount. */
  ghost predicate BaseTakenBack(w: Wallet, t: Wallet, id: CompletionId) {
    || t == w
    || exists i: nat ::
         && i < |w.entries| && w.entries[i].source.Base? && w.entries[i].source.completion == id
         && !Reversed(w.entries, i)
         && t == Wallet(w.coins - w.entries[i].amount, w.entries + [Entry(-w.entries[i].amount, Reversal(i))])
  }

  lemma TakesBase(w: Wallet, kind: Kind, id: CompletionId)
    ensures BaseTakenBack(w, ReverseLatest(w, Base(kind, id)), id)
  {
    var latest := Latest(w.entries, Base(kind, id));
    if latest.Some? && w.entries[latest.value].amount > 0 && !Reversed(w.entries, latest.value) {
      var i := latest.value;
      assert ReverseLatest(w, Base(kind, id))
          == Wallet(w.coins - w.entries[i].amount, w.entries + [Entry(-w.entries[i].amount, Reversal(i))]);
    }
  }

  /** Deleting a task removes the row it wrote; only a completed one gives anything back. */
  lemma PlanRemoves(s: State, slot: Slot, task: TaskId, refundXp: bool)
    ensures var hit := slot in s.rows && s.rows[slot].task == Some(task);
      var r := PlanRemove(s, slot, task, refundXp);
      && (!hit ==> r == Accepted(s, 0))
      && (hit && !s.rows[slot].status ==> r == Accepted(s.(rows := s.rows - {slot}), 0))
      && (hit && s.rows[slot].status ==>
          && r.Accepted? && r.state.rows == s.rows - {slot}
          && r.state.profile == (if refundXp then AddXp(s.profile, -10) else s.profile)
          && r.state == s.(rows := r.state.rows, wallet := r.state.wallet, profile := r.state.profile)
          && r.delta == r.state.wallet.coins - s.wallet.coins
          && BaseTakenBack(s.wallet, r.state.wallet, s.rows[slot].id))
  {
    if slot in s.rows {
      TakesBase(s.wallet, s.rows[slot].kind, s.rows[slot].id);
    }
  }

  // ---- Spending ----------------------------------------------------------------------------

  /** The wallet after paying `price` for `source`. */
  function PaidFor(w: Wallet, price: int, source: Source): Wallet {
    Wallet(w.coins - price, w.entries + [Entry(-price, source)])
  }

  /**
   * A redemption goes through exactly when the item exists, is on sale, is not
   * owned and its price is covered; it takes the price, in one row, and hands
   * over the item.
   */
  lemma RedeemAnswers(s: State, item: ItemId)
    ensures RedeemItem(s, item)
      == if item !in s.catalog then Rejected(NotFound)
         else if !s.catalog[item].active then Rejected(BadRequest)
         else if item in s.owned then Rejected(Conflict)
         else if s.wallet.coins < s.catalog[item].cost then Rejected(BadRequest)
         else Accepted(s.(owned := s.owned + {item},
                          wallet := PaidFor(s.wallet, s.catalog[item].cost, Source.Redemption(item))),
                       -s.catalog[item].cost)
  {
  }

  /** A freeze costs 100 coins, for a scheduled day up to today of an active habit, neither done nor frozen. */
  lemma FreezeAnswers(s: State, slot: Slot, today: Day)
    ensures PurchaseFreeze(s, slot, today)
      == if slot.habit !in s.habits then Rejected(NotFound)
         else if s.habits[slot.habit].archived then Rejected(Conflict)
         else if today < slot.day then Rejected(BadRequest)
         else if !Schedule.IsScheduled(s.habits[slot.habit].schedule, slot.day) then Rejected(BadRequest)
         else if (slot in s.rows && s.rows[slot].status) || slot in s.frozen then Rejected(Conflict)
         else if s.wallet.coins < 100 then Rejected(BadRequest)
         else Accepted(s.(frozen := s.frozen + {slot}, wallet := PaidFor(s.wallet, 100, Source.Freeze(slot))), -100)
  {
  }

  /** The repair writes one adjustment of the drift, if there is any, and nothing else. */
  lemma RepairAnswers(s: State)
    ensures var drift := s.wallet.coins - Sum(s.wallet.entries);
      Repair(s) == s.(wallet := Wallet(s.wallet.coins,
                                       s.wallet.entries + (if drift == 0 then [] else [Entry(drift, Adjustment)])))
  {
    assert s.wallet.entries + [] == s.wallet.entries;
  }
}
