/**
 * What every operation keeps, over every sequential run: the cached balance is
 * the ledger's sum, nothing is reversed or bought twice, and a completed row
 * holds exactly its current base award.
 */
module RewardLaws {
  import opened Common
  import opened Streaks
  import opened Schedule
  import opened Progression
  import opened Ledger
  import opened Completions

  // ---- The invariant ------------------------------------------------------------

  ghost predicate IdsFresh(rows: map<Slot, Row>, nextId: CompletionId) {
    && (forall slot :: slot in rows ==> rows[slot].id < nextId)
    && (forall a, b :: a in rows && b in rows && a != b ==> rows[a].id != rows[b].id)
  }

  ghost predicate PartialRowsAreFull(rows: map<Slot, Row>) {
    forall slot :: slot in rows && !rows[slot].status ==> rows[slot].kind.Full?
  }

  /** Some completed row has this id and kind. */
  ghost predicate Rewarded(rows: map<Slot, Row>, kind: Kind, id: CompletionId) {
    exists slot :: Done(rows, slot) && rows[slot].id == id && rows[slot].kind == kind
  }

  /** A base award that still counts is the latest of its kind and belongs to a completed row of that kind. */
  ghost predicate BasesMatch(entries: seq<Entry>, rows: map<Slot, Row>) {
    forall i :: 0 <= i < |entries| && entries[i].source.Base? && !Reversed(entries, i) ==>
      && Latest(entries, entries[i].source) == Some(i)
      && Rewarded(rows, entries[i].source.kind, entries[i].source.completion)
  }

  ghost predicate BasesOld(entries: seq<Entry>, nextId: CompletionId) {
    forall i :: 0 <= i < |entries| && entries[i].source.Base? ==> entries[i].source.completion < nextId
  }

  /** Every unlocked item and every frozen day has its one debit, and no debit lacks its purchase. */
  ghost predicate PurchasesMatch(s: State) {
    && (forall item :: item in s.owned <==> HasSource(s.wallet.entries, Source.Redemption(item)))
    && (forall slot :: slot in s.frozen <==> HasSource(s.wallet.entries, Source.Freeze(slot)))
  }

  ghost predicate Consistent(s: State) {
    && Sound(s.wallet)
    && IdsFresh(s.rows, s.nextId)
    && PartialRowsAreFull(s.rows)
    && BasesMatch(s.wallet.entries, s.rows)
    && BasesOld(s.wallet.entries, s.nextId)
    && PurchasesMatch(s)
    && WellFormed(s.profile)
  }

  // ---- Extending the ledger without base awards ------------------------------------

  /** `more` continues `entries` with rows that are neither base awards nor purchases. */
  ghost predicate Continues(entries: seq<Entry>, more: seq<Entry>) {
    && entries <= more
    && (forall i :: |entries| <= i < |more| ==>
         more[i].source.Reversal? || more[i].source.Streak? || more[i].source.Identity? || more[i].source.Adjustment?)
  }

  lemma SourcesPrefix(entries: seq<Entry>, more: seq<Entry>)
    requires entries <= more
    ensures Sources(entries) <= Sources(more)
  {
    SourcesConcat(entries, more[|entries|..]);
    assert more == entries + more[|entries|..];
  }

  lemma ContinuesSources(entries: seq<Entry>, more: seq<Entry>, source: Source)
    requires Continues(entries, more)
    requires source.Base? || source.Redemption? || source.Freeze?
    ensures HasSource(more, source) <==> HasSource(entries, source)
  {
    SourcesPrefix(entries, more);
    if HasSource(more, source) {
      var i := SourceHasIndex(more, source);
      SourceAt(entries, i);
    }
  }

  lemma ContinuesLatest(entries: seq<Entry>, more: seq<Entry>, source: Source)
    requires Continues(entries, more) && source.Base?
    ensures Latest(more, source) == Latest(entries, source)
  {
    ContinuesSources(entries, more, source);
  }

  lemma ContinuesKeepsBases(entries: seq<Entry>, more: seq<Entry>, rows: map<Slot, Row>)
    requires Continues(entries, more) && BasesMatch(entries, rows)
    ensures BasesMatch(more, rows)
  {
    SourcesPrefix(entries, more);
    forall i | 0 <= i < |more| && more[i].source.Base? && !Reversed(more, i)
      ensures Latest(more, more[i].source) == Some(i)
      ensures Rewarded(rows, more[i].source.kind, more[i].source.completion)
    {
      assert more[i] == entries[i];
      ContinuesLatest(entries, more, more[i].source);
    }
  }

  /** `more` continues `entries` with reversals only. */
  ghost predicate OnlyReversals(entries: seq<Entry>, more: seq<Entry>) {
    entries <= more && forall i :: |entries| <= i < |more| ==> more[i].source.Reversal?
  }

  lemma {:induction false} ReverseBrokenContinues(w: Wallet, habit: HabitId, days: set<Day>, k: nat)
    requires k <= |w.entries|
    ensures OnlyReversals(w.entries, ReverseBroken(w, habit, days, k).entries)
    ensures Continues(w.entries, ReverseBroken(w, habit, days, k).entries)
    decreases k
  {
    if k > 0 {
      ReverseBrokenContinues(w, habit, days, k - 1);
    }
  }

  lemma ClaimAllContinues(w: Wallet, offers: seq<Entry>)
    requires Keyed(offers)
    ensures Continues(w.entries, ClaimAll(w, offers).entries)
  {
    ClaimAllExact(w, offers);
  }

  // ---- Offers are keyed -----------------------------------------------------------------

  lemma {:induction false} StreakOffersKeyed(habit: HabitId, streak: nat, start: Day, ms: seq<nat>)
    ensures forall o :: o in StreakOffers(habit, streak, start, ms) ==>
      && o.source.Streak? && o.source.habit == habit && o.source.cycleStart == start
      && o.source.milestone <= streak && o.source.milestone in ms
    decreases |ms|
  {
    if ms != [] && streak >= ms[0] {
      StreakOffersKeyed(habit, streak, start, ms[1..]);
    }
  }

  lemma {:induction false} ThresholdOffersKeyed(id: IdentityId, points: nat, ts: seq<nat>)
    ensures forall o :: o in ThresholdOffers(id, points, ts) ==>
      o.source.Identity? && o.source.identity == id && o.source.threshold <= points
    decreases |ts|
  {
    if ts != [] {
      ThresholdOffersKeyed(id, points, ts[1..]);
    }
  }

  lemma {:induction false} IdentityOffersKeyed(rows: map<Slot, Row>, habit: HabitId, ids: seq<Identity>)
    ensures forall o :: o in IdentityOffers(rows, habit, ids) ==> o.source.Identity?
    decreases |ids|
  {
    if ids != [] {
      IdentityOffersKeyed(rows, habit, ids[1..]);
      ThresholdOffersKeyed(ids[0].id, EvidencePoints(rows, ids[0].habits), IDENTITY_THRESHOLDS);
    }
  }

  lemma OffersKeyed(s: State, habit: Habit, slot: Slot, base: int)
    ensures Keyed(StreakOffersOf(s, habit, slot, base))
    ensures Keyed(IdentityOffersOf(s, habit, slot, base))
  {
    var days := Satisfied(s, slot.habit);
    StreakOffersKeyed(slot.habit, CurrentStreak(days, slot.day), CycleStart(days, slot.day), STREAK_MILESTONES);
    IdentityOffersKeyed(s.rows, slot.habit, s.identities);
  }

  // ---- Withdrawing a base award -----------------------------------------------------------

  lemma ReverseLatestExact(w: Wallet, source: Source)
    requires Sound(w) && source.Base?
    ensures Sound(ReverseLatest(w, source))
    ensures Continues(w.entries, ReverseLatest(w, source).entries)
    ensures Latest(w.entries, source).Some? ==>
      Reversed(ReverseLatest(w, source).entries, Latest(w.entries, source).value)
    ensures forall i: nat :: Reversed(ReverseLatest(w, source).entries, i) <==>
      Reversed(w.entries, i) || Latest(w.entries, source) == Some(i)
  {
    if Latest(w.entries, source).Some? {
      ReverseOnceKeepsSound(w, Latest(w.entries, source).value);
    }
  }

  /** Once a completed row's award is withdrawn, the ledger fits the rows without that row. */
  lemma WithdrawBase(w: Wallet, rows: map<Slot, Row>, nextId: CompletionId, slot: Slot)
    requires Sound(w) && BasesMatch(w.entries, rows) && IdsFresh(rows, nextId) && slot in rows
    ensures var row := rows[slot];
      BasesMatch(ReverseLatest(w, Base(row.kind, row.id)).entries, rows - {slot})
  {
    var row := rows[slot];
    var source := Base(row.kind, row.id);
    var r := ReverseLatest(w, source);
    ReverseLatestExact(w, source);
    forall i | 0 <= i < |r.entries| && r.entries[i].source.Base? && !Reversed(r.entries, i)
      ensures Latest(r.entries, r.entries[i].source) == Some(i)
      ensures Rewarded(rows - {slot}, r.entries[i].source.kind, r.entries[i].source.completion)
    {
      assert r.entries[i] == w.entries[i];
      ContinuesLatest(w.entries, r.entries, w.entries[i].source);
      var k, c := w.entries[i].source.kind, w.entries[i].source.completion;
      assert w.entries[i].source == Base(k, c);
      var other :| Done(rows, other) && rows[other].id == c && rows[other].kind == k;
      assert other != slot;
      assert Done(rows - {slot}, other);
    }
  }

  /** A ledger that fits the other rows fits them whatever the remaining row becomes. */
  lemma BasesIgnoreRow(entries: seq<Entry>, rows: map<Slot, Row>, slot: Slot, row: Row)
    requires BasesMatch(entries, rows - {slot})
    ensures BasesMatch(entries, rows[slot := row])
  {
    forall k, c | Rewarded(rows - {slot}, k, c)
      ensures Rewarded(rows[slot := row], k, c)
    {
      var other :| Done(rows - {slot}, other) && rows[other].id == c && rows[other].kind == k;
      assert Done(rows[slot := row], other);
    }
  }

  /** A row that holds no award may be replaced freely. */
  lemma BasesWithoutRow(entries: seq<Entry>, rows: map<Slot, Row>, nextId: CompletionId, slot: Slot)
    requires BasesMatch(entries, rows) && !Done(rows, slot)
    ensures BasesMatch(entries, rows - {slot})
  {
    forall k, c | Rewarded(rows, k, c)
      ensures Rewarded(rows - {slot}, k, c)
    {
      var other :| Done(rows, other) && rows[other].id == c && rows[other].kind == k;
      assert Done(rows - {slot}, other);
    }
  }

  /** Granting a base award to a row whose id holds none. */
  lemma GrantBase(w: Wallet, rows: map<Slot, Row>, nextId: CompletionId, slot: Slot, base: nat)
    requires Sound(w) && IdsFresh(rows, nextId) && Done(rows, slot)
    requires BasesMatch(w.entries, rows - {slot})
    ensures var r := PostBase(w, rows[slot].kind, rows[slot].id, base);
      Sound(r) && BasesMatch(r.entries, rows)
  {
    var row := rows[slot];
    BasesIgnoreRow(w.entries, rows, slot, row);
    assert rows[slot := row] == rows;
    if base > 0 {
      var e := Entry(base, Base(row.kind, row.id));
      PostKeepsSound(w, e);
      var more := w.entries + [e];
      forall i | 0 <= i < |more| && more[i].source.Base? && !Reversed(more, i)
        ensures Latest(more, more[i].source) == Some(i)
        ensures Rewarded(rows, more[i].source.kind, more[i].source.completion)
      {
        SourcesAppend(w.entries, e);
        if i < |w.entries| {
          var k, c := w.entries[i].source.kind, w.entries[i].source.completion;
          assert more[i] == w.entries[i];
          var other :| Done(rows - {slot}, other) && rows[other].id == c && rows[other].kind == k;
          assert other != slot;
          assert w.entries[i].source != e.source;
          assert more[..|more| - 1] == w.entries;
        } else {
          assert Done(rows, slot);
        }
      }
    }
  }

  lemma AwardKeepsBases(s: State, habit: Habit, slot: Slot)
    requires Sound(s.wallet) && IdsFresh(s.rows, s.nextId) && Done(s.rows, slot)
    requires BasesMatch(s.wallet.entries, s.rows - {slot})
    ensures var w := Award(s, habit, slot, s.rows[slot].kind, s.rows[slot].id);
      Sound(w) && BasesMatch(w.entries, s.rows)
  {
    var row := s.rows[slot];
    var base := BaseCoins(habit, row.kind);
    var w0 := PostBase(s.wallet, row.kind, row.id, base);
    GrantBase(s.wallet, s.rows, s.nextId, slot, base);
    OffersKeyed(s, habit, slot, base);
    var streaks, identities := StreakOffersOf(s, habit, slot, base), IdentityOffersOf(s, habit, slot, base);
    ClaimAllKeepsSound(w0, streaks);
    ClaimAllContinues(w0, streaks);
    ContinuesKeepsBases(w0.entries, ClaimAll(w0, streaks).entries, s.rows);
    ClaimAllKeepsSound(ClaimAll(w0, streaks), identities);
    ClaimAllContinues(ClaimAll(w0, streaks), identities);
    ContinuesKeepsBases(ClaimAll(w0, streaks).entries, Award(s, habit, slot, row.kind, row.id).entries, s.rows);
  }

  lemma ReverseCompletionKeepsBases(s: State, habit: HabitId, kind: Kind, id: CompletionId, rows: map<Slot, Row>)
    requires Sound(s.wallet)
    requires BasesMatch(ReverseLatest(s.wallet, Base(kind, id)).entries, rows)
    ensures var w := ReverseCompletion(s, habit, kind, id);
      Sound(w) && BasesMatch(w.entries, rows) && Continues(s.wallet.entries, w.entries)
  {
    var w := ReverseLatest(s.wallet, Base(kind, id));
    var days := Satisfied(s, habit);
    ReverseLatestExact(s.wallet, Base(kind, id));
    ReverseBrokenKeepsSound(w, habit, days, |w.entries|);
    ReverseBrokenContinues(w, habit, days, |w.entries|);
    ContinuesKeepsBases(w.entries, ReverseBroken(w, habit, days, |w.entries|).entries, rows);
  }

  // ---- The rest of the invariant -------------------------------------------------------------

  /** `more` continues `entries` without purchases, awarding only ids already handed out. */
  ghost predicate Earns(entries: seq<Entry>, more: seq<Entry>, nextId: CompletionId) {
    && entries <= more
    && (forall i :: |entries| <= i < |more| ==>
         && !more[i].source.Redemption? && !more[i].source.Freeze?
         && (more[i].source.Base? ==> more[i].source.completion < nextId))
  }

  lemma EarnsKeepsRest(s: State, t: State)
    requires PurchasesMatch(s) && BasesOld(s.wallet.entries, s.nextId)
    requires Earns(s.wallet.entries, t.wallet.entries, t.nextId)
    requires s.nextId <= t.nextId && t.owned == s.owned && t.frozen == s.frozen
    ensures PurchasesMatch(t) && BasesOld(t.wallet.entries, t.nextId)
  {
    var entries, more := s.wallet.entries, t.wallet.entries;
    SourcesPrefix(entries, more);
    forall source: Source | (source.Redemption? || source.Freeze?) && HasSource(more, source)
      ensures HasSource(entries, source)
    {
      var i := SourceHasIndex(more, source);
      SourceAt(entries, i);
    }
  }

  lemma ClaimEarns(entries: seq<Entry>, w: Wallet, offers: seq<Entry>, nextId: CompletionId)
    requires Earns(entries, w.entries, nextId) && Keyed(offers)
    ensures Earns(entries, ClaimAll(w, offers).entries, nextId)
  {
    ClaimAllContinues(w, offers);
  }

  lemma AwardEarns(s: State, habit: Habit, slot: Slot, kind: Kind, id: CompletionId)
    requires id < s.nextId
    ensures Earns(s.wallet.entries, Award(s, habit, slot, kind, id).entries, s.nextId)
  {
    var base := BaseCoins(habit, kind);
    var w := PostBase(s.wallet, kind, id, base);
    OffersKeyed(s, habit, slot, base);
    var streaks := StreakOffersOf(s, habit, slot, base);
    ClaimEarns(s.wallet.entries, w, streaks, s.nextId);
    ClaimEarns(s.wallet.entries, ClaimAll(w, streaks), IdentityOffersOf(s, habit, slot, base), s.nextId);
  }

  // ---- Each operation keeps the invariant -------------------------------------------------------

  lemma WithdrawKeeps(s: State, t: State, slot: Slot)
    requires Consistent(s) && Done(s.rows, slot)
    requires t.rows - {slot} == s.rows - {slot}
    requires slot in t.rows ==> !t.rows[slot].status && t.rows[slot].kind.Full? && t.rows[slot].id == s.rows[slot].id
    requires t == s.(rows := t.rows)
    ensures Consistent(Withdraw(t, slot.habit, s.rows[slot]))
  {
    var row := s.rows[slot];
    WithdrawBase(s.wallet, s.rows, s.nextId, slot);
    var w := ReverseLatest(s.wallet, Base(row.kind, row.id));
    if slot in t.rows {
      BasesIgnoreRow(w.entries, t.rows, slot, t.rows[slot]);
      assert t.rows[slot := t.rows[slot]] == t.rows;
    } else {
      assert t.rows == s.rows - {slot};
    }
    ReverseCompletionKeepsBases(t, slot.habit, row.kind, row.id, t.rows);
    SameIds(s.rows, t.rows, slot, s.nextId);
    EarnsKeepsRest(s, Withdraw(t, slot.habit, row));
    AddXpKeepsShape(t.profile, -XP_PER_COMPLETION);
  }

  /** Changing a row in place, or dropping it, keeps ids unique and partial rows FULL. */
  lemma SameIds(rows: map<Slot, Row>, changed: map<Slot, Row>, slot: Slot, nextId: CompletionId)
    requires IdsFresh(rows, nextId) && PartialRowsAreFull(rows) && slot in rows
    requires changed - {slot} == rows - {slot}
    requires slot in changed ==>
      changed[slot].id == rows[slot].id && (!changed[slot].status ==> changed[slot].kind.Full?)
    ensures IdsFresh(changed, nextId) && PartialRowsAreFull(changed)
  {
    forall other | other in changed && other != slot
      ensures other in rows && changed[other] == rows[other]
    {
      assert other in changed - {slot};
    }
  }

  lemma ToggleOffKeeps(s: State, slot: Slot)
    requires Consistent(s) && slot in s.rows
    ensures Consistent(ToggleOff(s, slot))
  {
    var t := s.(rows := s.rows - {slot});
    if s.rows[slot].status {
      WithdrawKeeps(s, t, slot);
    } else {
      BasesWithoutRow(s.wallet.entries, s.rows, s.nextId, slot);
      SameIds(s.rows, t.rows, slot, s.nextId);
    }
  }

  /** What recording a value changes: one row, under its old id or a fresh one. */
  lemma RecordFacts(s: State, slot: Slot, habit: Habit, value: real, kind: Kind)
    requires Consistent(s)
    ensures var t := Record(s, slot, habit, value, kind);
      && t == s.(rows := t.rows, nextId := t.nextId)
      && s.nextId <= t.nextId
      && t.rows - {slot} == s.rows - {slot}
      && slot in t.rows && t.rows[slot].kind == kind
      && t.rows[slot].status == Succeeds(habit, value, kind)
      && (slot in s.rows ==> t.rows[slot].id == s.rows[slot].id && t.nextId == s.nextId)
      && (slot !in s.rows ==> t.rows[slot].id == s.nextId)
      && IdsFresh(t.rows, t.nextId) && PartialRowsAreFull(t.rows)
  {
    var t := Record(s, slot, habit, value, kind);
    if slot in s.rows {
      SameIds(s.rows, t.rows, slot, s.nextId);
    }
  }

  lemma LogKeeps(s: State, slot: Slot, habit: Habit, value: real, kind: Kind)
    requires Consistent(s)
    ensures Consistent(Log(s, slot, habit, value, kind))
  {
    var t := Record(s, slot, habit, value, kind);
    RecordFacts(s, slot, habit, value, kind);
    if Done(s.rows, slot) {
      if !Succeeds(habit, value, kind) {
        WithdrawKeeps(s, t, slot);
      } else if s.rows[slot].kind != kind {
        SwapKeeps(s, t, slot, habit);
      } else {
        SameKindKeeps(s, t, slot);
      }
    } else {
      BasesWithoutRow(s.wallet.entries, s.rows, s.nextId, slot);
      if Succeeds(habit, value, kind) {
        AwardKeeps(s, t, slot, habit);
      } else {
        BasesIgnoreRow(s.wallet.entries, t.rows, slot, t.rows[slot]);
        assert t.rows[slot := t.rows[slot]] == t.rows;
        EarnsKeepsRest(s, t);
      }
    }
  }

  /** A row that becomes completed is awarded. */
  lemma AwardKeeps(s: State, t: State, slot: Slot, habit: Habit)
    requires Consistent(s) && !Done(s.rows, slot)
    requires t == s.(rows := t.rows, nextId := t.nextId) && s.nextId <= t.nextId
    requires t.rows - {slot} == s.rows - {slot} && Done(t.rows, slot)
    requires IdsFresh(t.rows, t.nextId) && PartialRowsAreFull(t.rows)
    ensures Consistent(t.(profile := AddXp(t.profile, XP_PER_COMPLETION),
                          wallet := Award(t, habit, slot, t.rows[slot].kind, t.rows[slot].id)))
  {
    var u := t.(profile := AddXp(t.profile, XP_PER_COMPLETION),
                wallet := Award(t, habit, slot, t.rows[slot].kind, t.rows[slot].id));
    BasesWithoutRow(s.wallet.entries, s.rows, s.nextId, slot);
    AwardKeepsBases(t, habit, slot);
    AwardEarns(t, habit, slot, t.rows[slot].kind, t.rows[slot].id);
    EarnsKeepsRest(s, u);
    AddXpKeepsShape(t.profile, XP_PER_COMPLETION);
  }

  /** A same-day change of kind swaps the base grant. */
  lemma SwapKeeps(s: State, t: State, slot: Slot, habit: Habit)
    requires Consistent(s) && Done(s.rows, slot) && Done(t.rows, slot)
    requires t == s.(rows := t.rows) && t.rows - {slot} == s.rows - {slot}
    requires t.rows[slot].id == s.rows[slot].id
    requires IdsFresh(t.rows, t.nextId) && PartialRowsAreFull(t.rows)
    ensures var u := t.(wallet := ReverseCompletion(t, slot.habit, s.rows[slot].kind, t.rows[slot].id));
      Consistent(u.(wallet := Award(u, habit, slot, t.rows[slot].kind, t.rows[slot].id)))
  {
    var row := s.rows[slot];
    var u := t.(wallet := ReverseCompletion(t, slot.habit, row.kind, row.id));
    WithdrawBase(s.wallet, s.rows, s.nextId, slot);
    ReverseCompletionKeepsBases(t, slot.habit, row.kind, row.id, t.rows - {slot});
    EarnsKeepsRest(s, u);
    AwardKeepsBases(u, habit, slot);
    AwardEarns(u, habit, slot, t.rows[slot].kind, row.id);
    EarnsKeepsRest(u, u.(wallet := Award(u, habit, slot, t.rows[slot].kind, row.id)));
  }

  /** Re-logging the same kind touches only the value. */
  lemma SameKindKeeps(s: State, t: State, slot: Slot)
    requires Consistent(s) && Done(s.rows, slot) && Done(t.rows, slot)
    requires t == s.(rows := t.rows) && t.rows - {slot} == s.rows - {slot}
    requires t.rows[slot].id == s.rows[slot].id && t.rows[slot].kind == s.rows[slot].kind
    requires IdsFresh(t.rows, t.nextId) && PartialRowsAreFull(t.rows)
    ensures Consistent(t)
  {
    forall k, c | Rewarded(s.rows, k, c)
      ensures Rewarded(t.rows, k, c)
    {
      var other :| Done(s.rows, other) && s.rows[other].id == c && s.rows[other].kind == k;
      if other != slot {
        assert other in t.rows - {slot};
      }
      assert Done(t.rows, other) && t.rows[other].id == c && t.rows[other].kind == k;
    }
  }

  lemma PlanRecordFacts(s: State, slot: Slot, goal: real, task: TaskId)
    requires Consistent(s) && !Done(s.rows, slot)
    ensures var t := PlanRecord(s, slot, goal, task);
      && t == s.(rows := t.rows, nextId := t.nextId)
      && s.nextId <= t.nextId
      && t.rows - {slot} == s.rows - {slot}
      && Done(t.rows, slot) && t.rows[slot].kind == Full
      && IdsFresh(t.rows, t.nextId) && PartialRowsAreFull(t.rows)
  {
    if slot in s.rows {
      SameIds(s.rows, PlanRecord(s, slot, goal, task).rows, slot, s.nextId);
    }
  }

  /** A row that becomes completed without milestones: the plan's plain base grant. */
  lemma PlanGrantKeeps(s: State, t: State, slot: Slot)
    requires Consistent(s) && !Done(s.rows, slot)
    requires t == s.(rows := t.rows, nextId := t.nextId) && s.nextId <= t.nextId
    requires t.rows - {slot} == s.rows - {slot} && Done(t.rows, slot) && t.rows[slot].kind == Full
    requires IdsFresh(t.rows, t.nextId) && PartialRowsAreFull(t.rows)
    ensures var w := PostBase(t.wallet, Full, t.rows[slot].id, CoinsPerCompletion(Full));
      Consistent(t.(wallet := w, profile := AddXp(t.profile, XP_PER_COMPLETION)))
  {
    var w := PostBase(t.wallet, Full, t.rows[slot].id, CoinsPerCompletion(Full));
    BasesWithoutRow(s.wallet.entries, s.rows, s.nextId, slot);
    GrantBase(t.wallet, t.rows, t.nextId, slot, CoinsPerCompletion(Full));
    AddXpKeepsShape(s.profile, XP_PER_COMPLETION);
    EarnsKeepsRest(s, t.(wallet := w));
  }

  lemma PlanCompleteKeeps(s: State, slot: Slot, task: TaskId)
    requires Consistent(s)
    ensures Consistent(Step(s, DoPlanComplete(slot, task)))
  {
    if slot.habit in s.habits && !Done(s.rows, slot) {
      var goal := s.habits[slot.habit].goal;
      PlanRecordFacts(s, slot, goal, task);
      PlanGrantKeeps(s, PlanRecord(s, slot, goal, task), slot);
    }
  }

  /** Both daily-plan removals take back at most the row's own award. */
  lemma PlanDropKeeps(s: State, slot: Slot, withdraw: bool, xp: int)
    requires Consistent(s) && slot in s.rows && (Done(s.rows, slot) ==> withdraw)
    ensures var row := s.rows[slot];
      var w := if withdraw then ReverseLatest(s.wallet, Base(row.kind, row.id)) else s.wallet;
      && Consistent(s.(rows := s.rows - {slot}, wallet := w, profile := AddXp(s.profile, xp)))
      && Consistent(s.(rows := s.rows - {slot}, wallet := w))
  {
    var row := s.rows[slot];
    var t := s.(rows := s.rows - {slot});
    if withdraw {
      WithdrawBase(s.wallet, s.rows, s.nextId, slot);
      ReverseLatestExact(s.wallet, Base(row.kind, row.id));
    } else {
      BasesWithoutRow(s.wallet.entries, s.rows, s.nextId, slot);
    }
    SameIds(s.rows, t.rows, slot, s.nextId);
    AddXpKeepsShape(s.profile, xp);
    var w := if withdraw then ReverseLatest(s.wallet, Base(row.kind, row.id)) else s.wallet;
    EarnsKeepsRest(s, t.(wallet := w));
  }

  /** A purchase debits exactly once: its debit is new to the ledger, as its goods are to the user. */
  lemma BuyKeeps(s: State, p: Purchase)
    requires Consistent(s)
    ensures Buy(s, p).Accepted? ==>
      && Consistent(Buy(s, p).state)
      && Buy(s, p).state.wallet.coins >= 0
      && !HasSource(s.wallet.entries, PurchaseSource(p))
  {
    if Buy(s, p).Accepted? {
      var e := Entry(-Cost(p), PurchaseSource(p));
      var t := Buy(s, p).state;
      assert !HasSource(s.wallet.entries, e.source);
      PostKeepsSound(s.wallet, e);
      forall i | 0 <= i < |t.wallet.entries| && t.wallet.entries[i].source.Base? && !Reversed(t.wallet.entries, i)
        ensures Latest(t.wallet.entries, t.wallet.entries[i].source) == Some(i)
        ensures Rewarded(t.rows, t.wallet.entries[i].source.kind, t.wallet.entries[i].source.completion)
      {
        assert t.wallet.entries[..|s.wallet.entries|] == s.wallet.entries;
      }
    }
  }

  lemma RepairIsIdle(s: State)
    requires Sound(s.wallet)
    ensures Repair(s) == s
  {
  }

  /** From any drift at all, the repair makes the ledger agree with the balance it leaves untouched. */
  lemma RepairRestores(s: State)
    ensures Repair(s).wallet.coins == Sum(Repair(s).wallet.entries)
    ensures Repair(s).wallet.coins == s.wallet.coins
  {
    var difference := s.wallet.coins - Sum(s.wallet.entries);
    SumAppend(s.wallet.entries, Entry(difference, Adjustment));
  }

  lemma ToggleKeepsConsistent(s: State, slot: Slot, value: Option<real>, kind: Option<Kind>)
    requires Consistent(s) && Toggle(s, slot, value, kind).Accepted?
    ensures Consistent(Toggle(s, slot, value, kind).state)
  {
    var habit := s.habits[slot.habit];
    if slot in s.rows && value.None? && kind.None? {
      ToggleOffKeeps(s, slot);
    } else {
      LogKeeps(s, slot, habit, value.GetOr(habit.goal), kind.GetOr(Full));
    }
  }

  lemma PlanDropKeepsConsistent(s: State, op: Op)
    requires Consistent(s) && (op.DoPlanUncomplete? || op.DoPlanRemove?)
    ensures Consistent(Step(s, op))
  {
    if WrittenBy(s, op.slot, op.task) {
      var withdraw := op.DoPlanUncomplete? || s.rows[op.slot].status;
      PlanDropKeeps(s, op.slot, withdraw, -XP_PER_COMPLETION);
    }
  }

  lemma StepKeepsConsistent(s: State, op: Op)
    requires Consistent(s)
    ensures Consistent(Step(s, op))
  {
    match op
    case DoToggle(slot, value, kind) =>
      if Toggle(s, slot, value, kind).Accepted? {
        ToggleKeepsConsistent(s, slot, value, kind);
      }
    case DoPlanComplete(slot, task) => PlanCompleteKeeps(s, slot, task);
    case DoPlanUncomplete(_, _, _) => PlanDropKeepsConsistent(s, op);
    case DoPlanRemove(_, _, _) => PlanDropKeepsConsistent(s, op);
    case DoRedeem(item) =>
      if item in s.catalog {
        BuyKeeps(s, ShopItem(item, s.catalog[item].cost));
      }
    case DoFreeze(slot, today) => BuyKeeps(s, FreezeDay(slot));
    case DoRepair => RepairIsIdle(s);
    case DoConfigure(h, i, c) =>
  }

  /** Over every sequential run from a new account. */
  lemma {:induction false} RunKeepsConsistent(s: State, ops: seq<Op>)
    requires Consistent(s)
    ensures Consistent(RunOps(s, ops))
    decreases |ops|
  {
    if ops != [] {
      StepKeepsConsistent(s, ops[0]);
      RunKeepsConsistent(Step(s, ops[0]), ops[1..]);
    }
  }

  /**
   * In every reachable state the cached balance is the sum of the ledger, no
   * entry is reversed twice, no milestone is paid twice, and no item or day is
   * charged twice.
   */
  lemma ReachableBalances(h: map<HabitId, Habit>, ids: seq<Identity>, c: map<ItemId, Item>, ops: seq<Op>)
    ensures var s := RunOps(Init(h, ids, c), ops);
      && s.wallet.coins == Sum(s.wallet.entries)
      && AtMostOnce(s.wallet.entries)
      && ReversalsCancel(s.wallet.entries)
      && PurchasesMatch(s)
      && Consistent(s)
  {
    var s := Init(h, ids, c);
    assert Consistent(s);
    RunKeepsConsistent(s, ops);
  }
}
