/**
 * A completed row holds exactly its current base award. Reversal looks up only
 * the latest award of a kind and does not ask whether it is already reversed;
 * these lemmas show that this is enough over every sequential run of toggles
 * and daily-plan writes.
 */
module BaseAwards {
  import opened Common
  import opened Streaks
  import opened Progression
  import opened Ledger
  import opened Completions
  import opened RewardLaws

  /** What the row's last transition into its present kind paid; a history of the run, not a column. */
  type Paid = map<CompletionId, int>

  /** Whether the step moved the slot into a newly rewarded state. */
  predicate Transition(s: State, t: State, slot: Slot) {
    Done(t.rows, slot) && (Done(s.rows, slot) ==> s.rows[slot].kind != t.rows[slot].kind)
  }

  function Remember(s: State, op: Op, paid: Paid): Paid {
    var t := Step(s, op);
    match op
    case DoToggle(slot, _, _) =>
      if Transition(s, t, slot) && slot.habit in s.habits
      then paid[t.rows[slot].id := BaseCoins(s.habits[slot.habit], t.rows[slot].kind)]
      else paid
    case DoPlanComplete(slot, _) =>
      if Transition(s, t, slot) then paid[t.rows[slot].id := CoinsPerCompletion(Full)] else paid
    case _ => paid
  }

  function History(s: State, ops: seq<Op>, paid: Paid): Paid
    decreases |ops|
  {
    if ops == [] then paid else History(Step(s, ops[0]), ops[1..], Remember(s, ops[0], paid))
  }

  ghost predicate NoLiveBase(entries: seq<Entry>, id: CompletionId) {
    forall i: nat, k: Kind :: !Live(entries, i, Base(k, id))
  }

  /** The award of this kind and amount counts; with amount zero, no award of the id does. */
  ghost predicate Holds(entries: seq<Entry>, kind: Kind, id: CompletionId, amount: int) {
    && amount >= 0
    && (amount == 0 ==> NoLiveBase(entries, id))
    && (amount > 0 ==> exists i: nat :: Live(entries, i, Base(kind, id)) && entries[i].amount == amount)
  }

  ghost predicate AllHold(s: State, paid: Paid) {
    forall slot :: Done(s.rows, slot) ==>
      s.rows[slot].id in paid && Holds(s.wallet.entries, s.rows[slot].kind, s.rows[slot].id, paid[s.rows[slot].id])
  }

  // ---- Other rows' awards are left alone ------------------------------------------------

  /** Between `entries` and `more`, only base awards of completion `id` are granted or reversed. */
  ghost predicate Focused(entries: seq<Entry>, more: seq<Entry>, id: CompletionId) {
    && entries <= more
    && (forall i :: 0 <= i < |entries| && entries[i].source.Base? && entries[i].source.completion != id ==>
         (Reversed(more, i) <==> Reversed(entries, i)))
    && (forall i :: |entries| <= i < |more| && more[i].source.Base? ==> more[i].source.completion == id)
  }

  lemma FocusedKeepsHolds(entries: seq<Entry>, more: seq<Entry>, id: CompletionId,
                          kind: Kind, other: CompletionId, amount: int)
    requires Focused(entries, more, id) && other != id && Holds(entries, kind, other, amount)
    ensures Holds(more, kind, other, amount)
  {
    forall i: nat, k | Live(more, i, Base(k, other))
      ensures Live(entries, i, Base(k, other))
    {
    }
    if amount > 0 {
      var i: nat :| Live(entries, i, Base(kind, other)) && entries[i].amount == amount;
      assert Live(more, i, Base(kind, other));
    }
  }

  lemma FocusedTrans(a: seq<Entry>, b: seq<Entry>, c: seq<Entry>, id: CompletionId)
    requires Focused(a, b, id) && Focused(b, c, id)
    ensures Focused(a, c, id)
  {
  }

  lemma PostBaseFocused(w: Wallet, kind: Kind, id: CompletionId, base: int)
    ensures Focused(w.entries, PostBase(w, kind, id, base).entries, id)
  {
  }

  lemma ReverseLatestFocused(w: Wallet, kind: Kind, id: CompletionId)
    requires Sound(w)
    ensures Focused(w.entries, ReverseLatest(w, Base(kind, id)).entries, id)
  {
    ReverseLatestExact(w, Base(kind, id));
  }

  lemma {:induction false} KeyedSources(offers: seq<Entry>)
    requires Keyed(offers)
    ensures forall source: Source :: HasSource(offers, source) ==> source.Streak? || source.Identity?
    decreases |offers|
  {
    if offers != [] {
      assert offers[|offers| - 1] in offers;
      KeyedSources(offers[..|offers| - 1]);
    }
  }

  lemma ClaimAllFocused(w: Wallet, offers: seq<Entry>, id: CompletionId)
    requires Keyed(offers)
    ensures Focused(w.entries, ClaimAll(w, offers).entries, id)
    ensures forall i: nat :: Reversed(ClaimAll(w, offers).entries, i) <==> Reversed(w.entries, i)
  {
    ClaimAllExact(w, offers);
    KeyedSources(offers);
    forall i: nat
      ensures Reversed(ClaimAll(w, offers).entries, i) <==> Reversed(w.entries, i)
    {
      assert !HasSource(offers, Reversal(i));
    }
  }

  lemma ReverseBrokenFocused(w: Wallet, habit: HabitId, days: set<Day>, id: CompletionId)
    ensures Focused(w.entries, ReverseBroken(w, habit, days, |w.entries|).entries, id)
    ensures forall i :: 0 <= i < |w.entries| && w.entries[i].source.Base? ==>
      (Reversed(ReverseBroken(w, habit, days, |w.entries|).entries, i) <==> Reversed(w.entries, i))
  {
    ReverseBrokenExact(w, habit, days, |w.entries|);
    ReverseBrokenContinues(w, habit, days, |w.entries|);
  }

  lemma ReverseCompletionFocused(s: State, habit: HabitId, kind: Kind, id: CompletionId)
    requires Sound(s.wallet)
    ensures Focused(s.wallet.entries, ReverseCompletion(s, habit, kind, id).entries, id)
  {
    var w := ReverseLatest(s.wallet, Base(kind, id));
    ReverseLatestFocused(s.wallet, kind, id);
    ReverseBrokenFocused(w, habit, Satisfied(s, habit), id);
    FocusedTrans(s.wallet.entries, w.entries, ReverseCompletion(s, habit, kind, id).entries, id);
  }

  lemma AwardFocused(s: State, habit: Habit, slot: Slot, kind: Kind, id: CompletionId)
    ensures Focused(s.wallet.entries, Award(s, habit, slot, kind, id).entries, id)
    ensures forall i: nat :: Reversed(Award(s, habit, slot, kind, id).entries, i) <==> Reversed(s.wallet.entries, i)
    ensures PostBase(s.wallet, kind, id, BaseCoins(habit, kind)).entries <= Award(s, habit, slot, kind, id).entries
  {
    var base := BaseCoins(habit, kind);
    var w := PostBase(s.wallet, kind, id, base);
    OffersKeyed(s, habit, slot, base);
    var v := ClaimAll(w, StreakOffersOf(s, habit, slot, base));
    PostBaseFocused(s.wallet, kind, id, base);
    ClaimAllFocused(w, StreakOffersOf(s, habit, slot, base), id);
    ClaimAllFocused(v, IdentityOffersOf(s, habit, slot, base), id);
    FocusedTrans(s.wallet.entries, w.entries, v.entries, id);
    FocusedTrans(s.wallet.entries, v.entries, Award(s, habit, slot, kind, id).entries, id);
    SourcesAppend(s.wallet.entries, Entry(base, Base(kind, id)));
  }

  // ---- The row's own award -----------------------------------------------------------------

  lemma NoLiveOutside(entries: seq<Entry>, rows: map<Slot, Row>, nextId: CompletionId, slot: Slot)
    requires IdsFresh(rows, nextId) && slot in rows && BasesMatch(entries, rows - {slot})
    ensures NoLiveBase(entries, rows[slot].id)
  {
    forall i: nat, k: Kind
      ensures !Live(entries, i, Base(k, rows[slot].id))
    {
      assert !Rewarded(rows - {slot}, k, rows[slot].id);
    }
  }

  lemma AwardPays(s: State, habit: Habit, slot: Slot)
    requires Sound(s.wallet) && IdsFresh(s.rows, s.nextId) && slot in s.rows
    requires BasesMatch(s.wallet.entries, s.rows - {slot})
    ensures var row := s.rows[slot];
      Holds(Award(s, habit, slot, row.kind, row.id).entries, row.kind, row.id, BaseCoins(habit, row.kind))
  {
    var row := s.rows[slot];
    var w := Award(s, habit, slot, row.kind, row.id);
    var n := |s.wallet.entries|;
    NoLiveOutside(s.wallet.entries, s.rows, s.nextId, slot);
    AwardFocused(s, habit, slot, row.kind, row.id);
    if BaseCoins(habit, row.kind) > 0 {
      NotYetReversed(s.wallet);
      assert w.entries[n] == PostBase(s.wallet, row.kind, row.id, BaseCoins(habit, row.kind)).entries[n];
      assert Live(w.entries, n, Base(row.kind, row.id));
    } else {
      AwardZero(s, habit, slot, row.kind, row.id);
    }
  }

  lemma AwardZero(s: State, habit: Habit, slot: Slot, kind: Kind, id: CompletionId)
    requires BaseCoins(habit, kind) == 0
    ensures Award(s, habit, slot, kind, id) == s.wallet
  {
  }

  /** A row that is not in the ledger yet cannot have been reversed. */
  lemma NotYetReversed(w: Wallet)
    requires Sound(w)
    ensures !Reversed(w.entries, |w.entries|)
  {
    if Reversed(w.entries, |w.entries|) {
      var j := SourceHasIndex(w.entries, Reversal(|w.entries|));
    }
  }

  // ---- Steps ----------------------------------------------------------------------------------

  /** All other rows keep what they hold when a step is focused on one slot's id. */
  lemma OthersHold(s: State, t: State, slot: Slot, id: CompletionId, paid: Paid, paid': Paid)
    requires AllHold(s, paid) && IdsFresh(t.rows, t.nextId)
    requires t.rows - {slot} == s.rows - {slot}
    requires slot in t.rows ==> t.rows[slot].id == id
    requires slot !in t.rows ==> forall other :: other in t.rows ==> t.rows[other].id != id
    requires Focused(s.wallet.entries, t.wallet.entries, id)
    requires forall c :: c in paid && c != id ==> c in paid' && paid'[c] == paid[c]
    requires Done(t.rows, slot) ==> id in paid' && Holds(t.wallet.entries, t.rows[slot].kind, id, paid'[id])
    ensures AllHold(t, paid')
  {
    forall other | Done(t.rows, other) && other != slot
      ensures t.rows[other].id in paid'
      ensures Holds(t.wallet.entries, t.rows[other].kind, t.rows[other].id, paid'[t.rows[other].id])
    {
      assert other in t.rows - {slot};
      assert Done(s.rows, other) && s.rows[other] == t.rows[other];
      assert t.rows[other].id != id;
      FocusedKeepsHolds(s.wallet.entries, t.wallet.entries, id, t.rows[other].kind, t.rows[other].id,
                          paid[t.rows[other].id]);
    }
  }

  lemma ToggleOffHolds(s: State, slot: Slot, paid: Paid)
    requires Consistent(s) && AllHold(s, paid) && slot in s.rows
    ensures AllHold(ToggleOff(s, slot), paid)
  {
    var row := s.rows[slot];
    var t := s.(rows := s.rows - {slot});
    ToggleOffKeeps(s, slot);
    if row.status {
      ReverseCompletionFocused(t, slot.habit, row.kind, row.id);
    }
    OthersHold(s, ToggleOff(s, slot), slot, row.id, paid, paid);
  }

  lemma AwardHolds(s: State, t: State, slot: Slot, habit: Habit, paid: Paid)
    requires Consistent(s) && AllHold(s, paid) && !Done(s.rows, slot) && Done(t.rows, slot)
    requires t == s.(rows := t.rows, nextId := t.nextId)
    requires t.rows - {slot} == s.rows - {slot}
    requires IdsFresh(t.rows, t.nextId)
    ensures var kind, id := t.rows[slot].kind, t.rows[slot].id;
      AllHold(t.(profile := AddXp(t.profile, XP_PER_COMPLETION), wallet := Award(t, habit, slot, kind, id)),
              paid[id := BaseCoins(habit, kind)])
  {
    var kind, id := t.rows[slot].kind, t.rows[slot].id;
    var u := t.(profile := AddXp(t.profile, XP_PER_COMPLETION), wallet := Award(t, habit, slot, kind, id));
    BasesWithoutRow(s.wallet.entries, s.rows, s.nextId, slot);
    AwardPays(t, habit, slot);
    AwardFocused(t, habit, slot, kind, id);
    OthersHold(s, u, slot, id, paid, paid[id := BaseCoins(habit, kind)]);
  }

  /** A row recorded as partial; one that was completed gives its award back. */
  lemma PartialHolds(s: State, t: State, slot: Slot, paid: Paid)
    requires Consistent(s) && AllHold(s, paid) && slot in t.rows && !Done(t.rows, slot)
    requires t == s.(rows := t.rows, nextId := t.nextId)
    requires t.rows - {slot} == s.rows - {slot}
    requires slot in s.rows ==> s.rows[slot].id == t.rows[slot].id
    requires IdsFresh(t.rows, t.nextId)
    ensures AllHold(if Done(s.rows, slot) then Withdraw(t, slot.habit, s.rows[slot]) else t, paid)
  {
    var u := if Done(s.rows, slot) then Withdraw(t, slot.habit, s.rows[slot]) else t;
    if Done(s.rows, slot) {
      ReverseCompletionFocused(t, slot.habit, s.rows[slot].kind, s.rows[slot].id);
    }
    OthersHold(s, u, slot, t.rows[slot].id, paid, paid);
  }

  lemma LogHolds(s: State, slot: Slot, habit: Habit, value: real, kind: Kind, paid: Paid)
    requires Consistent(s) && AllHold(s, paid)
    ensures var u := Log(s, slot, habit, value, kind);
      && slot in u.rows && u.rows[slot].kind == kind
      && AllHold(u, if Transition(s, u, slot) then paid[u.rows[slot].id := BaseCoins(habit, kind)] else paid)
  {
    var t := Record(s, slot, habit, value, kind);
    RecordFacts(s, slot, habit, value, kind);
    if !Succeeds(habit, value, kind) {
      PartialHolds(s, t, slot, paid);
    } else if !Done(s.rows, slot) {
      AwardHolds(s, t, slot, habit, paid);
    } else if s.rows[slot].kind != kind {
      SwapHolds(s, t, slot, habit, paid);
    } else {
      OthersHold(s, t, slot, t.rows[slot].id, paid, paid);
    }
  }

  lemma SwapHolds(s: State, t: State, slot: Slot, habit: Habit, paid: Paid)
    requires Consistent(s) && AllHold(s, paid) && Done(s.rows, slot) && Done(t.rows, slot)
    requires t == s.(rows := t.rows) && t.rows - {slot} == s.rows - {slot}
    requires t.rows[slot].id == s.rows[slot].id
    requires IdsFresh(t.rows, t.nextId) && PartialRowsAreFull(t.rows)
    ensures var id, kind := t.rows[slot].id, t.rows[slot].kind;
      var u := t.(wallet := ReverseCompletion(t, slot.habit, s.rows[slot].kind, id));
      AllHold(u.(wallet := Award(u, habit, slot, kind, id)), paid[id := BaseCoins(habit, kind)])
  {
    var row, id, kind := s.rows[slot], t.rows[slot].id, t.rows[slot].kind;
    var u := t.(wallet := ReverseCompletion(t, slot.habit, row.kind, id));
    var v := u.(wallet := Award(u, habit, slot, kind, id));
    WithdrawBase(s.wallet, s.rows, s.nextId, slot);
    ReverseCompletionKeepsBases(t, slot.habit, row.kind, id, t.rows - {slot});
    AwardPays(u, habit, slot);
    ReverseCompletionFocused(t, slot.habit, row.kind, id);
    AwardFocused(u, habit, slot, kind, id);
    FocusedTrans(s.wallet.entries, u.wallet.entries, v.wallet.entries, id);
    OthersHold(s, v, slot, id, paid, paid[id := BaseCoins(habit, kind)]);
  }

  lemma PlanCompleteHolds(s: State, slot: Slot, goal: real, task: TaskId, paid: Paid)
    requires Consistent(s) && AllHold(s, paid) && !Done(s.rows, slot)
    ensures var t := PlanRecord(s, slot, goal, task);
      var id := t.rows[slot].id;
      AllHold(t.(wallet := PostBase(t.wallet, Full, id, CoinsPerCompletion(Full))),
              paid[id := CoinsPerCompletion(Full)])
  {
    var t := PlanRecord(s, slot, goal, task);
    var id := t.rows[slot].id;
    var u := t.(wallet := PostBase(t.wallet, Full, id, CoinsPerCompletion(Full)));
    PlanRecordFacts(s, slot, goal, task);
    PostBaseFocused(s.wallet, Full, id, CoinsPerCompletion(Full));
    var n := |s.wallet.entries|;
    NotYetReversed(s.wallet);
    assert Live(u.wallet.entries, n, Base(Full, id));
    OthersHold(s, u, slot, id, paid, paid[id := CoinsPerCompletion(Full)]);
  }

  lemma PlanDropHolds(s: State, slot: Slot, withdraw: bool, paid: Paid)
    requires Consistent(s) && AllHold(s, paid) && slot in s.rows && (Done(s.rows, slot) ==> withdraw)
    ensures var row := s.rows[slot];
      var w := if withdraw then ReverseLatest(s.wallet, Base(row.kind, row.id)) else s.wallet;
      AllHold(s.(rows := s.rows - {slot}, wallet := w), paid)
  {
    var row := s.rows[slot];
    PlanDropKeeps(s, slot, withdraw, 0);
    ReverseLatestFocused(s.wallet, row.kind, row.id);
    var w := if withdraw then ReverseLatest(s.wallet, Base(row.kind, row.id)) else s.wallet;
    OthersHold(s, s.(rows := s.rows - {slot}, wallet := w), slot, row.id, paid, paid);
  }

  lemma BuyHolds(s: State, p: Purchase, paid: Paid)
    requires Consistent(s) && AllHold(s, paid)
    ensures Buy(s, p).Accepted? ==> AllHold(Buy(s, p).state, paid)
  {
    if Buy(s, p).Accepted? {
      var t := Buy(s, p).state;
      forall slot | Done(t.rows, slot)
        ensures Holds(t.wallet.entries, t.rows[slot].kind, t.rows[slot].id, paid[t.rows[slot].id])
      {
        assert Focused(s.wallet.entries, t.wallet.entries, s.nextId);
        FocusedKeepsHolds(s.wallet.entries, t.wallet.entries, s.nextId, s.rows[slot].kind, s.rows[slot].id,
                            paid[s.rows[slot].id]);
      }
    }
  }

  lemma ToggleHolds(s: State, op: Op, paid: Paid)
    requires Consistent(s) && AllHold(s, paid) && op.DoToggle?
    ensures AllHold(Step(s, op), Remember(s, op, paid))
  {
    if Toggle(s, op.slot, op.value, op.kind).Accepted? {
      var habit := s.habits[op.slot.habit];
      if op.slot in s.rows && op.value.None? && op.kind.None? {
        ToggleOffHolds(s, op.slot, paid);
      } else {
        LogHolds(s, op.slot, habit, op.value.GetOr(habit.goal), op.kind.GetOr(Full), paid);
      }
    }
  }

  /** What a plan task's completion writes, and what the history notes of it. */
  lemma PlanWriteShape(s: State, slot: Slot, task: TaskId, paid: Paid)
    requires slot.habit in s.habits && !Done(s.rows, slot)
    ensures var t := PlanRecord(s, slot, s.habits[slot.habit].goal, task);
      var u := Step(s, DoPlanComplete(slot, task));
      && u.rows == t.rows
      && u.wallet == PostBase(t.wallet, Full, t.rows[slot].id, CoinsPerCompletion(Full))
      && Remember(s, DoPlanComplete(slot, task), paid) == paid[t.rows[slot].id := CoinsPerCompletion(Full)]
  {
  }

  lemma PlanWriteHolds(s: State, op: Op, paid: Paid)
    requires Consistent(s) && AllHold(s, paid) && op.DoPlanComplete?
    ensures AllHold(Step(s, op), Remember(s, op, paid))
  {
    if op.slot.habit in s.habits && !Done(s.rows, op.slot) {
      PlanWriteMoves(s, op.slot, op.task, paid, Step(s, op), Remember(s, op, paid));
    }
  }

  lemma PlanWriteMoves(s: State, slot: Slot, task: TaskId, paid: Paid, u: State, paid': Paid)
    requires Consistent(s) && AllHold(s, paid) && slot.habit in s.habits && !Done(s.rows, slot)
    requires u == Step(s, DoPlanComplete(slot, task)) && paid' == Remember(s, DoPlanComplete(slot, task), paid)
    ensures AllHold(u, paid')
  {
    var goal := s.habits[slot.habit].goal;
    var t := PlanRecord(s, slot, goal, task);
    PlanWriteShape(s, slot, task, paid);
    PlanCompleteHolds(s, slot, goal, task, paid);
    SameHoldings(t.(wallet := PostBase(t.wallet, Full, t.rows[slot].id, CoinsPerCompletion(Full))), u, paid');
  }

  /** Only rows and ledger matter to what is held. */
  lemma SameHoldings(s: State, t: State, paid: Paid)
    requires AllHold(s, paid) && t.rows == s.rows && t.wallet.entries == s.wallet.entries
    ensures AllHold(t, paid)
  {
  }

  lemma PlanRemovalHolds(s: State, op: Op, paid: Paid)
    requires Consistent(s) && AllHold(s, paid) && (op.DoPlanUncomplete? || op.DoPlanRemove?)
    ensures AllHold(Step(s, op), Remember(s, op, paid))
  {
    if WrittenBy(s, op.slot, op.task) {
      PlanDropHolds(s, op.slot, op.DoPlanUncomplete? || s.rows[op.slot].status, paid);
    }
  }

  lemma StepHolds(s: State, op: Op, paid: Paid)
    requires Consistent(s) && AllHold(s, paid)
    ensures AllHold(Step(s, op), Remember(s, op, paid))
  {
    match op
    case DoToggle(_, _, _) => ToggleHolds(s, op, paid);
    case DoPlanComplete(_, _) => PlanWriteHolds(s, op, paid);
    case DoPlanUncomplete(_, _, _) => PlanRemovalHolds(s, op, paid);
    case DoPlanRemove(_, _, _) => PlanRemovalHolds(s, op, paid);
    case DoRedeem(item) =>
      if item in s.catalog {
        BuyHolds(s, ShopItem(item, s.catalog[item].cost), paid);
      }
    case DoFreeze(slot, today) => BuyHolds(s, FreezeDay(slot), paid);
    case DoRepair => RepairIsIdle(s);
    case DoConfigure(h, i, c) =>
  }

  lemma {:induction false} RunHolds(s: State, ops: seq<Op>, paid: Paid)
    requires Consistent(s) && AllHold(s, paid)
    ensures AllHold(RunOps(s, ops), History(s, ops, paid))
    decreases |ops|
  {
    if ops != [] {
      StepKeepsConsistent(s, ops[0]);
      StepHolds(s, ops[0], paid);
      RunHolds(Step(s, ops[0]), ops[1..], Remember(s, ops[0], paid));
    }
  }

  /**
   * The main result. In every reachable state a completed row holds exactly one
   * base award that counts, of its current kind and of the amount its last
   * transition paid, or none if that amount was zero. Partial and deleted rows
   * hold none.
   */
  lemma ReachableRowHoldsExactlyOne(h: map<HabitId, Habit>, ids: seq<Identity>, c: map<ItemId, Item>, ops: seq<Op>,
                                    slot: Slot)
    ensures var s := RunOps(Init(h, ids, c), ops);
      var paid := History(Init(h, ids, c), ops, map[]);
      Done(s.rows, slot) ==>
        var row := s.rows[slot];
        && row.id in paid
        && (paid[row.id] == 0 ==> NoLiveBase(s.wallet.entries, row.id))
        && (paid[row.id] != 0 ==> exists i: nat ::
             && Live(s.wallet.entries, i, Base(row.kind, row.id))
             && s.wallet.entries[i].amount == paid[row.id]
             && (forall j: nat, k :: Live(s.wallet.entries, j, Base(k, row.id)) ==> j == i && k == row.kind))
  {
    var s0 := Init(h, ids, c);
    assert Consistent(s0);
    RunHolds(s0, ops, map[]);
    RunKeepsConsistent(s0, ops);
    var s := RunOps(s0, ops);
    if Done(s.rows, slot) {
      var row := s.rows[slot];
      var paid := History(s0, ops, map[]);
      if paid[row.id] != 0 {
        var i: nat :| Live(s.wallet.entries, i, Base(row.kind, row.id)) && s.wallet.entries[i].amount == paid[row.id];
        forall j: nat, k | Live(s.wallet.entries, j, Base(k, row.id))
          ensures j == i && k == row.kind
        {
          OnlyLiveBase(s, slot, j, k);
          OnlyLiveBase(s, slot, i, row.kind);
        }
      }
    }
  }

  lemma OnlyLiveBase(s: State, slot: Slot, j: nat, k: Kind)
    requires Consistent(s) && Done(s.rows, slot)
    requires Live(s.wallet.entries, j, Base(k, s.rows[slot].id))
    ensures k == s.rows[slot].kind
    ensures Latest(s.wallet.entries, Base(k, s.rows[slot].id)) == Some(j)
  {
    var other :| Done(s.rows, other) && s.rows[other].id == s.rows[slot].id && s.rows[other].kind == k;
    assert other == slot;
  }

  lemma ReachablePartialHoldsNone(h: map<HabitId, Habit>, ids: seq<Identity>, c: map<ItemId, Item>, ops: seq<Op>,
                                  id: CompletionId)
    ensures var s := RunOps(Init(h, ids, c), ops);
      (forall slot :: Done(s.rows, slot) ==> s.rows[slot].id != id) ==> NoLiveBase(s.wallet.entries, id)
  {
    var s := RunOps(Init(h, ids, c), ops);
    assert Consistent(Init(h, ids, c));
    RunKeepsConsistent(Init(h, ids, c), ops);
    if forall slot :: Done(s.rows, slot) ==> s.rows[slot].id != id {
      forall i: nat, k: Kind
        ensures !Live(s.wallet.entries, i, Base(k, id))
      {
        assert !Rewarded(s.rows, k, id);
      }
    }
  }
}
