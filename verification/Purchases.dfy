/**
 * Concurrent purchases. A shop or freeze transaction runs as a sequence of
 * statements that interleave with every other transaction of the user; its
 * writes stay its own until it commits. The balance update takes the row lock
 * on the user, held until the transaction ends, and the unlock table's unique
 * index sees committed rows. Every interleaving is shown to be a sequence of
 * atomic purchases.
 */
module Purchases {
  import opened Common
  import opened Streaks
  import opened Schedule
  import opened Progression
  import opened Ledger
  import opened Completions
  import opened RewardLaws

  type TxId = nat

  /** `pending` is the balance the transaction read back from its own debit. */
  datatype Phase =
    | Started
    | Checked
    | Noted
    | Debited(pending: int)
    | Validated(pending: int)
    | Recorded(pending: int)
    | Committed
    | Aborted

  datatype Tx = Tx(purchase: Purchase, phase: Phase)

  datatype System = System(db: State, lock: Option<TxId>, txs: map<TxId, Tx>)

  datatype Action =
    | Begin(id: TxId, purchase: Purchase, today: Day)
    | CheckOwned(id: TxId)
    | InsertLedgerRow(id: TxId)
    | DebitBalance(id: TxId)
    | ValidateBalance(id: TxId)
    | RecordPurchase(id: TxId)
    | Commit(id: TxId)
    | Abort(id: TxId)
    | Other(op: Op)

  /** The checks made before the purchase protocol proper; the price comes from the stored item. */
  predicate Admits(db: State, p: Purchase, today: Day) {
    match p
    case ShopItem(item, cost) => item in db.catalog && db.catalog[item].active && cost == db.catalog[item].cost
    case FreezeDay(slot) =>
      && slot.habit in db.habits && !db.habits[slot.habit].archived && slot.day <= today
      && IsScheduled(db.habits[slot.habit].schedule, slot.day) && !Done(db.rows, slot)
  }

  predicate At(sys: System, id: TxId, phase: Phase) { id in sys.txs && sys.txs[id].phase == phase }

  /** Phases between the balance update and the end of the transaction. */
  predicate Locking(phase: Phase) { phase.Debited? || phase.Validated? || phase.Recorded? }

  predicate Ended(phase: Phase) { phase.Committed? || phase.Aborted? }

  function Move(sys: System, id: TxId, phase: Phase): System
    requires id in sys.txs
  {
    sys.(txs := sys.txs[id := sys.txs[id].(phase := phase)])
  }

  /** Ends a transaction and releases its lock. */
  function End(sys: System, id: TxId, phase: Phase): System
    requires id in sys.txs
  {
    Move(sys, id, phase).(lock := if sys.lock == Some(id) then None else sys.lock)
  }

  function Apply(sys: System, id: TxId, pending: int): State
    requires id in sys.txs
  {
    var p := sys.txs[id].purchase;
    Deliver(sys.db.(wallet := Wallet(pending, sys.db.wallet.entries + [Entry(-Cost(p), PurchaseSource(p))])), p)
  }

  /** What another transaction may do while a purchase holds the user's row. */
  predicate Unlocked(sys: System, op: Op) {
    sys.lock == None
    || (var t := Step(sys.db, op);
        t.wallet == sys.db.wallet && t.owned == sys.db.owned && t.frozen == sys.db.frozen)
  }

  /** One statement of one transaction; a statement that is not enabled waits. */
  function Next(sys: System, a: Action): System {
    match a
    case Begin(id, p, today) =>
      if id !in sys.txs && Admits(sys.db, p, today) then sys.(txs := sys.txs[id := Tx(p, Started)]) else sys
    case CheckOwned(id) =>
      if At(sys, id, Started) then
        if Taken(sys.db, sys.txs[id].purchase) then End(sys, id, Aborted) else Move(sys, id, Checked)
      else sys
    case InsertLedgerRow(id) =>
      if At(sys, id, Checked) then Move(sys, id, Noted) else sys
    case DebitBalance(id) =>
      if At(sys, id, Noted) && sys.lock == None then
        Move(sys, id, Debited(sys.db.wallet.coins - Cost(sys.txs[id].purchase))).(lock := Some(id))
      else sys
    case ValidateBalance(id) =>
      if id in sys.txs && sys.txs[id].phase.Debited? then
        var pending := sys.txs[id].phase.pending;
        if pending < 0 then End(sys, id, Aborted) else Move(sys, id, Validated(pending))
      else sys
    case RecordPurchase(id) =>
      if id in sys.txs && sys.txs[id].phase.Validated? then
        if Taken(sys.db, sys.txs[id].purchase) then End(sys, id, Aborted)
        else Move(sys, id, Recorded(sys.txs[id].phase.pending))
      else sys
    case Commit(id) =>
      if id in sys.txs && sys.txs[id].phase.Recorded? then
        End(sys, id, Committed).(db := Apply(sys, id, sys.txs[id].phase.pending))
      else sys
    case Abort(id) =>
      if id in sys.txs && !Ended(sys.txs[id].phase) then End(sys, id, Aborted) else sys
    case Other(op) =>
      if Unlocked(sys, op) then sys.(db := Step(sys.db, op)) else sys
  }

  // ---- The invariant ------------------------------------------------------------------

  ghost predicate Holding(sys: System, id: TxId)
    requires id in sys.txs
  {
    var tx := sys.txs[id];
    && (Locking(tx.phase) ==> sys.lock == Some(id) && tx.phase.pending == sys.db.wallet.coins - Cost(tx.purchase))
    && (tx.phase.Validated? || tx.phase.Recorded? ==> tx.phase.pending >= 0)
    && (tx.phase.Recorded? ==> !Taken(sys.db, tx.purchase))
    && (tx.phase.Committed? ==> Taken(sys.db, tx.purchase))
  }

  ghost predicate Safe(sys: System) {
    && Consistent(sys.db)
    && (forall id :: id in sys.txs ==> Holding(sys, id))
    && (forall a, b :: a != b && At(sys, a, Committed) && At(sys, b, Committed) ==>
         PurchaseSource(sys.txs[a].purchase) != PurchaseSource(sys.txs[b].purchase))
  }

  /** No operation ever takes back an unlocked item or a frozen day. */
  lemma StepKeepsGoods(s: State, op: Op)
    ensures s.owned <= Step(s, op).owned && s.frozen <= Step(s, op).frozen
  {
  }

  lemma SameSourceSameGoods(s: State, p: Purchase, q: Purchase)
    requires PurchaseSource(p) == PurchaseSource(q)
    ensures Taken(s, p) == Taken(s, q)
  {
  }

  // ---- Atomic view ------------------------------------------------------------------------

  datatype Atomic = AtomicBuy(id: TxId, purchase: Purchase) | AtomicOp(op: Op)

  /** The atomic operation an action amounts to, if any. */
  function Effect(sys: System, a: Action): seq<Atomic> {
    match a
    case Commit(id) =>
      if id in sys.txs && sys.txs[id].phase.Recorded? then [AtomicBuy(id, sys.txs[id].purchase)] else []
    case Other(op) => if Unlocked(sys, op) then [AtomicOp(op)] else []
    case _ => []
  }

  function Perform1(db: State, x: Atomic): State {
    match x
    case AtomicBuy(_, p) => (match Buy(db, p) case Accepted(t, _) => t case Rejected(_) => db)
    case AtomicOp(op) => Step(db, op)
  }

  function Sequential(db: State, xs: seq<Atomic>): State
    decreases |xs|
  {
    if xs == [] then db else Sequential(Perform1(db, xs[0]), xs[1..])
  }

  /** Every atomic purchase of the list succeeds and leaves the balance non-negative. */
  ghost predicate AllSucceed(db: State, xs: seq<Atomic>)
    decreases |xs|
  {
    xs == [] ||
    (&& (xs[0].AtomicBuy? ==> Buy(db, xs[0].purchase).Accepted? && Perform1(db, xs[0]).wallet.coins >= 0)
     && AllSucceed(Perform1(db, xs[0]), xs[1..]))
  }

  function RunActions(sys: System, actions: seq<Action>): System
    decreases |actions|
  {
    if actions == [] then sys else RunActions(Next(sys, actions[0]), actions[1..])
  }

  function Effects(sys: System, actions: seq<Action>): seq<Atomic>
    decreases |actions|
  {
    if actions == [] then [] else Effect(sys, actions[0]) + Effects(Next(sys, actions[0]), actions[1..])
  }

  // ---- One step -----------------------------------------------------------------------------

  /** A commit writes exactly what an atomic purchase on the committed state would. */
  lemma CommitIsBuy(sys: System, id: TxId)
    requires Safe(sys) && id in sys.txs && sys.txs[id].phase.Recorded?
    ensures var p := sys.txs[id].purchase;
      && Buy(sys.db, p) == Accepted(Next(sys, Commit(id)).db, -Cost(p))
      && Next(sys, Commit(id)).db.wallet.coins >= 0
      && Consistent(Next(sys, Commit(id)).db)
      && Taken(Next(sys, Commit(id)).db, p)
  {
    assert Holding(sys, id);
    BuyKeeps(sys.db, sys.txs[id].purchase);
  }

  /** While one transaction holds the lock, the others are not past their debit. */
  lemma OthersHold(sys: System, next: System, id: TxId, other: TxId)
    requires id in sys.txs && Holding(sys, id) && Locking(sys.txs[id].phase)
    requires other != id && other in sys.txs && Holding(sys, other)
    requires other in next.txs && next.txs[other] == sys.txs[other]
    requires Taken(sys.db, sys.txs[other].purchase) ==> Taken(next.db, sys.txs[other].purchase)
    ensures Holding(next, other)
  {
  }

  /** The item's price, or 100 coins for a freeze, left a balance that covered it, in one row. */
  predicate Charged(db: State, next: State, p: Purchase) {
    match p
    case ShopItem(item, cost) =>
      && db.wallet.coins >= cost && item !in db.owned
      && next == db.(owned := db.owned + {item},
                     wallet := Wallet(db.wallet.coins - cost,
                                      db.wallet.entries + [Entry(-cost, Source.Redemption(item))]))
    case FreezeDay(slot) =>
      && db.wallet.coins >= 100 && slot !in db.frozen
      && next == db.(frozen := db.frozen + {slot},
                     wallet := Wallet(db.wallet.coins - 100,
                                      db.wallet.entries + [Entry(-100, Source.Freeze(slot))]))
  }

  lemma BuyCharges(db: State, p: Purchase)
    ensures Buy(db, p).Accepted? ==> Charged(db, Buy(db, p).state, p)
  {
  }

  /** A commit charges what was bought, and changes nothing else. */
  lemma CommitCharges(sys: System, id: TxId)
    requires Safe(sys) && id in sys.txs && sys.txs[id].phase.Recorded?
    ensures Charged(sys.db, Next(sys, Commit(id)).db, sys.txs[id].purchase)
  {
    CommitIsBuy(sys, id);
    BuyCharges(sys.db, sys.txs[id].purchase);
  }

  lemma CommitKeepsGoods(sys: System, id: TxId, q: Purchase)
    requires id in sys.txs && sys.txs[id].phase.Recorded? && Taken(sys.db, q)
    ensures Taken(Next(sys, Commit(id)).db, q)
  {
  }

  lemma CommitKeepsSafe(sys: System, id: TxId)
    requires Safe(sys) && id in sys.txs && sys.txs[id].phase.Recorded?
    ensures Safe(Next(sys, Commit(id)))
  {
    CommitIsBuy(sys, id);
    var next := Next(sys, Commit(id));
    CommitFrame(sys, id);
    forall other | other in next.txs
      ensures Holding(next, other)
      ensures other != id && next.txs[other].phase.Committed? ==>
        PurchaseSource(next.txs[other].purchase) != PurchaseSource(sys.txs[id].purchase)
    {
      if other != id {
        CommitKeepsOther(sys, id, other);
      }
    }
  }

  lemma CommitFrame(sys: System, id: TxId)
    requires Safe(sys) && id in sys.txs && sys.txs[id].phase.Recorded?
    ensures var next := Next(sys, Commit(id));
      && next.txs == sys.txs[id := Tx(sys.txs[id].purchase, Committed)]
      && Holding(sys, id) && Holding(next, id)
  {
    CommitIsBuy(sys, id);
  }

  lemma CommitKeepsOther(sys: System, id: TxId, other: TxId)
    requires id in sys.txs && Holding(sys, id) && sys.txs[id].phase.Recorded?
    requires other != id && other in sys.txs && Holding(sys, other)
    ensures Holding(Next(sys, Commit(id)), other)
    ensures sys.txs[other].phase.Committed? ==>
      PurchaseSource(sys.txs[other].purchase) != PurchaseSource(sys.txs[id].purchase)
  {
    if Taken(sys.db, sys.txs[other].purchase) {
      CommitKeepsGoods(sys, id, sys.txs[other].purchase);
    }
    OthersHold(sys, Next(sys, Commit(id)), id, other);
    var p, q := sys.txs[id].purchase, sys.txs[other].purchase;
    if sys.txs[other].phase.Committed? && PurchaseSource(q) == PurchaseSource(p) {
      SameSourceSameGoods(sys.db, q, p);
    }
  }

  lemma OtherKeepsSafe(sys: System, op: Op)
    requires Safe(sys)
    ensures Safe(Next(sys, Other(op)))
  {
    StepKeepsConsistent(sys.db, op);
    StepKeepsGoods(sys.db, op);
    if Unlocked(sys, op) {
      DatabaseMoves(sys, Step(sys.db, op));
    }
  }

  /** Another transaction may write while no purchase holds the user's row, or beside what purchases read. */
  lemma DatabaseMoves(sys: System, db: State)
    requires Safe(sys) && Consistent(db) && sys.db.owned <= db.owned && sys.db.frozen <= db.frozen
    requires sys.lock == None
          || (db.wallet == sys.db.wallet && db.owned == sys.db.owned && db.frozen == sys.db.frozen)
    ensures Safe(sys.(db := db))
  {
    forall id | id in sys.txs
      ensures Holding(sys.(db := db), id)
    {
      assert Holding(sys, id);
    }
  }

  /** Every other statement changes one transaction's own phase. */
  lemma PhaseKeepsHolding(sys: System, a: Action, id: TxId)
    requires Safe(sys) && !a.Commit? && !a.Other? && id in Next(sys, a).txs
    ensures Holding(Next(sys, a), id)
    ensures Next(sys, a).txs[id].phase.Committed? ==> id in sys.txs && Next(sys, a).txs[id] == sys.txs[id]
  {
    if id in sys.txs {
      assert Holding(sys, id);
    }
    if sys.lock.Some? && sys.lock.value in sys.txs {
      assert Holding(sys, sys.lock.value);
    }
  }

  lemma PhaseKeepsSafe(sys: System, a: Action)
    requires Safe(sys) && !a.Commit? && !a.Other?
    ensures Safe(Next(sys, a)) && Next(sys, a).db == sys.db
  {
    var next := Next(sys, a);
    assert next.db == sys.db;
    forall id | id in next.txs
      ensures Holding(next, id)
      ensures next.txs[id].phase.Committed? ==> id in sys.txs && next.txs[id] == sys.txs[id]
    {
      PhaseKeepsHolding(sys, a, id);
    }
  }

  lemma CommitRefines(sys: System, id: TxId)
    requires Safe(sys) && id in sys.txs && sys.txs[id].phase.Recorded?
    ensures Safe(Next(sys, Commit(id)))
    ensures Next(sys, Commit(id)).db == Sequential(sys.db, Effect(sys, Commit(id)))
    ensures AllSucceed(sys.db, Effect(sys, Commit(id)))
  {
    CommitKeepsSafe(sys, id);
    CommitIsBuy(sys, id);
  }

  /** The committed database moves only by atomic purchases and the other transactions' operations. */
  lemma StepRefines(sys: System, a: Action)
    requires Safe(sys)
    ensures Safe(Next(sys, a))
    ensures Next(sys, a).db == Sequential(sys.db, Effect(sys, a))
    ensures AllSucceed(sys.db, Effect(sys, a))
  {
    match a
    case Commit(id) =>
      if id in sys.txs && sys.txs[id].phase.Recorded? {
        CommitRefines(sys, id);
      }
    case Other(op) => OtherKeepsSafe(sys, op);
    case _ => PhaseKeepsSafe(sys, a);
  }

  lemma {:induction false} SequentialConcat(db: State, xs: seq<Atomic>, ys: seq<Atomic>)
    ensures Sequential(db, xs + ys) == Sequential(Sequential(db, xs), ys)
    ensures AllSucceed(db, xs + ys) <==> AllSucceed(db, xs) && AllSucceed(Sequential(db, xs), ys)
    decreases |xs|
  {
    if xs == [] {
      assert xs + ys == ys;
    } else {
      assert (xs + ys)[1..] == xs[1..] + ys;
      SequentialConcat(Perform1(db, xs[0]), xs[1..], ys);
    }
  }

  /**
   * Every interleaving is serializable: the committed database it reaches is
   * the one its commits and other operations reach one after another, and each
   * of those purchases succeeds with a non-negative balance.
   */
  lemma {:induction false} InterleavingsAreSequential(sys: System, actions: seq<Action>)
    requires Safe(sys)
    ensures Safe(RunActions(sys, actions))
    ensures RunActions(sys, actions).db == Sequential(sys.db, Effects(sys, actions))
    ensures AllSucceed(sys.db, Effects(sys, actions))
    decreases |actions|
  {
    if actions != [] {
      StepRefines(sys, actions[0]);
      InterleavingsAreSequential(Next(sys, actions[0]), actions[1..]);
      SequentialConcat(sys.db, Effect(sys, actions[0]), Effects(Next(sys, actions[0]), actions[1..]));
    }
  }

  // ---- Exactly the committed transactions are charged -------------------------------------------

  ghost predicate Buys(xs: seq<Atomic>, id: TxId) {
    exists k :: 0 <= k < |xs| && xs[k].AtomicBuy? && xs[k].id == id
  }

  ghost predicate BuysOnce(xs: seq<Atomic>) {
    forall j, k :: 0 <= j < k < |xs| && xs[j].AtomicBuy? && xs[k].AtomicBuy? ==> xs[j].id != xs[k].id
  }

  predicate IsCommitted(sys: System, id: TxId) { At(sys, id, Committed) }

  lemma BuysConcat(xs: seq<Atomic>, ys: seq<Atomic>, id: TxId)
    ensures Buys(xs + ys, id) <==> Buys(xs, id) || Buys(ys, id)
  {
    if Buys(ys, id) {
      var k :| 0 <= k < |ys| && ys[k].AtomicBuy? && ys[k].id == id;
      assert (xs + ys)[|xs| + k] == ys[k];
    }
    if Buys(xs, id) {
      var k :| 0 <= k < |xs| && xs[k].AtomicBuy? && xs[k].id == id;
      assert (xs + ys)[k] == xs[k];
    }
  }

  lemma StepBuys(sys: System, a: Action, id: TxId)
    ensures Buys(Effect(sys, a), id) <==> IsCommitted(Next(sys, a), id) && !IsCommitted(sys, id)
    ensures IsCommitted(sys, id) ==> IsCommitted(Next(sys, a), id)
    ensures |Effect(sys, a)| <= 1
  {
    if a.Commit? && a.id == id && id in sys.txs && sys.txs[id].phase.Recorded? {
      assert Effect(sys, a)[0].AtomicBuy? && Effect(sys, a)[0].id == id;
    }
  }

  /** A transaction is charged if and only if it commits, and then exactly once; an aborted one leaves no debit. */
  lemma {:induction false} ChargedIffCommitted(sys: System, actions: seq<Action>, id: TxId)
    ensures Buys(Effects(sys, actions), id) <==> IsCommitted(RunActions(sys, actions), id) && !IsCommitted(sys, id)
    ensures IsCommitted(sys, id) ==> IsCommitted(RunActions(sys, actions), id)
    ensures BuysOnce(Effects(sys, actions))
    decreases |actions|
  {
    if actions != [] {
      var next := Next(sys, actions[0]);
      var first, rest := Effect(sys, actions[0]), Effects(next, actions[1..]);
      StepBuys(sys, actions[0], id);
      ChargedIffCommitted(next, actions[1..], id);
      BuysConcat(first, rest, id);
      if first != [] && first[0].AtomicBuy? {
        StepBuys(sys, actions[0], first[0].id);
        ChargedIffCommitted(next, actions[1..], first[0].id);
        assert !Buys(rest, first[0].id);
      }
    }
  }

  /** Each item and each frozen day has exactly one debit in the ledger, whatever the interleaving. */
  lemma OneDebitPerPurchase(sys: System, actions: seq<Action>, p: Purchase)
    requires Safe(sys)
    ensures var t := RunActions(sys, actions).db;
      && (Taken(t, p) <==> HasSource(t.wallet.entries, PurchaseSource(p)))
      && (forall i, j :: 0 <= i < j < |t.wallet.entries| && t.wallet.entries[i].source == PurchaseSource(p) ==>
           t.wallet.entries[j].source != PurchaseSource(p))
      && t.wallet.coins == Sum(t.wallet.entries)
  {
    InterleavingsAreSequential(sys, actions);
  }

  // ---- What the checks at the start no longer promise at the commit ---------------------------------

  /** The whole service call, checks included, on one state. */
  function ServiceCall(db: State, p: Purchase, today: Day): Outcome {
    match p
    case ShopItem(item, _) => RedeemItem(db, item)
    case FreezeDay(slot) => PurchaseFreeze(db, slot, today)
  }

  lemma AdmittedCall(db: State, p: Purchase, today: Day)
    ensures Admits(db, p, today) ==> ServiceCall(db, p, today) == Buy(db, p)
    ensures !Admits(db, p, today) && p.FreezeDay? ==> ServiceCall(db, p, today).Rejected?
  {
  }

  /** A call that charges another price leaves another balance. */
  lemma OtherPrice(db: State, item: ItemId, cost: int, other: int)
    requires cost != other && Buy(db, ShopItem(item, cost)).Accepted?
    ensures Buy(db, ShopItem(item, other)) != Buy(db, ShopItem(item, cost))
  {
  }

  /**
   * A commit is the service's own call on the committed state exactly when the
   * checks made at the start still hold there: the item is on sale at the price
   * read, or the day is still scheduled, open and of an active habit.
   */
  lemma CommitIsServiceCall(sys: System, id: TxId, today: Day)
    requires Safe(sys) && id in sys.txs && sys.txs[id].phase.Recorded?
    ensures var p := sys.txs[id].purchase;
      ServiceCall(sys.db, p, today) == Accepted(Next(sys, Commit(id)).db, -Cost(p)) <==> Admits(sys.db, p, today)
  {
    var p := sys.txs[id].purchase;
    CommitIsBuy(sys, id);
    AdmittedCall(sys.db, p, today);
    if p.ShopItem? && p.item in sys.db.catalog && sys.db.catalog[p.item].cost != p.cost {
      OtherPrice(sys.db, p.item, p.cost, sys.db.catalog[p.item].cost);
    }
  }

  /** The statements after a purchase has started. */
  function Statements(id: TxId): seq<Action> {
    [CheckOwned(id), InsertLedgerRow(id), DebitBalance(id), ValidateBalance(id), RecordPurchase(id), Commit(id)]
  }

  /** Begin a freeze, complete its day, and let the freeze go on. */
  function FreezeRace(id: TxId, slot: Slot, today: Day): seq<Action> {
    [Begin(id, FreezeDay(slot), today)] + ([Other(DoToggle(slot, None, None))] + Statements(id))
  }

  lemma {:induction false} RunFirst(sys: System, a: Action, rest: seq<Action>)
    ensures RunActions(sys, [a] + rest) == RunActions(Next(sys, a), rest)
  {
    assert ([a] + rest)[1..] == rest;
  }

  lemma DebitCommits(sys: System, id: TxId, slot: Slot)
    requires id in sys.txs && sys.txs[id] == Tx(FreezeDay(slot), Debited(sys.db.wallet.coins - STREAK_FREEZE_COST))
    requires slot !in sys.db.frozen && sys.db.wallet.coins >= STREAK_FREEZE_COST
    ensures var t := RunActions(sys, [ValidateBalance(id), RecordPurchase(id), Commit(id)]);
      IsCommitted(t, id) && slot in t.db.frozen && t.db.rows == sys.db.rows
  {
    var d := Next(sys, ValidateBalance(id));
    var e := Next(d, RecordPurchase(id));
    RunFirst(e, Commit(id), []);
    RunFirst(d, RecordPurchase(id), [Commit(id)]);
    RunFirst(sys, ValidateBalance(id), [RecordPurchase(id), Commit(id)]);
  }

  /** The protocol's own statements, run without interference on a state that can pay. */
  lemma FreezeGoesThrough(sys: System, id: TxId, slot: Slot)
    requires At(sys, id, Started) && sys.txs[id].purchase == FreezeDay(slot) && sys.lock == None
    requires slot !in sys.db.frozen && sys.db.wallet.coins >= STREAK_FREEZE_COST
    ensures var t := RunActions(sys, Statements(id));
      IsCommitted(t, id) && slot in t.db.frozen && t.db.rows == sys.db.rows
  {
    var last := [ValidateBalance(id), RecordPurchase(id), Commit(id)];
    var a := Next(sys, CheckOwned(id));
    var b := Next(a, InsertLedgerRow(id));
    DebitCommits(Next(b, DebitBalance(id)), id, slot);
    RunFirst(b, DebitBalance(id), last);
    RunFirst(a, InsertLedgerRow(id), [DebitBalance(id)] + last);
    RunFirst(sys, CheckOwned(id), [InsertLedgerRow(id)] + ([DebitBalance(id)] + last));
    assert [CheckOwned(id)] + ([InsertLedgerRow(id)] + ([DebitBalance(id)] + last)) == Statements(id);
  }

  /** A toggle between the start of a freeze and its debit. */
  lemma ToggleMeanwhile(sys: System, id: TxId, slot: Slot, today: Day)
    requires sys.lock == None && id !in sys.txs && Admits(sys.db, FreezeDay(slot), today) && slot !in sys.db.rows
    ensures var t := Next(Next(sys, Begin(id, FreezeDay(slot), today)), Other(DoToggle(slot, None, None)));
      && At(t, id, Started) && t.txs[id].purchase == FreezeDay(slot) && t.lock == None
      && t.db == Step(sys.db, DoToggle(slot, None, None))
      && t.db.frozen == sys.db.frozen && Done(t.db.rows, slot)
  {
  }

  /** So a freeze can be charged for a day that is completed by then. */
  lemma FreezeOfCompletedDay(sys: System, id: TxId, slot: Slot, today: Day)
    requires sys.lock == None && id !in sys.txs && Admits(sys.db, FreezeDay(slot), today)
    requires slot !in sys.db.frozen && slot !in sys.db.rows
    requires Step(sys.db, DoToggle(slot, None, None)).wallet.coins >= STREAK_FREEZE_COST
    ensures var t := RunActions(sys, FreezeRace(id, slot, today));
      IsCommitted(t, id) && slot in t.db.frozen && Done(t.db.rows, slot)
  {
    var begin, toggle := Begin(id, FreezeDay(slot), today), Other(DoToggle(slot, None, None));
    ToggleMeanwhile(sys, id, slot, today);
    FreezeGoesThrough(Next(Next(sys, begin), toggle), id, slot);
    RunFirstTwo(sys, begin, toggle, Statements(id));
  }

  lemma RunFirstTwo(sys: System, a: Action, b: Action, rest: seq<Action>)
    ensures RunActions(sys, [a] + ([b] + rest)) == RunActions(Next(Next(sys, a), b), rest)
  {
    RunFirst(Next(sys, a), b, rest);
    RunFirst(sys, a, [b] + rest);
  }
}
