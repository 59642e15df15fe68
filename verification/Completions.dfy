/**
 * One user's habits, completions, freezes, unlocks and wallet as a value, and
 * every operation that touches the wallet as a function on it.
 *
 * A completion row moves between absent, partial, FULL, MINIMUM and EMERGENCY.
 * The functions follow the services branch by branch; the class in
 * HabitStore.dfy is proved to compute them.
 */
module Completions {
  import opened Common
  import opened Streaks
  import opened Schedule
  import opened Progression
  import opened Ledger

  type TaskId = string

  datatype Habit = Habit(
    goal: real,
    hasMinimum: bool,
    hasEmergency: bool,
    archived: bool,
    fullCoins: Option<int>,
    minimumCoins: Option<int>,
    emergencyCoins: Option<int>,
    streakBonus: bool,
    identityBonus: bool,
    schedule: Schedule)

  /** `task` is set when a daily-plan task wrote the row. */
  datatype Row = Row(id: CompletionId, status: bool, value: real, kind: Kind, task: Option<TaskId>)

  datatype Identity = Identity(id: IdentityId, active: bool, habits: set<HabitId>)

  datatype Item = Item(cost: int, active: bool)

  datatype State = State(
    wallet: Wallet,
    rows: map<Slot, Row>,
    nextId: CompletionId,
    frozen: set<Slot>,
    owned: set<ItemId>,
    profile: Profile,
    habits: map<HabitId, Habit>,
    identities: seq<Identity>,
    catalog: map<ItemId, Item>)

  datatype Error = NotFound | BadRequest | Conflict

  /** A rejected call changes nothing. `delta` is the coin change the call reports. */
  datatype Outcome = Accepted(state: State, delta: int) | Rejected(error: Error)

  const STREAK_MILESTONES: seq<nat> := [3, 7, 14, 30, 60, 100]
  const IDENTITY_THRESHOLDS: seq<nat> := [15, 50, 125, 250]
  const IDENTITY_MILESTONE_BONUS: int := 20
  const STREAK_FREEZE_COST: int := 100
  const RECENT_WINDOW: nat := 400

  function CoinsPerCompletion(kind: Kind): int {
    match kind
    case Full => 10
    case Minimum => 3
    case Emergency => 2
  }

  function MilestoneBonus(milestone: nat): int {
    match milestone
    case 3 => 5
    case 7 => 25
    case 14 => 50
    case 30 => 100
    case 60 => 250
    case 100 => 500
    case _ => 25
  }

  /** Base coins of a kind, honouring the habit's own override. */
  function BaseCoins(habit: Habit, kind: Kind): (coins: int)
    ensures coins >= 0
  {
    var override := match kind
      case Full => habit.fullCoins
      case Minimum => habit.minimumCoins
      case Emergency => habit.emergencyCoins;
    match override
    case None => CoinsPerCompletion(kind)
    case Some(c) => Max(0, c)
  }

  // ---- What the reward engine reads -------------------------------------------

  predicate Done(rows: map<Slot, Row>, slot: Slot) { slot in rows && rows[slot].status }

  function CompletedDays(rows: map<Slot, Row>, habit: HabitId): (days: set<Day>)
    ensures forall d :: d in days <==> Done(rows, Slot(habit, d))
  {
    set slot | slot in rows.Keys && slot.habit == habit && rows[slot].status :: slot.day
  }

  function FrozenDays(frozen: set<Slot>, habit: HabitId): (days: set<Day>)
    ensures forall d :: d in days <==> Slot(habit, d) in frozen
  {
    set slot | slot in frozen && slot.habit == habit :: slot.day
  }

  function Later(days: set<Day>, d: Day): set<Day> { set e | e in days && e > d }

  /** The latest `n` days of a set. */
  function Recent(days: set<Day>, n: nat): set<Day> { set d | d in days && |Later(days, d)| < n }

  /** Days that count for streaks: the most recent completed days and every frozen day. */
  function Satisfied(s: State, habit: HabitId): set<Day> {
    Recent(CompletedDays(s.rows, habit), RECENT_WINDOW) + FrozenDays(s.frozen, habit)
  }

  // ---- Awards -------------------------------------------------------------------

  function StreakOffers(habit: HabitId, streak: nat, cycleStart: Day, milestones: seq<nat>): seq<Entry> {
    if milestones == [] || streak < milestones[0] then []
    else
      [Entry(MilestoneBonus(milestones[0]), Source.Streak(habit, milestones[0], cycleStart))]
      + StreakOffers(habit, streak, cycleStart, milestones[1..])
  }

  /** Completed rows of the given habits, by whether the full version was done. */
  function EvidenceSlots(rows: map<Slot, Row>, habits: set<HabitId>, full: bool): set<Slot> {
    set slot | slot in rows.Keys && slot.habit in habits && rows[slot].status && rows[slot].kind.Full? == full
  }

  function EvidencePoints(rows: map<Slot, Row>, habits: set<HabitId>): nat {
    2 * |EvidenceSlots(rows, habits, true)| + |EvidenceSlots(rows, habits, false)|
  }

  function ThresholdOffers(identity: IdentityId, points: nat, thresholds: seq<nat>): seq<Entry> {
    if thresholds == [] then []
    else
      (if points < thresholds[0] then []
       else [Entry(IDENTITY_MILESTONE_BONUS, Source.Identity(identity, thresholds[0]))])
      + ThresholdOffers(identity, points, thresholds[1..])
  }

  function IdentityOffers(rows: map<Slot, Row>, habit: HabitId, identities: seq<Identity>): seq<Entry> {
    if identities == [] then []
    else
      (if identities[0].active && habit in identities[0].habits
       then ThresholdOffers(identities[0].id, EvidencePoints(rows, identities[0].habits), IDENTITY_THRESHOLDS)
       else [])
      + IdentityOffers(rows, habit, identities[1..])
  }

  /** Streak bonuses on offer to a completion of `slot`; none when the base reward is zero. */
  function StreakOffersOf(s: State, habit: Habit, slot: Slot, base: int): seq<Entry> {
    if habit.streakBonus && base > 0 then
      var days := Satisfied(s, slot.habit);
      StreakOffers(slot.habit, CurrentStreak(days, slot.day), CycleStart(days, slot.day), STREAK_MILESTONES)
    else []
  }

  function IdentityOffersOf(s: State, habit: Habit, slot: Slot, base: int): seq<Entry> {
    if habit.identityBonus && base > 0 then IdentityOffers(s.rows, slot.habit, s.identities) else []
  }

  function PostBase(w: Wallet, kind: Kind, id: CompletionId, base: int): Wallet {
    if base > 0 then Post(w, Entry(base, Base(kind, id))) else w
  }

  /** Everything a successful completion transition earns. */
  function Award(s: State, habit: Habit, slot: Slot, kind: Kind, id: CompletionId): Wallet {
    var base := BaseCoins(habit, kind);
    ClaimAll(
      ClaimAll(PostBase(s.wallet, kind, id, base), StreakOffersOf(s, habit, slot, base)),
      IdentityOffersOf(s, habit, slot, base))
  }

  /** Takes back the base grant and every streak bonus of the habit whose cycle is broken in `s`. */
  function ReverseCompletion(s: State, habit: HabitId, kind: Kind, id: CompletionId): Wallet {
    var w := ReverseLatest(s.wallet, Base(kind, id));
    ReverseBroken(w, habit, Satisfied(s, habit), |w.entries|)
  }

  // ---- Habit toggles ----------------------------------------------------------------

  function Toggle(s: State, slot: Slot, value: Option<real>, kindInput: Option<Kind>): Outcome {
    if slot.habit !in s.habits then Rejected(NotFound)
    else
      var habit := s.habits[slot.habit];
      var kind := kindInput.GetOr(Full);
      if (kind.Minimum? && !habit.hasMinimum) || (kind.Emergency? && !habit.hasEmergency) then Rejected(BadRequest)
      else if slot !in s.rows && habit.archived then Rejected(Conflict)
      else
        var t :=
          if slot in s.rows && value.None? && kindInput.None? then ToggleOff(s, slot)
          else Log(s, slot, habit, value.GetOr(habit.goal), kind);
        Accepted(t, t.wallet.coins - s.wallet.coins)
  }

  /** Removes the row; a completed one also gives back its experience and rewards. */
  function ToggleOff(s: State, slot: Slot): State
    requires slot in s.rows
  {
    var row := s.rows[slot];
    var t := s.(rows := s.rows - {slot});
    if row.status then Withdraw(t, slot.habit, row) else t
  }

  function Withdraw(t: State, habit: HabitId, prior: Row): State {
    t.(profile := AddXp(t.profile, -XP_PER_COMPLETION),
       wallet := ReverseCompletion(t, habit, prior.kind, prior.id))
  }

  predicate Succeeds(habit: Habit, value: real, kind: Kind) { kind.Full? ==> value >= habit.goal }

  /** The row after a create or update, before any reward. */
  function Record(s: State, slot: Slot, habit: Habit, value: real, kind: Kind): State {
    var completed := Succeeds(habit, value, kind);
    if slot in s.rows then
      s.(rows := s.rows[slot := s.rows[slot].(status := completed, value := value, kind := kind)])
    else
      s.(rows := s.rows[slot := Row(s.nextId, completed, value, kind, None)], nextId := s.nextId + 1)
  }

  function Log(s: State, slot: Slot, habit: Habit, value: real, kind: Kind): State {
    var t := Record(s, slot, habit, value, kind);
    var id := t.rows[slot].id;
    if !Succeeds(habit, value, kind) then
      if Done(s.rows, slot) then Withdraw(t, slot.habit, s.rows[slot]) else t
    else if !Done(s.rows, slot) then
      t.(profile := AddXp(t.profile, XP_PER_COMPLETION), wallet := Award(t, habit, slot, kind, id))
    else if s.rows[slot].kind != kind then
      var u := t.(wallet := ReverseCompletion(t, slot.habit, s.rows[slot].kind, id));
      u.(wallet := Award(u, habit, slot, kind, id))
    else t
  }

  // ---- The daily plan, the second writer of completions ---------------------------------

  /** The row a finished plan task writes; an existing partial row keeps its kind. */
  function PlanRecord(s: State, slot: Slot, goal: real, task: TaskId): State {
    if slot in s.rows then
      s.(rows := s.rows[slot := s.rows[slot].(status := true, value := goal, task := Some(task))])
    else
      s.(rows := s.rows[slot := Row(s.nextId, true, goal, Full, Some(task))], nextId := s.nextId + 1)
  }

  /** A plan task became COMPLETED. */
  function PlanComplete(s: State, slot: Slot, task: TaskId): Outcome {
    if slot.habit !in s.habits then Rejected(NotFound)
    else if Done(s.rows, slot) then Accepted(s, 0)
    else
      var t := PlanRecord(s, slot, s.habits[slot.habit].goal, task);
      var w := PostBase(t.wallet, Full, t.rows[slot].id, CoinsPerCompletion(Full));
      Accepted(t.(wallet := w, profile := AddXp(t.profile, XP_PER_COMPLETION)), CoinsPerCompletion(Full))
  }

  predicate WrittenBy(s: State, slot: Slot, task: TaskId) {
    slot in s.rows && s.rows[slot].task == Some(task)
  }

  /** A task left COMPLETED: its row goes, and its base award is taken back whatever the row's status is. */
  function PlanUncomplete(s: State, slot: Slot, task: TaskId, wasCompleted: bool): Outcome {
    if slot.habit !in s.habits then Rejected(NotFound)
    else if wasCompleted && WrittenBy(s, slot, task) then
      var row := s.rows[slot];
      var w := ReverseLatest(s.wallet, Base(row.kind, row.id));
      Accepted(
        s.(rows := s.rows - {slot}, wallet := w, profile := AddXp(s.profile, -XP_PER_COMPLETION)),
        w.coins - s.wallet.coins)
    else Accepted(s, 0)
  }

  /** A task is deleted or its plan's items are replaced; only deleting refunds experience. */
  function PlanRemove(s: State, slot: Slot, task: TaskId, refundXp: bool): Outcome {
    if WrittenBy(s, slot, task) then
      var row := s.rows[slot];
      var w := if row.status then ReverseLatest(s.wallet, Base(row.kind, row.id)) else s.wallet;
      var p := if row.status && refundXp then AddXp(s.profile, -XP_PER_COMPLETION) else s.profile;
      Accepted(s.(rows := s.rows - {slot}, wallet := w, profile := p), w.coins - s.wallet.coins)
    else Accepted(s, 0)
  }

  // ---- Spending --------------------------------------------------------------------------

  datatype Purchase = ShopItem(item: ItemId, cost: int) | FreezeDay(slot: Slot)

  function Cost(p: Purchase): int {
    match p
    case ShopItem(_, cost) => cost
    case FreezeDay(_) => STREAK_FREEZE_COST
  }

  function PurchaseSource(p: Purchase): Source {
    match p
    case ShopItem(item, _) => Source.Redemption(item)
    case FreezeDay(slot) => Source.Freeze(slot)
  }

  predicate Taken(s: State, p: Purchase) {
    match p
    case ShopItem(item, _) => item in s.owned
    case FreezeDay(slot) => slot in s.frozen
  }

  function Deliver(s: State, p: Purchase): State {
    match p
    case ShopItem(item, _) => s.(owned := s.owned + {item})
    case FreezeDay(slot) => s.(frozen := s.frozen + {slot})
  }

  /** A purchase that passed its own checks: debit, check the balance, record what was bought. */
  function Buy(s: State, p: Purchase): Outcome {
    if Taken(s, p) then Rejected(Conflict)
    else
      var w := Post(s.wallet, Entry(-Cost(p), PurchaseSource(p)));
      if w.coins < 0 then Rejected(BadRequest) else Accepted(Deliver(s.(wallet := w), p), -Cost(p))
  }

  function RedeemItem(s: State, item: ItemId): Outcome {
    if item !in s.catalog then Rejected(NotFound)
    else if !s.catalog[item].active then Rejected(BadRequest)
    else Buy(s, ShopItem(item, s.catalog[item].cost))
  }

  function PurchaseFreeze(s: State, slot: Slot, today: Day): Outcome {
    if slot.habit !in s.habits then Rejected(NotFound)
    else if s.habits[slot.habit].archived then Rejected(Conflict)
    else if slot.day > today then Rejected(BadRequest)
    else if !IsScheduled(s.habits[slot.habit].schedule, slot.day) then Rejected(BadRequest)
    else if Done(s.rows, slot) then Rejected(Conflict)
    else Buy(s, FreezeDay(slot))
  }

  /** The audited repair: the ledger is made to agree with the cached balance. */
  function Repair(s: State): State {
    var difference := s.wallet.coins - Sum(s.wallet.entries);
    if difference == 0 then s
    else
      s.(wallet := Wallet(s.wallet.coins, s.wallet.entries + [Entry(difference, Adjustment)]))
  }

  // ---- Runs ---------------------------------------------------------------------------------

  datatype Op =
    | DoToggle(slot: Slot, value: Option<real>, kind: Option<Kind>)
    | DoPlanComplete(slot: Slot, task: TaskId)
    | DoPlanUncomplete(slot: Slot, task: TaskId, wasCompleted: bool)
    | DoPlanRemove(slot: Slot, task: TaskId, refundXp: bool)
    | DoRedeem(item: ItemId)
    | DoFreeze(slot: Slot, today: Day)
    | DoRepair
    | DoConfigure(habits: map<HabitId, Habit>, identities: seq<Identity>, catalog: map<ItemId, Item>)

  /** Habit settings, identity links and the shop catalogue may change at any time. */
  function Perform(s: State, op: Op): Outcome {
    match op
    case DoToggle(slot, value, kind) => Toggle(s, slot, value, kind)
    case DoPlanComplete(slot, task) => PlanComplete(s, slot, task)
    case DoPlanUncomplete(slot, task, was) => PlanUncomplete(s, slot, task, was)
    case DoPlanRemove(slot, task, refund) => PlanRemove(s, slot, task, refund)
    case DoRedeem(item) => RedeemItem(s, item)
    case DoFreeze(slot, today) => PurchaseFreeze(s, slot, today)
    case DoRepair => Accepted(Repair(s), 0)
    case DoConfigure(h, i, c) => Accepted(s.(habits := h, identities := i, catalog := c), 0)
  }

  function Step(s: State, op: Op): State {
    match Perform(s, op)
    case Accepted(t, _) => t
    case Rejected(_) => s
  }

  function RunOps(s: State, ops: seq<Op>): State
    decreases |ops|
  {
    if ops == [] then s else RunOps(Step(s, ops[0]), ops[1..])
  }

  /** A new account. */
  function Init(habits: map<HabitId, Habit>, identities: seq<Identity>, catalog: map<ItemId, Item>): State {
    State(Wallet(0, []), map[], 0, {}, {}, NEW_PROFILE, habits, identities, catalog)
  }
}
