/**
 * Payment webhooks: the dedupe gate, the handlers behind it, and the server-side
 * verification that may activate the same charge. Signatures are verified before
 * this point. The store holds every account.
 */
module Webhooks {
  import opened Common
  import opened Subscriptions

  type User = string
  type Reference = string

  const DAY_MS: int := 86400000
  const PREMIUM_FROM_KOBO: int := 400000

  /** The deployment: plan codes by plan, in plan order, the plans' code variables, and the grace period. */
  datatype Config = Config(planCodes: seq<(string, Code)>, codeVariables: map<string, Code>, graceDays: nat)

  /** The wall clock, with its calendar month and year successors. */
  datatype Clock = Clock(now: Instant, nextMonth: Instant, nextYear: Instant)

  function AddInterval(clock: Clock, interval: Interval): Instant {
    if interval.Yearly? then clock.nextYear else clock.nextMonth
  }

  /** The fields of an event payload the handlers look at; an absent or unparsable one is `None`. */
  datatype Payload = Payload(
    reference: Option<string>,
    subscriptionCode: Option<Code>,
    invoiceCode: Option<Code>,
    id: Option<string>,
    customerCode: Option<Code>,
    customerEmail: Option<string>,
    authorizationCode: Option<Code>,
    planCode: Option<Code>,
    planInterval: Option<string>,
    planKobo: Option<int>,
    innerSubscriptionCode: Option<Code>,
    innerPlanCode: Option<Code>,
    innerPlanInterval: Option<string>,
    innerNextPayment: Option<Instant>,
    interval: Option<string>,
    kobo: Option<int>,
    nextPayment: Option<Instant>,
    periodStart: Option<Instant>,
    periodEnd: Option<Instant>,
    cancelAtPeriodEnd: Option<bool>,
    paidAt: Option<Instant>,
    channel: Option<string>)

  datatype Delivery = Delivery(event: string, data: Option<Payload>, clock: Clock)

  datatype PaymentStatus = Pending | Success | Failed | Reversed

  datatype Payment = Payment(
    user: User,
    planId: string,
    interval: Interval,
    amount: int,
    status: PaymentStatus,
    paidAt: Option<Instant>,
    channel: Option<string>)

  datatype Event = Event(user: Option<User>, event: string, key: string)

  datatype Via = ByWebhook | ByVerification

  /** History: which charge was applied to whom. */
  datatype Applied = Applied(user: User, reference: Reference, via: Via)

  datatype Store = Store(
    rows: map<User, Row>,
    order: seq<User>,
    payments: map<Reference, Payment>,
    users: map<string, User>,
    log: seq<Event>,
    applied: seq<Applied>)

  // ---- Extractors ------------------------------------------------------------------

  predicate Falsy(s: Option<string>) { s.None? || s.value == "" }

  function DedupeReference(p: Payload): string {
    if !Falsy(p.reference) then p.reference.value
    else if !Falsy(p.subscriptionCode) then p.subscriptionCode.value
    else if !Falsy(p.invoiceCode) then p.invoiceCode.value
    else if !Falsy(p.id) then p.id.value
    else "unknown"
  }

  function DedupeKey(event: string, p: Payload): string { event + ":" + DedupeReference(p) }

  function PlanCodeOf(p: Payload): Option<Code> { Or(p.planCode, p.innerPlanCode) }

  function IntervalOf(p: Payload): Option<Interval> {
    var raw := Or(p.planInterval, Or(p.innerPlanInterval, p.interval));
    if raw == Some("annual") || raw == Some("yearly") then Some(Yearly)
    else if raw == Some("monthly") then Some(Monthly)
    else None
  }

  /** Kobo to whole Naira, halves up. */
  function AmountOf(p: Payload): int { (Or(p.kobo, p.planKobo).GetOr(0) + 50) / 100 }

  /** The first configured plan with this code. */
  function PlanByCode(codes: seq<(string, Code)>, code: Option<Code>): Option<string>
    decreases |codes|
  {
    if Falsy(code) || codes == [] then None
    else if codes[0].1 == code.value then Some(codes[0].0)
    else PlanByCode(codes[1..], code)
  }

  function PlanIdOf(cfg: Config, p: Payload): Option<string> {
    var mapped := PlanByCode(cfg.planCodes, PlanCodeOf(p));
    if mapped.Some? then mapped
    else
      var premium := p.planKobo.GetOr(0) >= PREMIUM_FROM_KOBO || p.kobo.GetOr(0) >= PREMIUM_FROM_KOBO;
      match IntervalOf(p)
      case None => None
      case Some(Yearly) => Some(if premium then "PREMIUM_YEARLY" else "BASIC_YEARLY")
      case Some(Monthly) => Some(if premium then "PREMIUM_MONTHLY" else "BASIC_MONTHLY")
  }

  /** The account with this customer code that has had a row the longest. */
  function FirstWithCode(rows: map<User, Row>, order: seq<User>, code: Option<Code>): Option<User>
    decreases |order|
  {
    if Falsy(code) || order == [] then None
    else if order[0] in rows && rows[order[0]].customerCode == code then Some(order[0])
    else FirstWithCode(rows, order[1..], code)
  }

  function FindUser(s: Store, p: Payload): Option<User> {
    var byCustomer := FirstWithCode(s.rows, s.order, p.customerCode);
    if byCustomer.Some? then byCustomer
    else if Falsy(p.customerEmail) || p.customerEmail.value !in s.users then None
    else Some(s.users[p.customerEmail.value])
  }

  function ResolveUser(s: Store, p: Payload, user: Option<User>): Option<User> {
    if user.Some? then user else FirstWithCode(s.rows, s.order, p.customerCode)
  }

  // ---- Applying a charge --------------------------------------------------------------

  const BLANK: Row :=
    Row(Active, "", None, None, None, None, None, None, false, None, false, None, None, None, None, None, None)

  /** The upsert both paths share: it creates the row if the account has none. */
  function ApplyCharge(s: Store, user: User, now: Instant, c: Charge, via: Via): Store {
    var row := if user in s.rows then s.rows[user] else BLANK;
    s.(rows := s.rows[user := Activate(row, now, c)],
       order := if user in s.rows then s.order else s.order + [user],
       applied := s.applied + [Applied(user, c.reference, via)])
  }

  function ChargeOf(cfg: Config, p: Payload, reference: Reference, clock: Clock): Charge {
    var interval := IntervalOf(p).GetOr(Monthly);
    var fallback := if interval.Yearly? then "BASIC_YEARLY" else "BASIC_MONTHLY";
    Charge(
      Or(PlanIdOf(cfg, p), PlanByCode(cfg.planCodes, PlanCodeOf(p))).GetOr(fallback),
      interval,
      AmountOf(p),
      p.innerNextPayment.GetOr(AddInterval(clock, interval)),
      reference,
      p.customerCode,
      p.authorizationCode,
      Or(p.innerSubscriptionCode, p.subscriptionCode),
      PlanCodeOf(p))
  }

  function Settle(payment: Payment, paidAt: Instant, channel: Option<string>): Payment {
    payment.(status := Success, paidAt := Some(paidAt), channel := channel)
  }

  function HandleChargeSuccess(cfg: Config, s: Store, p: Payload, user: Option<User>, clock: Clock): Store {
    if Falsy(p.reference) then s
    else
      var reference := p.reference.value;
      var known := reference in s.payments;
      var target := if known then Some(s.payments[reference].user) else ResolveUser(s, p, user);
      if target.None? then s
      else if target.value in s.rows && s.rows[target.value].lastPaymentReference == Some(reference) then s
      else
        var t := ApplyCharge(s, target.value, clock.now, ChargeOf(cfg, p, reference, clock), ByWebhook);
        if known && !s.payments[reference].status.Success? then
          var payment := s.payments[reference];
          t.(payments := t.payments[reference :=
            Settle(payment, p.paidAt.GetOr(clock.now), Or(p.channel, payment.channel))])
        else t
  }

  // ---- The other handlers ----------------------------------------------------------------

  function Upserted(cfg: Config, row: Row, p: Payload): Row {
    var code := PlanCodeOf(p);
    row.(
      subscriptionCode := Or(p.subscriptionCode, row.subscriptionCode),
      customerCode := Or(p.customerCode, row.customerCode),
      cancelAtPeriodEnd := p.cancelAtPeriodEnd.GetOr(row.cancelAtPeriodEnd),
      planCode := if Falsy(code) then row.planCode else code,
      planId := PlanByCode(cfg.planCodes, code).GetOr(row.planId),
      periodEnd := Or(p.nextPayment, row.periodEnd))
  }

  function Invoiced(row: Row, p: Payload): Row {
    row.(
      subscriptionCode := if Falsy(p.subscriptionCode) then row.subscriptionCode else p.subscriptionCode,
      periodStart := Or(p.periodStart, row.periodStart),
      periodEnd := Or(p.periodEnd, row.periodEnd))
  }

  function PaymentFailing(cfg: Config, row: Row, now: Instant): Row {
    if !row.status.Active? then row
    else row.(status := Status.PaymentFailed, graceEndsAt := Some(now + cfg.graceDays * DAY_MS))
  }

  function Stopped(row: Row, now: Instant): Row {
    row.(cancelAtPeriodEnd := true, cancelledAt := Some(now), status := NonRenewing)
  }

  function NotRenewed(row: Row, p: Payload, now: Instant): Row {
    Stopped(row, now).(periodEnd := Or(p.nextPayment, row.periodEnd))
  }

  predicate Mapped(event: string) {
    event == "subscription.create" || event == "invoice.update" || event == "invoice.create"
    || event == "invoice.payment_failed" || event == "subscription.not_renew" || event == "subscription.disable"
  }

  function RowAfter(cfg: Config, row: Row, event: string, p: Payload, now: Instant): Row
    requires Mapped(event)
  {
    if event == "subscription.create" || event == "invoice.update" then Upserted(cfg, row, p)
    else if event == "invoice.create" then Invoiced(row, p)
    else if event == "invoice.payment_failed" then PaymentFailing(cfg, row, now)
    else if event == "subscription.not_renew" then NotRenewed(row, p, now)
    else Stopped(row, now)
  }

  /** An unmapped event, or one for an account without a row, changes nothing. */
  function Process(cfg: Config, s: Store, event: string, p: Payload, user: Option<User>, clock: Clock): Store {
    if event == "charge.success" then HandleChargeSuccess(cfg, s, p, user, clock)
    else
      var target := ResolveUser(s, p, user);
      if !Mapped(event) || target.None? || target.value !in s.rows then s
      else s.(rows := s.rows[target.value := RowAfter(cfg, s.rows[target.value], event, p, clock.now)])
  }

  // ---- The gate ---------------------------------------------------------------------------

  predicate Logged(log: seq<Event>, key: string) { exists i :: 0 <= i < |log| && log[i].key == key }

  predicate Ignored(d: Delivery) { d.event == "" || d.data.None? }

  function KeyOf(d: Delivery): string
    requires !Ignored(d)
  {
    DedupeKey(d.event, d.data.value)
  }

  predicate Duplicate(s: Store, d: Delivery) { !Ignored(d) && Logged(s.log, KeyOf(d)) }

  function HandleWebhook(cfg: Config, s: Store, d: Delivery): Store {
    if Ignored(d) || Duplicate(s, d) then s
    else
      var user := FindUser(s, d.data.value);
      var logged := s.(log := s.log + [Event(user, d.event, KeyOf(d))]);
      Process(cfg, logged, d.event, d.data.value, user, d.clock)
  }

  // ---- Server-side verification --------------------------------------------------------------

  /** The provider's answer about a transaction. */
  datatype Verdict = Verdict(
    success: bool,
    customerCode: Option<Code>,
    authorizationCode: Option<Code>,
    subscriptionCode: Option<Code>,
    planCode: Option<Code>,
    paidAt: Option<Instant>,
    channel: Option<string>)

  function ReadRow(s: Store, user: User, now: Instant): Store {
    if user in s.rows then s.(rows := s.rows[user := Read(s.rows[user], now)]) else s
  }

  function VerifiedCharge(cfg: Config, s: Store, reference: Reference, v: Verdict, clock: Clock): Charge
    requires reference in s.payments && s.payments[reference].planId in cfg.codeVariables
  {
    var payment := s.payments[reference];
    var variable := if payment.user in s.rows then Some(cfg.codeVariables[payment.planId]) else None;
    Charge(
      PlanByCode(cfg.planCodes, v.planCode).GetOr(payment.planId),
      payment.interval,
      payment.amount,
      AddInterval(clock, payment.interval),
      reference,
      v.customerCode,
      v.authorizationCode,
      v.subscriptionCode,
      Or(v.planCode, variable))
  }

  /** An unknown plan is rejected before anything is written. */
  function Verify(cfg: Config, s: Store, user: User, reference: Reference, v: Verdict, clock: Clock): Store {
    if reference == "" || reference !in s.payments || s.payments[reference].user != user then s
    else
      var payment := s.payments[reference];
      if payment.status.Success? then ReadRow(s, user, clock.now)
      else if !v.success then s.(payments := s.payments[reference := payment.(status := Failed)])
      else if payment.planId !in cfg.codeVariables then s
      else
        var t := ApplyCharge(s, user, clock.now, VerifiedCharge(cfg, s, reference, v, clock), ByVerification);
        var channel := if Falsy(v.channel) then None else v.channel;
        var paid := Settle(payment, v.paidAt.GetOr(clock.now), channel);
        ReadRow(t.(payments := t.payments[reference := paid]), user, clock.now)
  }

  // ---- Runs ------------------------------------------------------------------------------------

  datatype Action =
    | Deliver(delivery: Delivery)
    | VerifyPayment(user: User, reference: Reference, verdict: Verdict, clock: Clock)
    | Use(user: User, op: Subscriptions.Op)

  function Step(cfg: Config, s: Store, a: Action): Store {
    match a
    case Deliver(d) => HandleWebhook(cfg, s, d)
    case VerifyPayment(user, reference, verdict, clock) => Verify(cfg, s, user, reference, verdict, clock)
    case Use(user, op) =>
      if user in s.rows && !op.DoActivate? then s.(rows := s.rows[user := Subscriptions.Step(s.rows[user], op)]) else s
  }

  function RunActions(cfg: Config, s: Store, actions: seq<Action>): Store
    decreases |actions|
  {
    if actions == [] then s else RunActions(cfg, Step(cfg, s, actions[0]), actions[1..])
  }

  // ---- Each key is applied at most once -----------------------------------------------------------

  /** The run without the deliveries whose key was logged before it or delivered earlier in it. */
  function WithoutRepeats(actions: seq<Action>, seen: set<string>): seq<Action>
    decreases |actions|
  {
    if actions == [] then []
    else if !actions[0].Deliver? || Ignored(actions[0].delivery) then
      [actions[0]] + WithoutRepeats(actions[1..], seen)
    else
      var key := KeyOf(actions[0].delivery);
      if key in seen then WithoutRepeats(actions[1..], seen)
      else [actions[0]] + WithoutRepeats(actions[1..], seen + {key})
  }

  ghost predicate KeysAre(log: seq<Event>, keys: set<string>) { forall k :: k in keys <==> Logged(log, k) }

  lemma LoggedAppend(log: seq<Event>, e: Event, key: string)
    ensures Logged(log + [e], key) <==> Logged(log, key) || e.key == key
  {
    if Logged(log, key) {
      var i :| 0 <= i < |log| && log[i].key == key;
      assert (log + [e])[i].key == key;
    }
    assert (log + [e])[|log|] == e;
  }

  lemma StepLogs(cfg: Config, s: Store, a: Action)
    ensures !a.Deliver? || Ignored(a.delivery) || Duplicate(s, a.delivery) ==> Step(cfg, s, a).log == s.log
    ensures a.Deliver? && !Ignored(a.delivery) && !Duplicate(s, a.delivery) ==>
              exists e: Event :: e.key == KeyOf(a.delivery) && Step(cfg, s, a).log == s.log + [e]
  {
    if a.Deliver? && !Ignored(a.delivery) && !Duplicate(s, a.delivery) {
      var e := Event(FindUser(s, a.delivery.data.value), a.delivery.event, KeyOf(a.delivery));
      assert e.key == KeyOf(a.delivery) && Step(cfg, s, a).log == s.log + [e];
    }
  }

  /**
   * Any run of deliveries, verifications and account operations ends in the same
   * store as the run with every repeated key dropped.
   */
  lemma {:induction false} RepeatsChangeNothing(cfg: Config, s: Store, actions: seq<Action>, keys: set<string>)
    requires KeysAre(s.log, keys)
    ensures RunActions(cfg, s, actions) == RunActions(cfg, s, WithoutRepeats(actions, keys))
    decreases |actions|
  {
    if actions != [] {
      var a := actions[0];
      var next := Step(cfg, s, a);
      StepLogs(cfg, s, a);
      if !a.Deliver? || Ignored(a.delivery) {
        RepeatsChangeNothing(cfg, next, actions[1..], keys);
        KeepFirst(cfg, s, a, WithoutRepeats(actions[1..], keys));
      } else if KeyOf(a.delivery) in keys {
        RepeatsChangeNothing(cfg, s, actions[1..], keys);
      } else {
        var more := keys + {KeyOf(a.delivery)};
        var e: Event :| e.key == KeyOf(a.delivery) && next.log == s.log + [e];
        forall k
          ensures k in more <==> Logged(next.log, k)
        {
          LoggedAppend(s.log, e, k);
        }
        RepeatsChangeNothing(cfg, next, actions[1..], more);
        KeepFirst(cfg, s, a, WithoutRepeats(actions[1..], more));
      }
    }
  }

  lemma KeepFirst(cfg: Config, s: Store, a: Action, rest: seq<Action>)
    ensures RunActions(cfg, s, [a] + rest) == RunActions(cfg, Step(cfg, s, a), rest)
  {
    assert ([a] + rest)[1..] == rest;
  }
}
