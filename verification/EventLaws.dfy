/**
 * What payment events do to access: each event's effect on the deadline of the
 * row it hits, and access over whole runs of events and account operations.
 */
module EventLaws {
  import opened Common
  import opened Subscriptions
  import opened Webhooks

  /** The statuses whose access ends with the paid period. */
  predicate PeriodBased(status: Status) { status.Active? || status.NonRenewing? || status.Cancelled? }

  /** Where the access of a row ends after an event, told from the row and the dates the payload carries. */
  function EndAfter(cfg: Config, row: Row, event: string, p: Payload, now: Instant): Deadline {
    if event == "subscription.disable" then UntilOrForever(row.periodEnd)
    else if event == "subscription.not_renew" then UntilOrForever(Or(p.nextPayment, row.periodEnd))
    else if event == "invoice.payment_failed" then
      if row.status.Active? then Until(now + cfg.graceDays * DAY_MS) else AccessEnd(row)
    else
      var end := if event == "invoice.create" then p.periodEnd else p.nextPayment;
      if end.Some? && PeriodBased(row.status) then Until(end.value) else AccessEnd(row)
  }

  /** What no event but a charge ever writes: the trial, the price, the last charge and any free access. */
  predicate SameMoney(a: Row, b: Row) {
    && a.trialEndsAt == b.trialEndsAt && a.interval == b.interval && a.amount == b.amount
    && a.lastPaymentReference == b.lastPaymentReference && a.authorizationCode == b.authorizationCode
    && a.freeAccess == b.freeAccess && a.freeAccessExpiresAt == b.freeAccessExpiresAt
  }

  /** Renewal metadata: everything but the plan, the codes, the renewal flag and the period's end. */
  predicate OnlyMetadata(a: Row, b: Row) {
    && SameMoney(a, b) && a.status == b.status && a.graceEndsAt == b.graceEndsAt
    && a.periodStart == b.periodStart && a.cancelledAt == b.cancelledAt
  }

  /** The invoice's period, and the subscription it belongs to. */
  predicate OnlyPeriod(a: Row, b: Row) {
    && SameMoney(a, b) && a.status == b.status && a.graceEndsAt == b.graceEndsAt
    && a.planId == b.planId && a.planCode == b.planCode && a.customerCode == b.customerCode
    && a.cancelAtPeriodEnd == b.cancelAtPeriodEnd && a.cancelledAt == b.cancelledAt
  }

  /** The end of renewal, from an instant on. */
  predicate OnlyRenewal(a: Row, b: Row, now: Instant) {
    && SameMoney(a, b) && b.status.NonRenewing? && b.cancelAtPeriodEnd && b.cancelledAt == Some(now)
    && a.planId == b.planId && a.planCode == b.planCode && a.periodStart == b.periodStart
    && a.customerCode == b.customerCode && a.subscriptionCode == b.subscriptionCode
  }

  lemma MetadataMovesAccess(cfg: Config, row: Row, event: string, p: Payload, now: Instant)
    requires event == "subscription.create" || event == "invoice.update"
    ensures var after := RowAfter(cfg, row, event, p, now);
            AccessEnd(after) == EndAfter(cfg, row, event, p, now) && OnlyMetadata(row, after)
  {
  }

  lemma InvoiceMovesAccess(cfg: Config, row: Row, p: Payload, now: Instant)
    ensures var after := RowAfter(cfg, row, "invoice.create", p, now);
            AccessEnd(after) == EndAfter(cfg, row, "invoice.create", p, now) && OnlyPeriod(row, after)
  {
  }

  lemma FailureMovesAccess(cfg: Config, row: Row, p: Payload, now: Instant)
    ensures var after := RowAfter(cfg, row, "invoice.payment_failed", p, now);
            && AccessEnd(after) == EndAfter(cfg, row, "invoice.payment_failed", p, now)
            && SameMoney(row, after) && (!row.status.Active? ==> after == row)
  {
  }

  lemma StopMovesAccess(cfg: Config, row: Row, event: string, p: Payload, now: Instant)
    requires event == "subscription.not_renew" || event == "subscription.disable"
    ensures var after := RowAfter(cfg, row, event, p, now);
            && AccessEnd(after) == EndAfter(cfg, row, event, p, now) && OnlyRenewal(row, after, now)
            && (event == "subscription.disable" ==> after.periodEnd == row.periodEnd)
  {
  }

  /** Every event moves the deadline of the row it hits as the table says, and keeps its money. */
  lemma EventMovesAccess(cfg: Config, row: Row, event: string, p: Payload, now: Instant)
    requires Mapped(event)
    ensures var after := RowAfter(cfg, row, event, p, now);
            AccessEnd(after) == EndAfter(cfg, row, event, p, now) && SameMoney(row, after)
  {
    if event == "subscription.create" || event == "invoice.update" {
      MetadataMovesAccess(cfg, row, event, p, now);
    } else if event == "invoice.create" {
      InvoiceMovesAccess(cfg, row, p, now);
    } else if event == "invoice.payment_failed" {
      FailureMovesAccess(cfg, row, p, now);
    } else {
      StopMovesAccess(cfg, row, event, p, now);
    }
  }

  /** Ending renewal keeps the row's own access exactly when that already was the paid period's. */
  lemma StopKeepsAccess(row: Row, now: Instant)
    ensures GrantsBefore(Stopped(row, now), now, AccessEnd(row)) <==> FollowsPeriod(row, now)
  {
    SameAccess(UntilOrForever(row.periodEnd), AccessEnd(row), now);
    FollowsPeriodExactly(row, now);
    var after := Stopped(row, now);
    assert AccessEnd(after) == UntilOrForever(row.periodEnd);
    if GrantsBefore(after, now, AccessEnd(row)) {
      forall t | now <= t
        ensures Before(t, AccessEnd(row)) <==> Before(t, UntilOrForever(row.periodEnd))
      {
        assert Before(t, AccessEnd(after)) <==> Before(t, AccessEnd(row));
      }
    }
  }

  // ---- Access over runs of events ---------------------------------------------------------

  /** The charge a delivery applies to the user, if it applies one. */
  function ChargedEnd(cfg: Config, s: Store, p: Payload, user: Option<User>, clock: Clock, u: User): Option<Instant> {
    if Falsy(p.reference) then None
    else
      var r := p.reference.value;
      var target := if r in s.payments then Some(s.payments[r].user) else ResolveUser(s, p, user);
      if target != Some(u) || (u in s.rows && s.rows[u].lastPaymentReference == Some(r)) then None
      else Some(ChargeOf(cfg, p, r, clock).periodEnd)
  }

  /** Whether a verification activates its payment. */
  predicate Activates(cfg: Config, s: Store, user: User, reference: Reference, v: Verdict) {
    && reference != "" && reference in s.payments && s.payments[reference].user == user
    && !s.payments[reference].status.Success? && v.success && s.payments[reference].planId in cfg.codeVariables
  }

  /** The new end of the user's access an action sets; reads, cancels and resumes never set one. */
  function NewEnd(cfg: Config, s: Store, a: Action, u: User): Option<Deadline>
    requires u in s.rows
  {
    match a
    case Use(_, _) => None
    case VerifyPayment(user, reference, v, clock) =>
      if user == u && Activates(cfg, s, user, reference, v)
      then Some(Until(AddInterval(clock, s.payments[reference].interval))) else None
    case Deliver(d) =>
      if Ignored(d) || Duplicate(s, d) then None
      else
        var p, user := d.data.value, FindUser(s, d.data.value);
        if d.event == "charge.success" then
          match ChargedEnd(cfg, s, p, user, d.clock, u)
          case None => None
          case Some(end) => Some(Until(end))
        else if Mapped(d.event) && ResolveUser(s, p, user) == Some(u) then
          Some(EndAfter(cfg, s.rows[u], d.event, p, d.clock.now))
        else None
  }

  function StartOf(a: Action): Instant {
    match a
    case Deliver(d) => d.clock.now
    case VerifyPayment(_, _, _, clock) => clock.now
    case Use(_, op) => op.at
  }

  function FinishOf(a: Action): Instant { if a.Use? then Finish(a.op) else StartOf(a) }

  /** Time never runs backwards within the run, which lies between `from` and `to`. */
  predicate InOrder(actions: seq<Action>, from: Instant, to: Instant)
    decreases |actions|
  {
    if actions == [] then from <= to
    else from <= StartOf(actions[0]) <= FinishOf(actions[0]) && InOrder(actions[1..], FinishOf(actions[0]), to)
  }

  /** The last end the run set. */
  function EndAfterRun(cfg: Config, s: Store, actions: seq<Action>, u: User, d: Deadline): Deadline
    requires u in s.rows
    decreases |actions|
  {
    if actions == [] then d
    else
      RowsStay(cfg, s, actions[0], u);
      EndAfterRun(cfg, Webhooks.Step(cfg, s, actions[0]), actions[1..], u, NewEnd(cfg, s, actions[0], u).GetOr(d))
  }

  lemma RowsStay(cfg: Config, s: Store, a: Action, u: User)
    requires u in s.rows
    ensures u in Webhooks.Step(cfg, s, a).rows
  {
  }

  /** A row that grants access exactly before `d` from `from` on, with no free access to hide behind. */
  ghost predicate Grants(row: Row, from: Instant, d: Deadline) {
    GrantsBefore(row, from, d) && !HasFreeAccess(row, from)
  }

  lemma LaterGrants(row: Row, from: Instant, to: Instant, d: Deadline)
    requires Grants(row, from, d) && from <= to
    ensures Grants(row, to, d)
  {
  }

  lemma ExactGrants(row: Row, from: Instant)
    requires !HasFreeAccess(row, from)
    ensures Grants(row, from, AccessEnd(row))
  {
  }

  lemma UseMoves(cfg: Config, s: Store, a: Action, u: User, from: Instant, d: Deadline)
    requires a.Use? && u in s.rows && Grants(s.rows[u], from, d) && from <= StartOf(a) <= FinishOf(a)
    ensures Grants(Webhooks.Step(cfg, s, a).rows[u], FinishOf(a), d)
  {
    LaterGrants(s.rows[u], from, FinishOf(a), d);
    if a.user == u && !a.op.DoActivate? {
      LaterGrants(s.rows[u], from, a.op.at, d);
      StepMovesDeadline(s.rows[u], a.op);
      var next, end := Subscriptions.Step(s.rows[u], a.op), FinishOf(a);
      forall now | end <= now
        ensures Before(now, AccessEnd(next)) <==> Before(now, d)
      {
        assert Before(now, AccessEnd(s.rows[u])) <==> Before(now, d);
      }
    }
  }

  lemma ActivatedGrants(row: Row, now: Instant, c: Charge)
    requires !HasFreeAccess(row, now)
    ensures Grants(Activate(row, now, c), now, Until(c.periodEnd))
    ensures Grants(Read(Activate(row, now, c), now), now, Until(c.periodEnd))
  {
    ReadKeepsDeadline(Activate(row, now, c), now);
  }

  lemma ReadGrants(row: Row, from: Instant, now: Instant, d: Deadline)
    requires Grants(row, from, d) && from <= now
    ensures Grants(Read(row, now), now, d)
  {
    ReadKeepsDeadline(row, now);
    forall t | now <= t
      ensures Before(t, AccessEnd(Read(row, now))) <==> Before(t, d)
    {
      assert Before(t, AccessEnd(row)) <==> Before(t, d);
    }
  }

  lemma VerifyMoves(cfg: Config, s: Store, a: Action, u: User, from: Instant, d: Deadline)
    requires a.VerifyPayment? && u in s.rows && Grants(s.rows[u], from, d) && from <= StartOf(a)
    ensures Grants(Webhooks.Step(cfg, s, a).rows[u], FinishOf(a), NewEnd(cfg, s, a, u).GetOr(d))
  {
    var now := a.clock.now;
    LaterGrants(s.rows[u], from, now, d);
    if a.user == u {
      ReadGrants(s.rows[u], from, now, d);
      if Activates(cfg, s, u, a.reference, a.verdict) {
        ActivatedGrants(s.rows[u], now, VerifiedCharge(cfg, s, a.reference, a.verdict, a.clock));
      }
    }
  }

  lemma ChargeMoves(cfg: Config, s: Store, p: Payload, user: Option<User>, clock: Clock, u: User, d: Deadline)
    requires u in s.rows && Grants(s.rows[u], clock.now, d)
    ensures var end := ChargedEnd(cfg, s, p, user, clock, u);
            Grants(HandleChargeSuccess(cfg, s, p, user, clock).rows[u], clock.now,
                   if end.Some? then Until(end.value) else d)
  {
    if ChargedEnd(cfg, s, p, user, clock, u).Some? {
      ActivatedGrants(s.rows[u], clock.now, ChargeOf(cfg, p, p.reference.value, clock));
    }
  }

  lemma EventMoves(
    cfg: Config, s: Store, event: string, p: Payload, user: Option<User>, clock: Clock, u: User, d: Deadline)
    requires event != "charge.success" && u in s.rows && Grants(s.rows[u], clock.now, d)
    ensures var hit := Mapped(event) && ResolveUser(s, p, user) == Some(u);
            Grants(Process(cfg, s, event, p, user, clock).rows[u], clock.now,
                   if hit then EndAfter(cfg, s.rows[u], event, p, clock.now) else d)
  {
    if Mapped(event) && ResolveUser(s, p, user) == Some(u) {
      EventMovesAccess(cfg, s.rows[u], event, p, clock.now);
      ExactGrants(RowAfter(cfg, s.rows[u], event, p, clock.now), clock.now);
    }
  }

  lemma DeliveryMoves(cfg: Config, s: Store, a: Action, u: User, from: Instant, d: Deadline)
    requires a.Deliver? && u in s.rows && Grants(s.rows[u], from, d) && from <= StartOf(a)
    ensures Grants(Webhooks.Step(cfg, s, a).rows[u], FinishOf(a), NewEnd(cfg, s, a, u).GetOr(d))
  {
    var x := a.delivery;
    LaterGrants(s.rows[u], from, x.clock.now, d);
    if !Ignored(x) && !Duplicate(s, x) {
      var p, user := x.data.value, FindUser(s, x.data.value);
      var logged := s.(log := s.log + [Event(user, x.event, KeyOf(x))]);
      if x.event == "charge.success" {
        ChargeMoves(cfg, logged, p, user, x.clock, u, d);
        assert ChargedEnd(cfg, logged, p, user, x.clock, u) == ChargedEnd(cfg, s, p, user, x.clock, u);
      } else {
        EventMoves(cfg, logged, x.event, p, user, x.clock, u, d);
      }
    }
  }

  lemma ActionMoves(cfg: Config, s: Store, a: Action, u: User, from: Instant, d: Deadline)
    requires u in s.rows && Grants(s.rows[u], from, d) && from <= StartOf(a) <= FinishOf(a)
    ensures u in Webhooks.Step(cfg, s, a).rows
    ensures Grants(Webhooks.Step(cfg, s, a).rows[u], FinishOf(a), NewEnd(cfg, s, a, u).GetOr(d))
  {
    RowsStay(cfg, s, a, u);
    match a
    case Deliver(_) => DeliveryMoves(cfg, s, a, u, from, d);
    case VerifyPayment(_, _, _, _) => VerifyMoves(cfg, s, a, u, from, d);
    case Use(_, _) => UseMoves(cfg, s, a, u, from, d);
  }

  lemma {:induction false} RunMoves(
    cfg: Config, s: Store, actions: seq<Action>, u: User, from: Instant, to: Instant, d: Deadline)
    requires u in s.rows && Grants(s.rows[u], from, d) && InOrder(actions, from, to)
    ensures var t := RunActions(cfg, s, actions);
            u in t.rows && Grants(t.rows[u], to, EndAfterRun(cfg, s, actions, u, d))
    decreases |actions|
  {
    if actions == [] {
      LaterGrants(s.rows[u], from, to, d);
    } else {
      var a := actions[0];
      ActionMoves(cfg, s, a, u, from, d);
      RunMoves(cfg, Webhooks.Step(cfg, s, a), actions[1..], u, FinishOf(a), to, NewEnd(cfg, s, a, u).GetOr(d));
    }
  }

  /**
   * Over every run of webhooks, verifications, reads, cancels and resumes with
   * advancing time, a user without an override has access exactly until the
   * last end that a charge, a verification or an event set for them.
   */
  lemma AccessFollowsEvents(cfg: Config, s: Store, actions: seq<Action>, u: User, from: Instant, now: Instant)
    requires u in s.rows && !HasFreeAccess(s.rows[u], from) && InOrder(actions, from, now)
    ensures var t := RunActions(cfg, s, actions);
            && u in t.rows
            && (AccessGranted(t.rows[u], false, now)
                <==> Before(now, EndAfterRun(cfg, s, actions, u, AccessEnd(s.rows[u]))))
  {
    RunMoves(cfg, s, actions, u, from, now, AccessEnd(s.rows[u]));
    GrantedUntilItsEnd(RunActions(cfg, s, actions).rows[u], now);
  }

  // ---- Inputs on which events surprise --------------------------------------------------------

  /** A payload that names only a customer, by email, and a subscription. */
  function Naming(email: string, subscription: Code): Payload {
    Payload(None, Some(subscription), None, None, None, Some(email), None, None, None, None, None, None,
            None, None, None, None, None, None, None, None, None, None)
  }

  /** A store of one account, known by its email, with nothing logged. */
  function OneAccount(row: Row): Store { Store(map["u" := row], ["u"], map[], map["e" := "u"], [], []) }

  /** A trial of one week that started at instant 0. */
  const TRIAL: Row := BLANK.(status := Trialing, trialEndsAt := Some(7 * DAY_MS))

  lemma FindsOnlyAccount(row: Row)
    ensures FindUser(OneAccount(row), Naming("e", "x")) == Some("u")
  {
  }

  /** Disabling the subscription of a trial, which has no paid period, turns the trial into access for ever. */
  lemma DisabledTrialNeverEnds(cfg: Config, clock: Clock, now: Instant)
    requires now >= clock.now
    ensures var d := Delivery("subscription.disable", Some(Naming("e", "x")), clock);
            var t := HandleWebhook(cfg, OneAccount(TRIAL), d);
            "u" in t.rows && AccessGranted(t.rows["u"], false, now)
    ensures now >= 7 * DAY_MS ==> !AccessGranted(TRIAL, false, now)
  {
    FindsOnlyAccount(TRIAL);
  }

  /** A row paid until `end`. */
  function PaidTo(end: Instant): Row { TRIAL.(status := Active, periodStart := Some(0), periodEnd := Some(end)) }

  /** A failed renewal right after the period: whoever looked at the account first loses the grace period. */
  lemma ReadLosesGrace(cfg: Config, clock: Clock)
    requires cfg.graceDays > 0
    ensures var s := OneAccount(PaidTo(clock.now));
            var failure := Deliver(Delivery("invoice.payment_failed", Some(Naming("e", "x")), clock));
            var unread := RunActions(cfg, s, [failure]);
            var read := RunActions(cfg, s, [Use("u", DoRead(clock.now)), failure]);
            && "u" in unread.rows && AccessGranted(unread.rows["u"], false, clock.now)
            && "u" in read.rows && !AccessGranted(read.rows["u"], false, clock.now)
  {
    var row := PaidTo(clock.now);
    var s := OneAccount(row);
    var d := Delivery("invoice.payment_failed", Some(Naming("e", "x")), clock);
    var looked := OneAccount(Read(row, clock.now));
    FindsOnlyAccount(row);
    FindsOnlyAccount(Read(row, clock.now));
    FailureAlone(cfg, s, d);
    assert Webhooks.Step(cfg, s, Use("u", DoRead(clock.now))) == looked;
    assert [Use("u", DoRead(clock.now)), Deliver(d)][1..] == [Deliver(d)];
    FailureAlone(cfg, looked, d);
  }

  lemma FailureAlone(cfg: Config, s: Store, d: Delivery)
    ensures RunActions(cfg, s, [Deliver(d)]) == HandleWebhook(cfg, s, d)
  {
    assert [Deliver(d)][1..] == [];
  }
}
