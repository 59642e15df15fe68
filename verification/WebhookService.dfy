/** The webhook service as it writes its tables, one handler per event. */
module WebhookService {
  import opened Common
  import opened Subscriptions
  import opened Webhooks
  import opened EventLaws

  datatype Reply = Processed | RepliedDuplicate | RepliedIgnored

  class Service {
    const cfg: Config
    var rows: map<User, Row>
    var order: seq<User>
    var payments: map<Reference, Payment>
    var users: map<string, User>
    var log: seq<Event>
    ghost var applied: seq<Applied>

    constructor (cfg: Config, s: Store)
      ensures this.cfg == cfg && Snapshot() == s
    {
      this.cfg := cfg;
      rows, order, payments, users, log, applied := s.rows, s.order, s.payments, s.users, s.log, s.applied;
    }

    ghost function Snapshot(): Store
      reads this
    {
      Store(rows, order, payments, users, log, applied)
    }

    method UserIdByCustomerCode(code: Option<Code>) returns (user: Option<User>)
      ensures user == FirstWithCode(rows, order, code)
    {
      if Falsy(code) {
        return None;
      }
      for i := 0 to |order|
        invariant FirstWithCode(rows, order, code) == FirstWithCode(rows, order[i..], code)
      {
        if order[i] in rows && rows[order[i]].customerCode == code {
          return Some(order[i]);
        }
      }
      user := None;
    }

    method FindUserId(p: Payload) returns (user: Option<User>)
      ensures user == FindUser(Snapshot(), p)
    {
      user := UserIdByCustomerCode(p.customerCode);
      if user.None? && !Falsy(p.customerEmail) && p.customerEmail.value in users {
        user := Some(users[p.customerEmail.value]);
      }
    }

    method ResolveUserId(p: Payload, preferred: Option<User>) returns (user: Option<User>)
      ensures user == ResolveUser(Snapshot(), p, preferred)
    {
      user := preferred;
      if user.None? {
        user := UserIdByCustomerCode(p.customerCode);
      }
    }

    method ActivateFromWebhook(user: User, p: Payload, reference: Reference, clock: Clock)
      modifies `rows, `order, `applied
      ensures Snapshot() ==
        ApplyCharge(old(Snapshot()), user, clock.now, ChargeOf(cfg, p, reference, clock), ByWebhook)
    {
      var row := BLANK;
      if user in rows {
        row := rows[user];
      } else {
        order := order + [user];
      }
      rows := rows[user := Activate(row, clock.now, ChargeOf(cfg, p, reference, clock))];
      applied := applied + [Applied(user, reference, ByWebhook)];
    }

    method OnChargeSuccess(p: Payload, preferred: Option<User>, clock: Clock)
      modifies `rows, `order, `payments, `applied
      ensures Snapshot() == HandleChargeSuccess(cfg, old(Snapshot()), p, preferred, clock)
    {
      if Falsy(p.reference) {
        return;
      }
      var reference := p.reference.value;
      var payment := if reference in payments then Some(payments[reference]) else None;
      var target := preferred;
      if payment.Some? {
        target := Some(payment.value.user);
      } else {
        target := ResolveUserId(p, preferred);
      }
      if target.None? {
        return;
      }
      if target.value in rows && rows[target.value].lastPaymentReference == Some(reference) {
        return;
      }
      ActivateFromWebhook(target.value, p, reference, clock);
      if payment.Some? && !payment.value.status.Success? {
        var settled := Settle(payment.value, p.paidAt.GetOr(clock.now), Or(p.channel, payment.value.channel));
        payments := payments[reference := settled];
      }
    }

    method OnSubscriptionUpsert(event: string, p: Payload, preferred: Option<User>, clock: Clock)
      requires event == "subscription.create" || event == "invoice.update"
      modifies `rows
      ensures Snapshot() == Webhooks.Process(cfg, old(Snapshot()), event, p, preferred, clock)
      ensures rows.Keys == old(rows).Keys
      ensures forall u :: u in rows && Some(u) != ResolveUser(old(Snapshot()), p, preferred) ==> rows[u] == old(rows)[u]
      ensures forall u :: u in rows && Some(u) == ResolveUser(old(Snapshot()), p, preferred) ==>
        && AccessEnd(rows[u]) == EndAfter(cfg, old(rows)[u], event, p, clock.now)
        && OnlyMetadata(old(rows)[u], rows[u])
    {
      var target := ResolveUserId(p, preferred);
      if target.None? || target.value !in rows {
        return;
      }
      MetadataMovesAccess(cfg, rows[target.value], event, p, clock.now);
      var row := SyncedRow(rows[target.value], p);
      rows := rows[target.value := row];
    }

    /** The fields of a subscription payload, written where present. */
    method SyncedRow(stored: Row, p: Payload) returns (row: Row)
      ensures row == Upserted(cfg, stored, p)
    {
      row := stored.(subscriptionCode := Or(p.subscriptionCode, stored.subscriptionCode),
                     customerCode := Or(p.customerCode, stored.customerCode),
                     cancelAtPeriodEnd := p.cancelAtPeriodEnd.GetOr(stored.cancelAtPeriodEnd));
      var code := PlanCodeOf(p);
      if !Falsy(code) {
        row := row.(planCode := code);
        var mapped := PlanByCode(cfg.planCodes, code);
        if mapped.Some? {
          row := row.(planId := mapped.value);
        }
      }
      if p.nextPayment.Some? {
        row := row.(periodEnd := p.nextPayment);
      }
    }

    method OnInvoiceCreate(p: Payload, preferred: Option<User>, clock: Clock)
      modifies `rows
      ensures Snapshot() == Webhooks.Process(cfg, old(Snapshot()), "invoice.create", p, preferred, clock)
      ensures rows.Keys == old(rows).Keys
      ensures forall u :: u in rows && Some(u) != ResolveUser(old(Snapshot()), p, preferred) ==> rows[u] == old(rows)[u]
      ensures forall u :: u in rows && Some(u) == ResolveUser(old(Snapshot()), p, preferred) ==>
        && AccessEnd(rows[u]) == EndAfter(cfg, old(rows)[u], "invoice.create", p, clock.now)
        && OnlyPeriod(old(rows)[u], rows[u])
    {
      var target := ResolveUserId(p, preferred);
      if target.None? || target.value !in rows {
        return;
      }
      InvoiceMovesAccess(cfg, rows[target.value], p, clock.now);
      var row := InvoicedRow(rows[target.value], p);
      rows := rows[target.value := row];
    }

    /** The fields of an invoice payload, written where present. */
    method InvoicedRow(stored: Row, p: Payload) returns (row: Row)
      ensures row == Invoiced(stored, p)
    {
      row := stored;
      if !Falsy(p.subscriptionCode) {
        row := row.(subscriptionCode := p.subscriptionCode);
      }
      if p.periodStart.Some? {
        row := row.(periodStart := p.periodStart);
      }
      if p.periodEnd.Some? {
        row := row.(periodEnd := p.periodEnd);
      }
    }

    method OnPaymentFailed(p: Payload, preferred: Option<User>, clock: Clock)
      modifies `rows
      ensures Snapshot() == Webhooks.Process(cfg, old(Snapshot()), "invoice.payment_failed", p, preferred, clock)
      ensures rows.Keys == old(rows).Keys
      ensures forall u :: u in rows && Some(u) != ResolveUser(old(Snapshot()), p, preferred) ==> rows[u] == old(rows)[u]
      ensures forall u :: u in rows && Some(u) == ResolveUser(old(Snapshot()), p, preferred) ==>
        && AccessEnd(rows[u]) == EndAfter(cfg, old(rows)[u], "invoice.payment_failed", p, clock.now)
        && SameMoney(old(rows)[u], rows[u])
    {
      var target := ResolveUserId(p, preferred);
      if target.None? || target.value !in rows {
        return;
      }
      FailureMovesAccess(cfg, rows[target.value], p, clock.now);
      var row := rows[target.value];
      if row.status.Active? {
        var graceEnds := if cfg.graceDays > 0 then clock.now + cfg.graceDays * Webhooks.DAY_MS else clock.now;
        row := row.(status := Status.PaymentFailed, graceEndsAt := Some(graceEnds));
      }
      rows := rows[target.value := row];
    }

    method OnNotRenew(p: Payload, preferred: Option<User>, clock: Clock)
      modifies `rows
      ensures Snapshot() == Webhooks.Process(cfg, old(Snapshot()), "subscription.not_renew", p, preferred, clock)
      ensures rows.Keys == old(rows).Keys
      ensures forall u :: u in rows && Some(u) != ResolveUser(old(Snapshot()), p, preferred) ==> rows[u] == old(rows)[u]
      ensures forall u :: u in rows && Some(u) == ResolveUser(old(Snapshot()), p, preferred) ==>
        && AccessEnd(rows[u]) == UntilOrForever(Or(p.nextPayment, old(rows)[u].periodEnd))
        && OnlyRenewal(old(rows)[u], rows[u], clock.now)
    {
      var target := ResolveUserId(p, preferred);
      if target.None? || target.value !in rows {
        return;
      }
      StopMovesAccess(cfg, rows[target.value], "subscription.not_renew", p, clock.now);
      var row := rows[target.value].(cancelAtPeriodEnd := true, cancelledAt := Some(clock.now), status := NonRenewing);
      if p.nextPayment.Some? {
        row := row.(periodEnd := p.nextPayment);
      }
      rows := rows[target.value := row];
    }

    method OnDisable(p: Payload, preferred: Option<User>, clock: Clock)
      modifies `rows
      ensures Snapshot() == Webhooks.Process(cfg, old(Snapshot()), "subscription.disable", p, preferred, clock)
      ensures rows.Keys == old(rows).Keys
      ensures forall u :: u in rows && Some(u) != ResolveUser(old(Snapshot()), p, preferred) ==> rows[u] == old(rows)[u]
      ensures forall u :: u in rows && Some(u) == ResolveUser(old(Snapshot()), p, preferred) ==>
        && AccessEnd(rows[u]) == UntilOrForever(old(rows)[u].periodEnd)
        && OnlyRenewal(old(rows)[u], rows[u], clock.now)
    {
      var target := ResolveUserId(p, preferred);
      if target.None? || target.value !in rows {
        return;
      }
      StopMovesAccess(cfg, rows[target.value], "subscription.disable", p, clock.now);
      var row := rows[target.value];
      row := row.(cancelAtPeriodEnd := true, cancelledAt := Some(clock.now), status := NonRenewing);
      rows := rows[target.value := row];
    }

    method Dispatch(event: string, p: Payload, user: Option<User>, clock: Clock)
      modifies `rows, `order, `payments, `applied
      ensures Snapshot() == Webhooks.Process(cfg, old(Snapshot()), event, p, user, clock)
    {
      if event == "charge.success" {
        OnChargeSuccess(p, user, clock);
      } else if event == "subscription.create" || event == "invoice.update" {
        OnSubscriptionUpsert(event, p, user, clock);
      } else if event == "invoice.create" {
        OnInvoiceCreate(p, user, clock);
      } else if event == "invoice.payment_failed" {
        OnPaymentFailed(p, user, clock);
      } else if event == "subscription.not_renew" {
        OnNotRenew(p, user, clock);
      } else if event == "subscription.disable" {
        OnDisable(p, user, clock);
      }
    }

    method Handle(d: Delivery) returns (reply: Reply)
      modifies `rows, `order, `payments, `log, `applied
      ensures Snapshot() == HandleWebhook(cfg, old(Snapshot()), d)
      ensures reply == if Ignored(d) then RepliedIgnored
                       else if Duplicate(old(Snapshot()), d) then RepliedDuplicate
                       else Processed
    {
      if Ignored(d) {
        return RepliedIgnored;
      }
      var p := d.data.value;
      var key := DedupeKey(d.event, p);
      if Logged(log, key) {
        return RepliedDuplicate;
      }
      var user := FindUserId(p);
      log := log + [Event(user, d.event, key)];
      Dispatch(d.event, p, user, d.clock);
      reply := Processed;
    }
  }
}
