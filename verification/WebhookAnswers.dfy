/**
 * What the webhook service answers, told from payload fields alone: which
 * deliveries share a key, which are processed, and what a charge writes.
 */
module WebhookAnswers {
  import opened Common
  import opened Subscriptions
  import opened Webhooks
  import opened ChargeLaws

  // ---- Keys --------------------------------------------------------------------------

  predicate Given(field: Option<string>) { field.Some? && field.value != "" }

  /** The payload is known by `name`: its first given field among reference, subscription code, invoice code and id. */
  predicate KnownBy(p: Payload, name: string) {
    || (p.reference == Some(name) && name != "")
    || (!Given(p.reference) && p.subscriptionCode == Some(name) && name != "")
    || (!Given(p.reference) && !Given(p.subscriptionCode) && p.invoiceCode == Some(name) && name != "")
    || (!Given(p.reference) && !Given(p.subscriptionCode) && !Given(p.invoiceCode)
        && p.id == Some(name) && name != "")
    || (!Given(p.reference) && !Given(p.subscriptionCode) && !Given(p.invoiceCode) && !Given(p.id)
        && name == "unknown")
  }

  lemma KeyOfName(event: string, p: Payload, name: string)
    ensures KnownBy(p, name) <==> DedupeKey(event, p) == event + ":" + name
  {
    var key := DedupeKey(event, p);
    assert key[|event| + 1..] == DedupeReference(p);
    assert (event + ":" + name)[|event| + 1..] == name;
  }

  lemma SomeName(p: Payload)
    ensures exists name :: KnownBy(p, name)
  {
    assert KnownBy(p, DedupeReference(p));
  }

  /** Two deliveries ask for the same thing: their events and the names they are known by spell the same key. */
  ghost predicate SameRequest(d: Delivery, e: Delivery)
    requires !Ignored(d) && !Ignored(e)
  {
    exists m, n :: KnownBy(d.data.value, m) && KnownBy(e.data.value, n) && d.event + ":" + m == e.event + ":" + n
  }

  lemma SameRequestIsSameKey(d: Delivery, e: Delivery)
    requires !Ignored(d) && !Ignored(e)
    ensures SameRequest(d, e) <==> KeyOf(d) == KeyOf(e)
  {
    var p, q := d.data.value, e.data.value;
    if KeyOf(d) == KeyOf(e) {
      var m, n := DedupeReference(p), DedupeReference(q);
      KeyOfName(d.event, p, m);
      KeyOfName(e.event, q, n);
      assert KnownBy(p, m) && KnownBy(q, n) && d.event + ":" + m == e.event + ":" + n;
    }
    if m, n :| KnownBy(p, m) && KnownBy(q, n) && d.event + ":" + m == e.event + ":" + n {
      KeyOfName(d.event, p, m);
      KeyOfName(e.event, q, n);
    }
  }

  predicate ColonFree(s: string) { ':' !in s }

  /** Of events without a colon, as every event handled is, deliveries agree exactly in event and name. */
  lemma SameRequestMeans(d: Delivery, e: Delivery)
    requires !Ignored(d) && !Ignored(e) && ColonFree(d.event) && ColonFree(e.event)
    ensures SameRequest(d, e) <==>
            d.event == e.event && forall name :: KnownBy(d.data.value, name) <==> KnownBy(e.data.value, name)
  {
    var p, q := d.data.value, e.data.value;
    SameRequestIsSameKey(d, e);
    if KeyOf(d) == KeyOf(e) {
      SameHead(d.event, DedupeReference(p), e.event, DedupeReference(q));
      forall name
        ensures KnownBy(p, name) <==> KnownBy(q, name)
      {
        KeyOfName(d.event, p, name);
        KeyOfName(e.event, q, name);
      }
    }
    if d.event == e.event && forall name :: KnownBy(p, name) <==> KnownBy(q, name) {
      var m := DedupeReference(p);
      KeyOfName(d.event, p, m);
      KeyOfName(e.event, q, m);
    }
  }

  /** The text before the first colon is the event. */
  lemma SameHead(a: string, m: string, b: string, n: string)
    requires ColonFree(a) && ColonFree(b) && a + ":" + m == b + ":" + n
    ensures a == b && m == n
  {
    var key := a + ":" + m;
    assert key[|a|] == ':' && key[|b|] == ':';
    assert forall i :: 0 <= i < |a| ==> key[i] == a[i];
    assert forall i :: 0 <= i < |b| ==> key[i] == b[i];
    assert |a| == |b|;
    assert a == key[..|a|] && b == key[..|b|];
    assert m == key[|a| + 1..] && n == key[|b| + 1..];
  }

  predicate BothGiven(a: Option<string>, b: Option<string>) { Given(a) && Given(b) }

  predicate NeitherGiven(a: Option<string>, b: Option<string>) { !Given(a) && !Given(b) }

  /** Field by field: deliveries of one event share a key exactly when their first given fields agree. */
  lemma KeysByField(event: string, p: Payload, q: Payload)
    ensures var same := DedupeKey(event, p) == DedupeKey(event, q);
            if BothGiven(p.reference, q.reference) then same <==> p.reference == q.reference
            else NeitherGiven(p.reference, q.reference) ==>
              if BothGiven(p.subscriptionCode, q.subscriptionCode) then
                same <==> p.subscriptionCode == q.subscriptionCode
              else NeitherGiven(p.subscriptionCode, q.subscriptionCode) ==>
                if BothGiven(p.invoiceCode, q.invoiceCode) then same <==> p.invoiceCode == q.invoiceCode
                else NeitherGiven(p.invoiceCode, q.invoiceCode) ==>
                  if BothGiven(p.id, q.id) then same <==> p.id == q.id
                  else NeitherGiven(p.id, q.id) ==> same
  {
    assert DedupeKey(event, p)[|event| + 1..] == DedupeReference(p);
    assert DedupeKey(event, q)[|event| + 1..] == DedupeReference(q);
  }

  // ---- Which deliveries are processed ---------------------------------------------------

  ghost predicate Asked(actions: seq<Action>, key: string) {
    exists i :: 0 <= i < |actions| && actions[i].Deliver? && !Ignored(actions[i].delivery)
                && KeyOf(actions[i].delivery) == key
  }

  lemma AskedCons(a: Action, rest: seq<Action>, key: string)
    ensures Asked([a] + rest, key) <==>
            (a.Deliver? && !Ignored(a.delivery) && KeyOf(a.delivery) == key) || Asked(rest, key)
  {
    var all := [a] + rest;
    if Asked(rest, key) {
      var i :| 0 <= i < |rest| && rest[i].Deliver? && !Ignored(rest[i].delivery) && KeyOf(rest[i].delivery) == key;
      assert all[i + 1] == rest[i];
    }
    if a.Deliver? && !Ignored(a.delivery) && KeyOf(a.delivery) == key {
      assert all[0] == a;
    }
  }

  lemma StepLogsKey(cfg: Config, s: Store, a: Action, key: string)
    ensures Logged(Webhooks.Step(cfg, s, a).log, key) <==>
            Logged(s.log, key) || (a.Deliver? && !Ignored(a.delivery) && KeyOf(a.delivery) == key)
  {
    StepLogs(cfg, s, a);
    if a.Deliver? && !Ignored(a.delivery) && !Duplicate(s, a.delivery) {
      var e: Event :| e.key == KeyOf(a.delivery) && Webhooks.Step(cfg, s, a).log == s.log + [e];
      LoggedAppend(s.log, e, key);
    }
  }

  /** The log holds exactly the keys asked for. */
  lemma {:induction false} LogIsAsked(cfg: Config, s: Store, actions: seq<Action>, key: string)
    ensures Logged(RunActions(cfg, s, actions).log, key) <==> Logged(s.log, key) || Asked(actions, key)
    decreases |actions|
  {
    if actions != [] {
      StepLogsKey(cfg, s, actions[0], key);
      LogIsAsked(cfg, Webhooks.Step(cfg, s, actions[0]), actions[1..], key);
      AskedCons(actions[0], actions[1..], key);
      assert actions == [actions[0]] + actions[1..];
    }
  }

  /** After any run from an empty log, a delivery is a duplicate exactly when one of the run asked the same. */
  lemma DuplicateExactly(cfg: Config, s: Store, actions: seq<Action>, d: Delivery)
    requires s.log == [] && !Ignored(d)
    ensures Duplicate(RunActions(cfg, s, actions), d) <==>
            exists i :: 0 <= i < |actions| && actions[i].Deliver? && !Ignored(actions[i].delivery)
                        && SameRequest(actions[i].delivery, d)
  {
    LogIsAsked(cfg, s, actions, KeyOf(d));
    forall i | 0 <= i < |actions| && actions[i].Deliver? && !Ignored(actions[i].delivery)
      ensures SameRequest(actions[i].delivery, d) <==> KeyOf(actions[i].delivery) == KeyOf(d)
    {
      SameRequestIsSameKey(actions[i].delivery, d);
    }
  }

  /** Every delivery that is neither ignored nor a duplicate is logged once, under its event. */
  lemma ProcessedIsLogged(cfg: Config, s: Store, d: Delivery)
    requires !Ignored(d) && !Duplicate(s, d)
    ensures var t := HandleWebhook(cfg, s, d);
            |t.log| == |s.log| + 1 && s.log <= t.log && t.log[|s.log|].event == d.event
            && exists name :: KnownBy(d.data.value, name) && t.log[|s.log|].key == d.event + ":" + name
  {
    var name := DedupeReference(d.data.value);
    KeyOfName(d.event, d.data.value, name);
    assert KnownBy(d.data.value, name);
  }

  // ---- What a charge writes -------------------------------------------------------------

  /** The first of two fields that is present. */
  predicate First<T(==)>(a: Option<T>, b: Option<T>, r: Option<T>) { if a.Some? then r == a else r == b }

  /** The interval the payload names first: the plan's, the subscription's plan's, its own. */
  function NamedInterval(p: Payload): Option<string> {
    if p.planInterval.Some? then p.planInterval
    else if p.innerPlanInterval.Some? then p.innerPlanInterval
    else p.interval
  }

  predicate SaysYearly(p: Payload) { NamedInterval(p) == Some("annual") || NamedInterval(p) == Some("yearly") }

  predicate SaysMonthly(p: Payload) { NamedInterval(p) == Some("monthly") }

  /** The first configured plan with the code. */
  ghost predicate Configured(codes: seq<(string, Code)>, code: Option<Code>, plan: string) {
    Given(code)
    && exists i :: 0 <= i < |codes| && codes[i] == (plan, code.value)
                   && forall j :: 0 <= j < i ==> codes[j].1 != code.value
  }

  ghost predicate NotConfigured(codes: seq<(string, Code)>, code: Option<Code>) {
    !Given(code) || forall i :: 0 <= i < |codes| ==> codes[i].1 != code.value
  }

  lemma {:induction false} PlanByCodeExactly(codes: seq<(string, Code)>, code: Option<Code>)
    ensures PlanByCode(codes, code).Some? ==> Configured(codes, code, PlanByCode(codes, code).value)
    ensures PlanByCode(codes, code).None? ==> NotConfigured(codes, code)
    decreases |codes|
  {
    if Given(code) && codes != [] && codes[0].1 != code.value {
      PlanByCodeExactly(codes[1..], code);
      if PlanByCode(codes, code).Some? {
        var plan := PlanByCode(codes, code).value;
        var i :| 0 <= i < |codes| - 1 && codes[1..][i] == (plan, code.value)
                 && forall j :: 0 <= j < i ==> codes[1..][j].1 != code.value;
        assert codes[i + 1] == (plan, code.value);
        forall j | 0 <= j < i + 1
          ensures codes[j].1 != code.value
        {
          assert j > 0 ==> codes[j] == codes[1..][j - 1];
        }
      } else {
        forall j | 0 <= j < |codes|
          ensures codes[j].1 != code.value
        {
          assert j > 0 ==> codes[j] == codes[1..][j - 1];
        }
      }
    } else if Given(code) && codes != [] {
      assert codes[0] == (codes[0].0, code.value);
    }
  }

  /** The plan of an unmapped charge: premium from 4000 Naira on, basic below, basic monthly if no interval is named. */
  predicate TierPlan(p: Payload, plan: string) {
    var premium := (p.planKobo.Some? && p.planKobo.value >= 400000) || (p.kobo.Some? && p.kobo.value >= 400000);
    if SaysYearly(p) then plan == (if premium then "PREMIUM_YEARLY" else "BASIC_YEARLY")
    else if SaysMonthly(p) then plan == (if premium then "PREMIUM_MONTHLY" else "BASIC_MONTHLY")
    else plan == "BASIC_MONTHLY"
  }

  /** Interval, period, price and codes of a charge, from the payload. */
  lemma ChargeFields(cfg: Config, p: Payload, reference: Reference, clock: Clock)
    ensures var c := ChargeOf(cfg, p, reference, clock);
            var kobo := if p.kobo.Some? then p.kobo.value else if p.planKobo.Some? then p.planKobo.value else 0;
            && (c.interval.Yearly? <==> SaysYearly(p))
            && c.periodEnd == (if p.innerNextPayment.Some? then p.innerNextPayment.value
                               else if SaysYearly(p) then clock.nextYear
                               else clock.nextMonth)
            && 100 * c.amount - 50 <= kobo < 100 * c.amount + 50
            && c.reference == reference && c.customerCode == p.customerCode
            && c.authorizationCode == p.authorizationCode
            && First(p.innerSubscriptionCode, p.subscriptionCode, c.subscriptionCode)
            && First(p.planCode, p.innerPlanCode, c.planCode)
  {
  }

  lemma ChargePlan(cfg: Config, p: Payload, reference: Reference, clock: Clock)
    ensures var c := ChargeOf(cfg, p, reference, clock);
            || Configured(cfg.planCodes, c.planCode, c.planId)
            || (NotConfigured(cfg.planCodes, c.planCode) && TierPlan(p, c.planId))
  {
    PlanByCodeExactly(cfg.planCodes, PlanCodeOf(p));
  }

  /** An activated row: paid now, until the charge's end, with nothing pending against it; codes it lacks stay. */
  predicate ActivatedBy(before: Row, after: Row, now: Instant, c: Charge) {
    && after.status == Active && after.planId == c.planId
    && after.interval == Some(c.interval) && after.amount == Some(c.amount)
    && after.periodStart == Some(now) && after.periodEnd == Some(c.periodEnd) && after.graceEndsAt == None
    && !after.cancelAtPeriodEnd && after.cancelledAt == None
    && after.lastPaymentReference == Some(c.reference)
    && First(c.customerCode, before.customerCode, after.customerCode)
    && First(c.authorizationCode, before.authorizationCode, after.authorizationCode)
    && First(c.subscriptionCode, before.subscriptionCode, after.subscriptionCode)
    && First(c.planCode, before.planCode, after.planCode)
    && after.trialEndsAt == before.trialEndsAt
    && after.freeAccess == before.freeAccess && after.freeAccessExpiresAt == before.freeAccessExpiresAt
  }

  lemma ActivateAnswers(row: Row, now: Instant, c: Charge)
    ensures ActivatedBy(row, Activate(row, now, c), now, c)
  {
  }

  /** A row an account gets with its first charge, before the charge is written. */
  predicate Fresh(row: Row) {
    && row.trialEndsAt == None && !row.freeAccess && row.freeAccessExpiresAt == None
    && row.customerCode == None && row.authorizationCode == None && row.subscriptionCode == None && row.planCode == None
  }

  /** Only this account's row is activated by this charge. */
  ghost predicate ActivatesOnly(s: Store, t: Store, user: User, now: Instant, c: Charge) {
    && t.rows.Keys == s.rows.Keys + {user}
    && (forall u :: u in s.rows && u != user ==> t.rows[u] == s.rows[u])
    && (user in s.rows ==> ActivatedBy(s.rows[user], t.rows[user], now, c))
    && (user !in s.rows ==> exists blank :: Fresh(blank) && ActivatedBy(blank, t.rows[user], now, c))
  }

  lemma ApplyAnswers(s: Store, user: User, now: Instant, c: Charge, via: Via)
    ensures ActivatesOnly(s, ApplyCharge(s, user, now, c, via), user, now, c)
  {
    ActivateAnswers(if user in s.rows then s.rows[user] else BLANK, now, c);
    assert Fresh(BLANK);
  }

  /** A known payment becomes paid, once, at the time and over the channel the charge names. */
  predicate SettlesOnly(s: Store, t: Store, reference: Reference, paidAt: Instant, channel: Option<string>) {
    if reference !in s.payments || s.payments[reference].status == Success then t.payments == s.payments
    else
      t.payments == s.payments[reference := s.payments[reference].(
        status := Success, paidAt := Some(paidAt), channel := channel)]
  }

  /** A charge handler that applies its charge, for an account whose last charge is another. */
  lemma HandlerApplies(cfg: Config, s: Store, p: Payload, user: Option<User>, clock: Clock, target: User)
    requires Given(p.reference)
    requires var r := p.reference.value;
             Some(target) == if r in s.payments then Some(s.payments[r].user) else ResolveUser(s, p, user)
    requires target in s.rows ==> s.rows[target].lastPaymentReference != p.reference
    ensures var r, now := p.reference.value, clock.now;
            var t := HandleChargeSuccess(cfg, s, p, user, clock);
            && ActivatesOnly(s, t, target, now, ChargeOf(cfg, p, r, clock))
            && SettlesOnly(s, t, r, if p.paidAt.Some? then p.paidAt.value else now, ChannelOf(s, p, r))
  {
    ApplyAnswers(s, target, clock.now, ChargeOf(cfg, p, p.reference.value, clock), ByWebhook);
  }

  /** The channel a charge names, else the payment's. */
  function ChannelOf(s: Store, p: Payload, reference: Reference): Option<string> {
    if p.channel.Some? then p.channel
    else if reference in s.payments then s.payments[reference].channel
    else None
  }

  lemma HandlerSkips(cfg: Config, s: Store, p: Payload, user: Option<User>, clock: Clock)
    requires Given(p.reference)
    requires var r := p.reference.value;
             var target := if r in s.payments then Some(s.payments[r].user) else ResolveUser(s, p, user);
             target.None? || (target.value in s.rows && s.rows[target.value].lastPaymentReference == p.reference)
    ensures HandleChargeSuccess(cfg, s, p, user, clock) == s
  {
  }

  /** Whether a delivery's charge is applied. */
  ghost predicate IsApplied(s: Store, p: Payload, reference: Reference) {
    var target := ChargeTarget(s, p, reference);
    !Logged(s.log, ChargeKey(reference)) && target.Some? && LastApplied(s.applied, target.value) != Some(reference)
  }

  /**
   * A charge delivery that is applied activates exactly its account's row and
   * settles exactly its payment; one that is not writes neither.
   */
  lemma ChargeAnswers(cfg: Config, s: Store, d: Delivery, reference: Reference)
    requires LastAgrees(s) && ChargeDelivery(d, reference)
    ensures var p, now := d.data.value, d.clock.now;
            var t := HandleWebhook(cfg, s, d);
            if IsApplied(s, p, reference) then
              && ActivatesOnly(s, t, ChargeTarget(s, p, reference).value, now, ChargeOf(cfg, p, reference, d.clock))
              && SettlesOnly(s, t, reference, if p.paidAt.Some? then p.paidAt.value else now,
                             ChannelOf(s, p, reference))
            else t.rows == s.rows && t.payments == s.payments
  {
    var p := d.data.value;
    var target := ChargeTarget(s, p, reference);
    assert KeyOf(d) == ChargeKey(reference);
    if target.Some? {
      assert LastApplied(s.applied, target.value)
          == if target.value in s.rows then s.rows[target.value].lastPaymentReference else None;
    }
    if !Duplicate(s, d) {
      var user := FindUser(s, p);
      var logged := s.(log := s.log + [Event(user, d.event, KeyOf(d))]);
      if IsApplied(s, p, reference) {
        HandlerApplies(cfg, logged, p, user, d.clock, target.value);
      } else {
        HandlerSkips(cfg, logged, p, user, d.clock);
      }
    }
  }

  // ---- Whose delivery it is ----------------------------------------------------------------

  /** The account that has had a row longest among those with the customer code. */
  lemma {:induction false} FirstWithCodeExactly(rows: map<User, Row>, order: seq<User>, code: Option<Code>)
    ensures var u := FirstWithCode(rows, order, code);
            if u.Some? then
              && Given(code)
              && u.value in rows && rows[u.value].customerCode == code
              && exists i :: 0 <= i < |order| && order[i] == u.value
                   && forall j :: 0 <= j < i ==> !(order[j] in rows && rows[order[j]].customerCode == code)
            else Given(code) ==> forall v :: v in order && v in rows ==> rows[v].customerCode != code
    decreases |order|
  {
    if Given(code) && order != [] {
      if order[0] in rows && rows[order[0]].customerCode == code {
        assert order[0] == FirstWithCode(rows, order, code).value;
      } else {
        FirstWithCodeExactly(rows, order[1..], code);
        var u := FirstWithCode(rows, order, code);
        if u.Some? {
          var i :| 0 <= i < |order| - 1 && order[1..][i] == u.value
                   && forall j :: 0 <= j < i ==> !(order[1..][j] in rows && rows[order[1..][j]].customerCode == code);
          assert order[i + 1] == u.value;
          forall j | 0 <= j < i + 1
            ensures !(order[j] in rows && rows[order[j]].customerCode == code)
          {
            assert j > 0 ==> order[j] == order[1..][j - 1];
          }
        }
      }
    }
  }

  /** A payload is the account's with its customer code, else the one with its email, else nobody's. */
  lemma FindUserAnswers(s: Store, p: Payload)
    ensures var byCode := FirstWithCode(s.rows, s.order, p.customerCode);
            FindUser(s, p) == if byCode.Some? then byCode
                              else if Given(p.customerEmail) && p.customerEmail.value in s.users
                              then Some(s.users[p.customerEmail.value])
                              else None
  {
  }

  // ---- The fields of the other events --------------------------------------------------------

  /** Renewal metadata takes every field the payload names, and keeps the rest. */
  lemma UpsertFields(cfg: Config, row: Row, event: string, p: Payload, now: Instant)
    requires event == "subscription.create" || event == "invoice.update"
    ensures var r := RowAfter(cfg, row, event, p, now);
            var code := if p.planCode.Some? then p.planCode else p.innerPlanCode;
            && First(p.subscriptionCode, row.subscriptionCode, r.subscriptionCode)
            && First(p.customerCode, row.customerCode, r.customerCode)
            && First(p.nextPayment, row.periodEnd, r.periodEnd)
            && r.cancelAtPeriodEnd == (if p.cancelAtPeriodEnd.Some? then p.cancelAtPeriodEnd.value
                                       else row.cancelAtPeriodEnd)
            && r.planCode == (if Given(code) then code else row.planCode)
            && (Configured(cfg.planCodes, code, r.planId)
                || (NotConfigured(cfg.planCodes, code) && r.planId == row.planId))
  {
    PlanByCodeExactly(cfg.planCodes, PlanCodeOf(p));
  }

  /** An invoice sets its period and subscription; a failed payment the grace period; an end of renewal its marks. */
  lemma EventFields(cfg: Config, row: Row, p: Payload, now: Instant)
    ensures var r := RowAfter(cfg, row, "invoice.create", p, now);
            && r.subscriptionCode == (if Given(p.subscriptionCode) then p.subscriptionCode else row.subscriptionCode)
            && First(p.periodStart, row.periodStart, r.periodStart) && First(p.periodEnd, row.periodEnd, r.periodEnd)
    ensures RowAfter(cfg, row, "invoice.payment_failed", p, now)
      == if row.status != Active then row
         else row.(status := Status.PaymentFailed, graceEndsAt := Some(now + cfg.graceDays * 86400000))
    ensures RowAfter(cfg, row, "subscription.disable", p, now)
      == row.(cancelAtPeriodEnd := true, cancelledAt := Some(now), status := NonRenewing)
    ensures RowAfter(cfg, row, "subscription.not_renew", p, now)
      == row.(cancelAtPeriodEnd := true, cancelledAt := Some(now), status := NonRenewing,
              periodEnd := if p.nextPayment.Some? then p.nextPayment else row.periodEnd)
  {
  }

  // ---- Server-side verification ----------------------------------------------------------------

  /** The charge a verification applies: the payment's plan, interval and price, with the codes the provider names. */
  predicate VerifiedAs(payment: Payment, reference: Reference, v: Verdict, clock: Clock, c: Charge) {
    && c.interval == payment.interval && c.amount == payment.amount && c.reference == reference
    && c.periodEnd == (if payment.interval == Yearly then clock.nextYear else clock.nextMonth)
    && c.customerCode == v.customerCode && c.authorizationCode == v.authorizationCode
    && c.subscriptionCode == v.subscriptionCode
  }

  /** A verification that may not run writes nothing; a failed one marks the payment; a settled one reads the row. */
  lemma VerifyRefuses(cfg: Config, s: Store, user: User, reference: Reference, v: Verdict, clock: Clock)
    ensures var t := Verify(cfg, s, user, reference, v, clock);
            if reference == "" || reference !in s.payments || s.payments[reference].user != user then t == s
            else if s.payments[reference].status == Success then
              && t.payments == s.payments && t.rows.Keys == s.rows.Keys
              && (forall u :: u in s.rows ==> t.rows[u] == if u == user then Read(s.rows[u], clock.now) else s.rows[u])
            else if !v.success then
              t == s.(payments := s.payments[reference := s.payments[reference].(status := Failed)])
            else s.payments[reference].planId !in cfg.codeVariables ==> t == s
  {
  }

  /** A verification that succeeds activates the payer's row, marks the payment paid, and reads the row. */
  lemma VerifyActivates(cfg: Config, s: Store, user: User, reference: Reference, v: Verdict, clock: Clock)
    requires reference != "" && reference in s.payments && s.payments[reference].user == user
    requires s.payments[reference].status != Success && v.success && s.payments[reference].planId in cfg.codeVariables
    ensures var t := Verify(cfg, s, user, reference, v, clock);
            var payment := s.payments[reference];
            var paidAt := if v.paidAt.Some? then v.paidAt.value else clock.now;
            && (exists c, mid :: VerifiedAs(payment, reference, v, clock, c)
                  && ActivatesOnly(s, mid, user, clock.now, c)
                  && t.rows == mid.rows[user := Read(mid.rows[user], clock.now)])
            && SettlesOnly(s, t, reference, paidAt, if Given(v.channel) then v.channel else None)
  {
    var c := VerifiedCharge(cfg, s, reference, v, clock);
    var mid := ApplyCharge(s, user, clock.now, c, ByVerification);
    ApplyAnswers(s, user, clock.now, c, ByVerification);
    assert VerifiedAs(s.payments[reference], reference, v, clock, c);
  }

  lemma VerifiedPlan(cfg: Config, s: Store, reference: Reference, v: Verdict, clock: Clock)
    requires reference in s.payments && s.payments[reference].planId in cfg.codeVariables
    ensures var c, payment := VerifiedCharge(cfg, s, reference, v, clock), s.payments[reference];
            && (Configured(cfg.planCodes, v.planCode, c.planId)
                || (NotConfigured(cfg.planCodes, v.planCode) && c.planId == payment.planId))
            && c.planCode == (if v.planCode.Some? then v.planCode
                              else if payment.user in s.rows then Some(cfg.codeVariables[payment.planId])
                              else None)
  {
    PlanByCodeExactly(cfg.planCodes, v.planCode);
  }
}
