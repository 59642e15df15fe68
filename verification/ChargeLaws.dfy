/**
 * What every run of webhooks, verifications and account operations keeps about
 * applied charges, and where the lazy expiry of a row shows through a webhook.
 */
module ChargeLaws {
  import opened Common
  import opened Subscriptions
  import opened Webhooks

  function ChargeKey(reference: Reference): string { "charge.success:" + reference }

  /** The last charge applied to a user. */
  function LastApplied(applied: seq<Applied>, user: User): Option<Reference>
    decreases |applied|
  {
    if applied == [] then None
    else
      var last := applied[|applied| - 1];
      if last.user == user then Some(last.reference) else LastApplied(applied[..|applied| - 1], user)
  }

  /** Verified first, applied again by the webhook, to the same user and with another charge of theirs in between. */
  ghost predicate Apart(applied: seq<Applied>, i: nat, j: nat)
    requires i < j < |applied|
  {
    && applied[i].via.ByVerification? && applied[j].via.ByWebhook? && applied[i].user == applied[j].user
    && exists k :: i < k < j && applied[k].user == applied[i].user && applied[k].reference != applied[i].reference
  }

  /** The only way a charge is applied a second time. */
  ghost predicate Spaced(applied: seq<Applied>) {
    forall i, j :: 0 <= i < j < |applied| && applied[i].reference == applied[j].reference ==> Apart(applied, i, j)
  }

  ghost predicate LastAgrees(s: Store) {
    forall u :: LastApplied(s.applied, u) == if u in s.rows then s.rows[u].lastPaymentReference else None
  }

  /** An applied charge of a known payment went to its owner and left it paid. */
  ghost predicate AppliedIsPaid(s: Store) {
    forall a :: a in s.applied ==>
      && (a.via.ByVerification? ==> a.reference in s.payments)
      && (a.reference in s.payments ==>
           s.payments[a.reference].status.Success? && s.payments[a.reference].user == a.user)
  }

  ghost predicate AppliedIsLogged(s: Store) {
    forall a :: a in s.applied && a.via.ByWebhook? ==> Logged(s.log, ChargeKey(a.reference))
  }

  ghost predicate KeysUnique(log: seq<Event>) { forall i, j :: 0 <= i < j < |log| ==> log[i].key != log[j].key }

  ghost predicate Consistent(s: Store) {
    LastAgrees(s) && AppliedIsPaid(s) && AppliedIsLogged(s) && KeysUnique(s.log) && Spaced(s.applied)
  }

  /** Nothing applied or logged yet; payments are whatever checkout left. */
  ghost predicate Start(s: Store) {
    s.applied == [] && s.log == [] && forall u :: u in s.rows ==> s.rows[u].lastPaymentReference == None
  }

  // ---- Steps ---------------------------------------------------------------------------

  lemma LastAppend(applied: seq<Applied>, a: Applied, user: User)
    ensures LastApplied(applied + [a], user) == if a.user == user then Some(a.reference) else LastApplied(applied, user)
  {
    assert (applied + [a])[..|applied|] == applied;
  }

  /** Where the last charge of a user stands, no earlier than any charge of theirs. */
  lemma {:induction false} LastIsAfter(applied: seq<Applied>, i: nat) returns (k: nat)
    requires i < |applied|
    ensures i <= k < |applied| && applied[k].user == applied[i].user
    ensures LastApplied(applied, applied[i].user) == Some(applied[k].reference)
    decreases |applied|
  {
    var n := |applied| - 1;
    if applied[n].user == applied[i].user {
      k := n;
    } else {
      k := LastIsAfter(applied[..n], i);
    }
  }

  lemma ApartStays(applied: seq<Applied>, a: Applied, i: nat, j: nat)
    requires i < j < |applied| && Apart(applied, i, j)
    ensures Apart(applied + [a], i, j)
  {
    var k :| i < k < j && applied[k].user == applied[i].user && applied[k].reference != applied[i].reference;
    assert (applied + [a])[k] == applied[k];
  }

  lemma SecondTimeIsApart(applied: seq<Applied>, a: Applied, i: nat)
    requires i < |applied| && applied[i].reference == a.reference && applied[i].user == a.user
    requires a.via.ByWebhook? && applied[i].via.ByVerification?
    requires LastApplied(applied, a.user) != Some(a.reference)
    ensures Apart(applied + [a], i, |applied|)
  {
    var k := LastIsAfter(applied, i);
    assert (applied + [a])[k] == applied[k];
  }

  /** A charge that is not the user's last may be applied by its webhook, if only a verification did so before. */
  lemma AppendKeepsSpaced(applied: seq<Applied>, a: Applied)
    requires Spaced(applied) && LastApplied(applied, a.user) != Some(a.reference)
    requires forall b :: b in applied && b.reference == a.reference ==>
      a.via.ByWebhook? && b.via.ByVerification? && b.user == a.user
    ensures Spaced(applied + [a])
  {
    var all := applied + [a];
    forall i, j | 0 <= i < j < |all| && all[i].reference == all[j].reference
      ensures Apart(all, i, j)
    {
      assert applied[i] in applied;
      if j < |applied| {
        ApartStays(applied, a, i, j);
      } else {
        SecondTimeIsApart(applied, a, i);
      }
    }
  }

  lemma ApplyKeepsLast(s: Store, user: User, now: Instant, c: Charge, via: Via)
    requires LastAgrees(s)
    ensures LastAgrees(ApplyCharge(s, user, now, c, via))
  {
    var t := ApplyCharge(s, user, now, c, via);
    forall u
      ensures LastApplied(t.applied, u) == if u in t.rows then t.rows[u].lastPaymentReference else None
    {
      LastAppend(s.applied, Applied(user, c.reference, via), u);
    }
  }

  /** Writes that leave every last reference, charge, payment and logged key alone. */
  ghost predicate OnlyRows(s: Store, t: Store) {
    && t.applied == s.applied && t.log == s.log && t.payments == s.payments && t.rows.Keys == s.rows.Keys
    && forall u :: u in s.rows ==> t.rows[u].lastPaymentReference == s.rows[u].lastPaymentReference
  }

  lemma OnlyRowsKeeps(s: Store, t: Store)
    requires Consistent(s) && OnlyRows(s, t)
    ensures Consistent(t)
  {
    forall u
      ensures LastApplied(t.applied, u) == if u in t.rows then t.rows[u].lastPaymentReference else None
    {
      assert LastApplied(s.applied, u) == if u in s.rows then s.rows[u].lastPaymentReference else None;
      assert u in s.rows.Keys <==> u in t.rows.Keys;
    }
  }

  lemma LogKeeps(s: Store, e: Event)
    requires Consistent(s) && !Logged(s.log, e.key)
    ensures Consistent(s.(log := s.log + [e]))
    ensures Logged(s.log + [e], e.key)
  {
    LoggedAppend(s.log, e, e.key);
    forall a | a in s.applied && a.via.ByWebhook?
      ensures Logged(s.log + [e], ChargeKey(a.reference))
    {
      LoggedAppend(s.log, e, ChargeKey(a.reference));
    }
  }

  /** The handler of a charge whose key the gate has just logged for the first time. */
  lemma ChargeKeeps(cfg: Config, s: Store, p: Payload, user: Option<User>, clock: Clock)
    requires Consistent(s)
    requires Falsy(p.reference) || Logged(s.log, ChargeKey(p.reference.value))
    requires !Falsy(p.reference) ==> forall a :: a in s.applied && a.via.ByWebhook? ==> a.reference != p.reference.value
    ensures Consistent(HandleChargeSuccess(cfg, s, p, user, clock))
  {
    var t := HandleChargeSuccess(cfg, s, p, user, clock);
    if t != s {
      var reference := p.reference.value;
      var known := reference in s.payments;
      var target := if known then s.payments[reference].user else ResolveUser(s, p, user).value;
      var a := Applied(target, reference, ByWebhook);
      assert t.applied == s.applied + [a];
      assert LastApplied(s.applied, target) == if target in s.rows then s.rows[target].lastPaymentReference else None;
      AppendKeepsSpaced(s.applied, a);
      ApplyKeepsLast(s, target, clock.now, ChargeOf(cfg, p, reference, clock), ByWebhook);
      WebhookPays(cfg, s, p, user, clock, a);
    }
  }

  lemma WebhookPays(cfg: Config, s: Store, p: Payload, user: Option<User>, clock: Clock, a: Applied)
    requires AppliedIsPaid(s) && !Falsy(p.reference) && a.reference == p.reference.value && a.via.ByWebhook?
    requires HandleChargeSuccess(cfg, s, p, user, clock).applied == s.applied + [a]
    requires a.reference in s.payments ==> a.user == s.payments[a.reference].user
    ensures AppliedIsPaid(HandleChargeSuccess(cfg, s, p, user, clock))
  {
  }

  /** Applying a charge nobody was ever given, and settling its payment. */
  lemma VerificationApplies(s: Store, user: User, now: Instant, c: Charge, paid: Payment)
    requires Consistent(s) && c.reference in s.payments && paid.user == user && paid.status.Success?
    requires forall b :: b in s.applied ==> b.reference != c.reference
    ensures var t := ApplyCharge(s, user, now, c, ByVerification);
            Consistent(t.(payments := t.payments[c.reference := paid]))
  {
    NeverApplied(s.applied, user, c.reference);
    AppendKeepsSpaced(s.applied, Applied(user, c.reference, ByVerification));
    ApplyKeepsLast(s, user, now, c, ByVerification);
  }

  lemma ReadKeeps(s: Store, user: User, now: Instant)
    requires Consistent(s)
    ensures Consistent(ReadRow(s, user, now))
  {
    assert OnlyRows(s, ReadRow(s, user, now));
    OnlyRowsKeeps(s, ReadRow(s, user, now));
  }

  lemma VerifyKeeps(cfg: Config, s: Store, user: User, reference: Reference, v: Verdict, clock: Clock)
    requires Consistent(s)
    ensures Consistent(Verify(cfg, s, user, reference, v, clock))
  {
    if reference in s.payments && s.payments[reference].user == user {
      var payment := s.payments[reference];
      if payment.status.Success? {
        ReadKeeps(s, user, clock.now);
      } else {
        assert forall b :: b in s.applied ==> b.reference != reference;
        if v.success && payment.planId in cfg.codeVariables && reference != "" {
          var channel := if Falsy(v.channel) then None else v.channel;
          var paid := Settle(payment, v.paidAt.GetOr(clock.now), channel);
          var c := VerifiedCharge(cfg, s, reference, v, clock);
          VerificationApplies(s, user, clock.now, c, paid);
          var t := ApplyCharge(s, user, clock.now, c, ByVerification);
          ReadKeeps(t.(payments := t.payments[reference := paid]), user, clock.now);
        }
      }
    }
  }

  lemma {:induction false} NeverApplied(applied: seq<Applied>, user: User, reference: Reference)
    requires forall b :: b in applied ==> b.reference != reference
    ensures LastApplied(applied, user) != Some(reference)
    decreases |applied|
  {
    if applied != [] {
      NeverApplied(applied[..|applied| - 1], user, reference);
    }
  }

  /** A charge whose key is new was never applied by a webhook. */
  lemma NewKeyNewCharge(s: Store, d: Delivery)
    requires AppliedIsLogged(s) && !Ignored(d) && !Duplicate(s, d) && d.event == "charge.success"
    ensures !Falsy(d.data.value.reference) ==>
              && KeyOf(d) == ChargeKey(d.data.value.reference.value)
              && forall a :: a in s.applied && a.via.ByWebhook? ==> a.reference != d.data.value.reference.value
  {
  }

  lemma EventWritesRows(cfg: Config, s: Store, event: string, p: Payload, user: Option<User>, clock: Clock)
    requires event != "charge.success"
    ensures OnlyRows(s, Process(cfg, s, event, p, user, clock))
  {
  }

  lemma EventKeeps(cfg: Config, s: Store, event: string, p: Payload, user: Option<User>, clock: Clock)
    requires Consistent(s) && event != "charge.success"
    ensures Consistent(Process(cfg, s, event, p, user, clock))
  {
    EventWritesRows(cfg, s, event, p, user, clock);
    OnlyRowsKeeps(s, Process(cfg, s, event, p, user, clock));
  }

  lemma DeliveryKeeps(cfg: Config, s: Store, d: Delivery)
    requires Consistent(s)
    ensures Consistent(HandleWebhook(cfg, s, d))
  {
    if !Ignored(d) && !Duplicate(s, d) {
      var p := d.data.value;
      var user := FindUser(s, p);
      var e := Event(user, d.event, KeyOf(d));
      var logged := s.(log := s.log + [e]);
      LogKeeps(s, e);
      if d.event == "charge.success" {
        NewKeyNewCharge(s, d);
        ChargeKeeps(cfg, logged, p, user, d.clock);
      } else {
        EventKeeps(cfg, logged, d.event, p, user, d.clock);
      }
    }
  }

  lemma UseKeeps(s: Store, user: User, op: Subscriptions.Op)
    requires Consistent(s) && user in s.rows && !op.DoActivate?
    ensures Consistent(s.(rows := s.rows[user := Subscriptions.Step(s.rows[user], op)]))
  {
    var t := s.(rows := s.rows[user := Subscriptions.Step(s.rows[user], op)]);
    assert Subscriptions.Step(s.rows[user], op).lastPaymentReference == s.rows[user].lastPaymentReference;
    OnlyRowsKeeps(s, t);
  }

  lemma StepKeeps(cfg: Config, s: Store, a: Action)
    requires Consistent(s)
    ensures Consistent(Webhooks.Step(cfg, s, a))
  {
    match a
    case Deliver(d) => DeliveryKeeps(cfg, s, d);
    case VerifyPayment(user, reference, verdict, clock) => VerifyKeeps(cfg, s, user, reference, verdict, clock);
    case Use(user, op) =>
      if user in s.rows && !op.DoActivate? {
        UseKeeps(s, user, op);
      }
  }

  lemma {:induction false} RunKeeps(cfg: Config, s: Store, actions: seq<Action>)
    requires Consistent(s)
    ensures Consistent(RunActions(cfg, s, actions))
    decreases |actions|
  {
    if actions != [] {
      StepKeeps(cfg, s, actions[0]);
      RunKeeps(cfg, Webhooks.Step(cfg, s, actions[0]), actions[1..]);
    }
  }

  lemma NeverThrice(applied: seq<Applied>)
    requires Spaced(applied)
    ensures forall i, j, k :: 0 <= i < j < k < |applied| ==>
      !(applied[i].reference == applied[j].reference == applied[k].reference)
  {
    forall i, j, k | 0 <= i < j < k < |applied|
      ensures !(applied[i].reference == applied[j].reference == applied[k].reference)
    {
      assert applied[i].reference == applied[j].reference ==> Apart(applied, i, j);
      assert applied[j].reference == applied[k].reference ==> Apart(applied, j, k);
    }
  }

  /**
   * In every reachable store: no dedupe key is logged twice, each row names the
   * last charge applied to it, and a charge is applied at most once, or twice
   * only as `Spaced` says.
   */
  lemma ChargesAppliedOnce(cfg: Config, s: Store, actions: seq<Action>)
    requires Start(s)
    ensures var t := RunActions(cfg, s, actions);
            Consistent(t) && KeysUnique(t.log) && LastAgrees(t) && Spaced(t.applied)
    ensures var applied := RunActions(cfg, s, actions).applied;
            forall i, j, k :: 0 <= i < j < k < |applied| ==>
              !(applied[i].reference == applied[j].reference == applied[k].reference)
  {
    assert forall u :: LastApplied(s.applied, u) == None;
    RunKeeps(cfg, s, actions);
    NeverThrice(RunActions(cfg, s, actions).applied);
  }

  predicate ChargeDelivery(d: Delivery, reference: Reference) {
    !Ignored(d) && d.event == "charge.success" && d.data.value.reference == Some(reference) && reference != ""
  }

  /** The account a charge is for: the owner of its payment, else the account its payload names. */
  function ChargeTarget(s: Store, p: Payload, reference: Reference): Option<User> {
    if reference in s.payments then Some(s.payments[reference].user) else ResolveUser(s, p, FindUser(s, p))
  }

  /**
   * Whatever else a delivery carries, it applies its charge exactly when its
   * key is new and its account has another last charge.
   */
  lemma WebhookAppliesExactly(cfg: Config, s: Store, d: Delivery, reference: Reference)
    requires LastAgrees(s) && ChargeDelivery(d, reference)
    ensures var target := ChargeTarget(s, d.data.value, reference);
            HandleWebhook(cfg, s, d).applied
            == if !Logged(s.log, ChargeKey(reference)) && target.Some?
                  && LastApplied(s.applied, target.value) != Some(reference)
               then s.applied + [Applied(target.value, reference, ByWebhook)]
               else s.applied
  {
    assert KeyOf(d) == ChargeKey(reference);
    var target := ChargeTarget(s, d.data.value, reference);
    if target.Some? {
      assert LastApplied(s.applied, target.value)
          == if target.value in s.rows then s.rows[target.value].lastPaymentReference else None;
    }
  }

  /**
   * A charge applied before is applied again, in any reachable store and by any
   * delivery, exactly when its key is new, its payment is known, and another
   * charge of the payment's owner was applied last.
   */
  lemma AppliedAgainExactly(cfg: Config, s: Store, d: Delivery, reference: Reference, a: Applied)
    requires Consistent(s) && ChargeDelivery(d, reference)
    requires a in s.applied && a.reference == reference
    ensures HandleWebhook(cfg, s, d).applied != s.applied <==>
            && !Logged(s.log, ChargeKey(reference))
            && reference in s.payments
            && LastApplied(s.applied, s.payments[reference].user) != Some(reference)
  {
    WebhookAppliesExactly(cfg, s, d, reference);
  }

  /** A `charge.success` delivery that names only its reference and customer email. */
  function Charged(reference: Reference, email: string, clock: Clock): Delivery {
    Delivery("charge.success",
             Some(Payload(Some(reference), None, None, None, None, Some(email), None, None, None, None, None,
                          None, None, None, None, None, None, None, None, None, None, None)),
             clock)
  }

  /** The parts of the store that decide whether a charge is applied. */
  ghost predicate Follows(s: Store, t: Store, a: Applied, keys: seq<string>) {
    && t.applied == s.applied + [a]
    && a.user in t.rows && t.rows[a.user].lastPaymentReference == Some(a.reference)
    && t.payments.Keys == s.payments.Keys
    && (forall r :: r in s.payments ==> t.payments[r].user == s.payments[r].user)
    && |t.log| == |s.log| + |keys| && s.log <= t.log
    && forall i :: 0 <= i < |keys| ==> t.log[|s.log| + i].key == keys[i]
  }

  /** The webhook applies a charge of a known payment whenever its key is new and it is not the user's last charge. */
  lemma WebhookApplies(cfg: Config, s: Store, reference: Reference, email: string, clock: Clock)
    requires reference != "" && reference in s.payments && !Logged(s.log, ChargeKey(reference))
    requires var user := s.payments[reference].user;
             user in s.rows && s.rows[user].lastPaymentReference != Some(reference)
    ensures Follows(s, HandleWebhook(cfg, s, Charged(reference, email, clock)),
                    Applied(s.payments[reference].user, reference, ByWebhook), [ChargeKey(reference)])
  {
    assert KeyOf(Charged(reference, email, clock)) == ChargeKey(reference);
  }

  lemma VerificationFollows(cfg: Config, s: Store, reference: Reference, v: Verdict, clock: Clock)
    requires reference != "" && reference in s.payments && v.success && !s.payments[reference].status.Success?
    requires s.payments[reference].planId in cfg.codeVariables
    ensures var user := s.payments[reference].user;
            Follows(s, Verify(cfg, s, user, reference, v, clock), Applied(user, reference, ByVerification), [])
  {
  }

  /** Exactly once fails: verify one payment, let another be charged, then deliver the first one's webhook. */
  lemma AppliedTwice(cfg: Config, s: Store, v: Verdict, clock: Clock, email: string)
    requires Start(s) && v.success && "r" in s.payments && "q" in s.payments
    requires s.payments["r"].user == "u" && s.payments["q"].user == "u"
    requires s.payments["r"].status.Pending? && s.payments["r"].planId in cfg.codeVariables
    ensures var s1 := Verify(cfg, s, "u", "r", v, clock);
            var s2 := HandleWebhook(cfg, s1, Charged("q", email, clock));
            HandleWebhook(cfg, s2, Charged("r", email, clock)).applied
            == [Applied("u", "r", ByVerification), Applied("u", "q", ByWebhook), Applied("u", "r", ByWebhook)]
  {
    VerificationFollows(cfg, s, "r", v, clock);
    var s1 := Verify(cfg, s, "u", "r", v, clock);
    WebhookApplies(cfg, s1, "q", email, clock);
    var s2 := HandleWebhook(cfg, s1, Charged("q", email, clock));
    BetweenTheTwo(s, s1, s2);
    WebhookApplies(cfg, s2, "r", email, clock);
  }

  /** After the other charge, the first one's webhook key is new and it is no longer the last charge. */
  lemma BetweenTheTwo(s: Store, s1: Store, s2: Store)
    requires Start(s) && "r" in s.payments && s.payments["r"].user == "u"
    requires Follows(s, s1, Applied("u", "r", ByVerification), [])
    requires Follows(s1, s2, Applied("u", "q", ByWebhook), [ChargeKey("q")])
    ensures s2.applied == [Applied("u", "r", ByVerification), Applied("u", "q", ByWebhook)]
    ensures "r" in s2.payments && s2.payments["r"].user == "u" && !Logged(s2.log, ChargeKey("r"))
    ensures "u" in s2.rows && s2.rows["u"].lastPaymentReference == Some("q")
  {
    assert ChargeKey("q")[15] == 'q' && ChargeKey("r")[15] == 'r';
    assert s2.log[|s1.log| + 0].key == [ChargeKey("q")][0];
  }

  // ---- Lazy expiry seen through a webhook ---------------------------------------------------

  /**
   * Reading a row before a failed-payment event changes the access it later
   * grants exactly when the read expired an active row: the stored `EXPIRED`
   * makes the handler skip the grace period it would otherwise have started.
   */
  lemma ReadBeforeFailure(cfg: Config, row: Row, read: Instant, fails: Instant)
    requires read <= fails
    ensures (forall now :: fails <= now ==>
              (Before(now, AccessEnd(PaymentFailing(cfg, Read(row, read), fails)))
               <==> Before(now, AccessEnd(PaymentFailing(cfg, row, fails)))))
            <==> !(row.status.Active? && Reached(row.periodEnd, read) && cfg.graceDays > 0)
  {
    var before := PaymentFailing(cfg, Read(row, read), fails);
    var after := PaymentFailing(cfg, row, fails);
    if row.status.Active? && Reached(row.periodEnd, read) && cfg.graceDays > 0 {
      assert !Before(fails, AccessEnd(before)) && Before(fails, AccessEnd(after));
    }
  }
}
