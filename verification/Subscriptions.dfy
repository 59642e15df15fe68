/**
 * One account's subscription row: lazy, time-driven expiry on every read, mixed
 * with cancel, resume and paid activations. Instants are milliseconds.
 */
module Subscriptions {
  import opened Common

  type Instant = int
  type Code = string

  datatype Status = Trialing | Active | NonRenewing | PastDue | PaymentFailed | Expired | Cancelled

  datatype Interval = Monthly | Yearly

  datatype Row = Row(
    status: Status,
    planId: string,
    interval: Option<Interval>,
    amount: Option<int>,
    trialEndsAt: Option<Instant>,
    periodStart: Option<Instant>,
    periodEnd: Option<Instant>,
    graceEndsAt: Option<Instant>,
    cancelAtPeriodEnd: bool,
    cancelledAt: Option<Instant>,
    freeAccess: bool,
    freeAccessExpiresAt: Option<Instant>,
    customerCode: Option<Code>,
    authorizationCode: Option<Code>,
    subscriptionCode: Option<Code>,
    planCode: Option<Code>,
    lastPaymentReference: Option<string>)

  // ---- Reading ------------------------------------------------------------------

  predicate Reached(deadline: Option<Instant>, now: Instant) { deadline.Some? && now >= deadline.value }

  datatype Effective = Effective(status: Status, needsPersist: bool)

  /** The status a row has at an instant, and whether the read must store it. */
  function ComputeEffectiveStatus(row: Row, now: Instant): Effective {
    match row.status
    case Trialing =>
      if Reached(row.trialEndsAt, now) then Effective(Expired, true) else Effective(Trialing, false)
    case Active | NonRenewing | Cancelled =>
      if Reached(row.periodEnd, now) then Effective(Expired, true)
      else if row.status.Cancelled? then Effective(NonRenewing, true)
      else Effective(row.status, false)
    case PastDue | PaymentFailed =>
      if Reached(row.graceEndsAt, now) then Effective(Expired, true)
      else if row.graceEndsAt.None? then Effective(Expired, true)
      else Effective(row.status, false)
    case Expired => Effective(Expired, false)
  }

  predicate IsGrantedStatus(s: Status) {
    s.Trialing? || s.Active? || s.NonRenewing? || s.PastDue? || s.PaymentFailed?
  }

  /** The row as a read leaves it. */
  function Read(row: Row, now: Instant): Row {
    var e := ComputeEffectiveStatus(row, now);
    if e.needsPersist then row.(status := e.status) else row
  }

  predicate HasFreeAccess(row: Row, now: Instant) {
    row.freeAccess && (row.freeAccessExpiresAt.None? || row.freeAccessExpiresAt.value > now)
  }

  /** An admin, or a user given free access, is shown an active premium plan. */
  predicate Overridden(row: Row, admin: bool, now: Instant) { admin || HasFreeAccess(row, now) }

  function ShownStatus(row: Row, admin: bool, now: Instant): Status {
    if Overridden(row, admin, now) then Active else Read(row, now).status
  }

  predicate AccessGranted(row: Row, admin: bool, now: Instant) {
    Overridden(row, admin, now) || IsGrantedStatus(Read(row, now).status)
  }

  // ---- Writing --------------------------------------------------------------------

  datatype Answer = Answer(row: Row, accepted: bool)

  /** Cancel reads, marks the row, and reads again to answer, at `later`. */
  function Cancel(row: Row, admin: bool, now: Instant, later: Instant): Answer {
    var seen := Read(row, now);
    if !ShownStatus(row, admin, now).Active? then Answer(seen, false)
    else
      var marked := seen.(cancelAtPeriodEnd := true, cancelledAt := Some(now), status := NonRenewing);
      Answer(Read(marked, later), true)
  }

  function Resume(row: Row, admin: bool, now: Instant, later: Instant): Answer {
    var seen := Read(row, now);
    var shown := ShownStatus(row, admin, now);
    if !shown.NonRenewing? && !shown.Active? then Answer(seen, false)
    else
      var cleared := if seen.cancelAtPeriodEnd
                     then seen.(cancelAtPeriodEnd := false, cancelledAt := None, status := Active)
                     else seen;
      Answer(Read(cleared, later), true)
  }

  /** What a confirmed payment brings; absent codes leave the stored ones. */
  datatype Charge = Charge(
    planId: string,
    interval: Interval,
    amount: int,
    periodEnd: Instant,
    reference: string,
    customerCode: Option<Code>,
    authorizationCode: Option<Code>,
    subscriptionCode: Option<Code>,
    planCode: Option<Code>)

  function Or<T>(given: Option<T>, stored: Option<T>): Option<T> { if given.Some? then given else stored }

  function Activate(row: Row, now: Instant, c: Charge): Row {
    row.(
      status := Active,
      planId := c.planId,
      interval := Some(c.interval),
      amount := Some(c.amount),
      periodStart := Some(now),
      periodEnd := Some(c.periodEnd),
      graceEndsAt := None,
      cancelAtPeriodEnd := false,
      cancelledAt := None,
      lastPaymentReference := Some(c.reference),
      customerCode := Or(c.customerCode, row.customerCode),
      authorizationCode := Or(c.authorizationCode, row.authorizationCode),
      subscriptionCode := Or(c.subscriptionCode, row.subscriptionCode),
      planCode := Or(c.planCode, row.planCode))
  }

  // ---- Runs -------------------------------------------------------------------------

  datatype Op =
    | DoRead(at: Instant)
    | DoCancel(at: Instant, later: Instant)
    | DoResume(at: Instant, later: Instant)
    | DoActivate(at: Instant, charge: Charge)

  function Step(row: Row, op: Op): Row {
    match op
    case DoRead(at) => Read(row, at)
    case DoCancel(at, later) => Cancel(row, false, at, later).row
    case DoResume(at, later) => Resume(row, false, at, later).row
    case DoActivate(at, charge) => Activate(row, at, charge)
  }

  function RunOps(row: Row, ops: seq<Op>): Row
    decreases |ops|
  {
    if ops == [] then row else RunOps(Step(row, ops[0]), ops[1..])
  }

  function Finish(op: Op): Instant { if op.DoCancel? || op.DoResume? then op.later else op.at }

  /** Time never runs backwards within the run, which lies between `from` and `to`. */
  predicate Timed(ops: seq<Op>, from: Instant, to: Instant) {
    if ops == [] then from <= to
    else from <= ops[0].at <= Finish(ops[0]) && Timed(ops[1..], Finish(ops[0]), to)
  }

  // ---- Until when a row grants access -----------------------------------------------

  datatype Deadline = Never | Until(end: Instant) | Forever

  predicate Before(now: Instant, d: Deadline) { d.Forever? || (d.Until? && now < d.end) }

  function UntilOrForever(end: Option<Instant>): Deadline {
    match end
    case Some(e) => Until(e)
    case None => Forever
  }

  /** The end of the row's own access, if nothing else happens. */
  function AccessEnd(row: Row): Deadline {
    match row.status
    case Trialing => UntilOrForever(row.trialEndsAt)
    case Active | NonRenewing | Cancelled => UntilOrForever(row.periodEnd)
    case PastDue | PaymentFailed => if row.graceEndsAt.Some? then Until(row.graceEndsAt.value) else Never
    case Expired => Never
  }

  lemma GrantedUntilItsEnd(row: Row, now: Instant)
    ensures IsGrantedStatus(Read(row, now).status) <==> Before(now, AccessEnd(row))
  {
  }

  /** Reads are lazy but unobservable: reading earlier first changes nothing a later read stores or shows. */
  lemma EarlierReadIsInvisible(row: Row, admin: bool, t1: Instant, t2: Instant)
    requires t1 <= t2
    ensures Read(Read(row, t1), t2) == Read(row, t2)
    ensures ShownStatus(Read(row, t1), admin, t2) == ShownStatus(row, admin, t2)
    ensures AccessGranted(Read(row, t1), admin, t2) == AccessGranted(row, admin, t2)
  {
  }

  /** From `from` on, the row grants access exactly before `d`. */
  ghost predicate GrantsBefore(row: Row, from: Instant, d: Deadline) {
    forall now :: from <= now ==> (Before(now, AccessEnd(row)) <==> Before(now, d))
  }

  /** Activations move the deadline to the end of the newly paid period; nothing else does. */
  function Paid(op: Op, d: Deadline): Deadline { if op.DoActivate? then Until(op.charge.periodEnd) else d }

  function PaidUntil(ops: seq<Op>, d: Deadline): Deadline
    decreases |ops|
  {
    if ops == [] then d else PaidUntil(ops[1..], Paid(ops[0], d))
  }

  lemma ReadKeepsDeadline(row: Row, now: Instant)
    ensures GrantsBefore(Read(row, now), now, AccessEnd(row))
  {
  }

  lemma CancelKeepsDeadline(row: Row, now: Instant, later: Instant)
    requires now <= later && !HasFreeAccess(row, now)
    ensures GrantsBefore(Cancel(row, false, now, later).row, later, AccessEnd(row))
  {
  }

  lemma ResumeKeepsDeadline(row: Row, now: Instant, later: Instant)
    requires now <= later && !HasFreeAccess(row, now)
    ensures GrantsBefore(Resume(row, false, now, later).row, later, AccessEnd(row))
  {
  }

  lemma StepMovesDeadline(row: Row, op: Op)
    requires op.at <= Finish(op) && !HasFreeAccess(row, op.at)
    ensures GrantsBefore(Step(row, op), Finish(op), Paid(op, AccessEnd(row)))
    ensures !HasFreeAccess(Step(row, op), Finish(op))
  {
    match op
    case DoRead(at) => ReadKeepsDeadline(row, at);
    case DoCancel(at, later) => CancelKeepsDeadline(row, at, later);
    case DoResume(at, later) => ResumeKeepsDeadline(row, at, later);
    case DoActivate(_, _) =>
  }

  lemma {:induction false} RunMovesDeadline(row: Row, ops: seq<Op>, from: Instant, to: Instant, d: Deadline)
    requires GrantsBefore(row, from, d) && Timed(ops, from, to) && !HasFreeAccess(row, from)
    ensures GrantsBefore(RunOps(row, ops), to, PaidUntil(ops, d))
    ensures !HasFreeAccess(RunOps(row, ops), to)
    decreases |ops|
  {
    if ops != [] {
      var next, end := Step(row, ops[0]), Finish(ops[0]);
      StepMovesDeadline(row, ops[0]);
      forall now | end <= now
        ensures Before(now, AccessEnd(next)) <==> Before(now, Paid(ops[0], d))
      {
        assert Before(now, AccessEnd(row)) <==> Before(now, d);
      }
      RunMovesDeadline(next, ops[1..], end, to, Paid(ops[0], d));
    }
  }

  /**
   * Over every run of reads, cancels, resumes and paid activations with advancing
   * time, a user without an override has access exactly until the last paid end.
   */
  lemma AccessFollowsPayment(row: Row, ops: seq<Op>, from: Instant, now: Instant)
    requires Timed(ops, from, now) && !HasFreeAccess(row, from)
    ensures AccessGranted(RunOps(row, ops), false, now) <==> Before(now, PaidUntil(ops, AccessEnd(row)))
  {
    RunMovesDeadline(row, ops, from, now, AccessEnd(row));
    GrantedUntilItsEnd(RunOps(row, ops), now);
  }

  lemma {:induction false} NothingPaid(ops: seq<Op>, d: Deadline)
    requires forall op :: op in ops ==> !op.DoActivate?
    ensures PaidUntil(ops, d) == d
    decreases |ops|
  {
    if ops != [] {
      NothingPaid(ops[1..], d);
    }
  }

  /** An active row paid until `e` keeps access exactly until `e`, however often it is read, cancelled or resumed. */
  lemma ActiveUntilPeriodEnd(row: Row, ops: seq<Op>, from: Instant, now: Instant)
    requires row.status.Active? && row.periodEnd.Some? && !HasFreeAccess(row, from)
    requires Timed(ops, from, now) && forall op :: op in ops ==> !op.DoActivate?
    ensures AccessGranted(RunOps(row, ops), false, now) <==> now < row.periodEnd.value
  {
    AccessFollowsPayment(row, ops, from, now);
    NothingPaid(ops, AccessEnd(row));
  }

  /** Resuming a cancelled subscription in time restores the row the cancel found. */
  lemma ResumeUndoesCancel(row: Row, t1: Instant, t2: Instant, t3: Instant, t4: Instant)
    requires t1 <= t2 <= t3 <= t4 && row.status.Active? && !HasFreeAccess(row, t1)
    requires !row.cancelAtPeriodEnd && row.cancelledAt.None? && !Reached(row.periodEnd, t4)
    ensures var cancelled := Cancel(row, false, t1, t2);
            cancelled.accepted && cancelled.row != row && Resume(cancelled.row, false, t3, t4) == Answer(row, true)
  {
  }

  /**
   * An override answers `active` whatever the row says, so a cancel under it is
   * accepted in every state and moves the row's own access to the paid period.
   */
  lemma CancelUnderOverride(row: Row, admin: bool, now: Instant, later: Instant)
    requires now <= later && Overridden(row, admin, now)
    ensures Cancel(row, admin, now, later).accepted
    ensures GrantsBefore(Cancel(row, admin, now, later).row, later, UntilOrForever(row.periodEnd))
  {
  }

  /** Nothing of the deadline is left from `from` on. */
  predicate Over(d: Deadline, from: Instant) { d.Never? || (d.Until? && d.end <= from) }

  /** Two deadlines grant the same access from an instant on exactly when they are equal or both over by then. */
  lemma SameAccess(a: Deadline, b: Deadline, from: Instant)
    ensures (forall now :: from <= now ==> (Before(now, a) <==> Before(now, b))) <==>
            a == b || (Over(a, from) && Over(b, from))
  {
    if a != b && !(Over(a, from) && Over(b, from)) {
      var now := if a.Until? && b.Until? then Max(from, Min(a.end, b.end))
                 else if a.Until? && b.Forever? then Max(from, a.end)
                 else if b.Until? && a.Forever? then Max(from, b.end)
                 else from;
      assert from <= now && Before(now, a) != Before(now, b);
    }
  }

  /** The row's own access from `from` on is that of its paid period, told from its stored fields. */
  predicate FollowsPeriod(row: Row, from: Instant) {
    match row.status
    case Active | NonRenewing | Cancelled => true
    case Expired => Reached(row.periodEnd, from)
    case Trialing =>
      row.trialEndsAt == row.periodEnd || (Reached(row.trialEndsAt, from) && Reached(row.periodEnd, from))
    case PastDue | PaymentFailed =>
      || (row.graceEndsAt.Some? && row.graceEndsAt == row.periodEnd)
      || ((row.graceEndsAt.None? || Reached(row.graceEndsAt, from)) && Reached(row.periodEnd, from))
  }

  lemma FollowsPeriodExactly(row: Row, from: Instant)
    ensures GrantsBefore(row, from, UntilOrForever(row.periodEnd)) <==> FollowsPeriod(row, from)
  {
    SameAccess(AccessEnd(row), UntilOrForever(row.periodEnd), from);
  }

  /** A cancel under an override keeps the row's own access exactly when the stored fields gave the paid period's. */
  lemma OverrideCancelKeepsAccess(row: Row, admin: bool, now: Instant, later: Instant)
    requires now <= later && Overridden(row, admin, now)
    ensures GrantsBefore(Cancel(row, admin, now, later).row, later, AccessEnd(row)) <==> FollowsPeriod(row, later)
  {
    var after := Cancel(row, admin, now, later).row;
    CancelUnderOverride(row, admin, now, later);
    FollowsPeriodExactly(row, later);
    if GrantsBefore(after, later, AccessEnd(row)) {
      forall t | later <= t
        ensures Before(t, AccessEnd(row)) <==> Before(t, UntilOrForever(row.periodEnd))
      {
        assert Before(t, AccessEnd(after)) <==> Before(t, AccessEnd(row));
      }
    }
  }

  /** It need not: an expired trial that never paid, cancelled by an admin, grants access for ever, role or no role. */
  lemma OverrideCancelRevives(row: Row, now: Instant, later: Instant, t: Instant)
    requires row.status.Expired? && row.periodEnd.None? && !HasFreeAccess(row, now) && now <= later <= t
    ensures !AccessGranted(row, false, now)
    ensures AccessGranted(Cancel(row, true, now, later).row, false, t)
  {
  }

  // ---- What each call answers ---------------------------------------------------------------

  /** The row's own date has passed: the trial's, the paid period's or the grace period's. */
  predicate Lapsed(row: Row, now: Instant) {
    match row.status
    case Trialing => row.trialEndsAt.Some? && row.trialEndsAt.value <= now
    case Active | NonRenewing | Cancelled => row.periodEnd.Some? && row.periodEnd.value <= now
    case PastDue | PaymentFailed => row.graceEndsAt.None? || row.graceEndsAt.value <= now
    case Expired => true
  }

  predicate FreeNow(row: Row, admin: bool, now: Instant) {
    admin || (row.freeAccess && (row.freeAccessExpiresAt.None? || now < row.freeAccessExpiresAt.value))
  }

  /** A read stores at most a status: expired once its date has passed, non-renewing for a cancelled row. */
  lemma ReadAnswers(row: Row, admin: bool, now: Instant)
    ensures Read(row, now) == row.(status := if Lapsed(row, now) then Expired
                                             else if row.status == Cancelled then NonRenewing
                                             else row.status)
    ensures ShownStatus(row, admin, now) == if FreeNow(row, admin, now) then Active else Read(row, now).status
    ensures AccessGranted(row, admin, now) <==> FreeNow(row, admin, now) || !Lapsed(row, now)
  {
  }

  /** Only an active subscription can be cancelled, unless an override shows it active; the marks are dated now. */
  lemma CancelAnswers(row: Row, admin: bool, now: Instant, later: Instant)
    ensures var a := Cancel(row, admin, now, later);
            && (a.accepted <==> FreeNow(row, admin, now) || (row.status == Active && !Lapsed(row, now)))
            && var marked := row.(cancelAtPeriodEnd := true, cancelledAt := Some(now), status := NonRenewing);
               a.row == if a.accepted then Read(marked, later) else Read(row, now)
  {
  }

  /** What has not lapsed and is active or ending can be resumed; a pending cancellation is cleared. */
  lemma ResumeAnswers(row: Row, admin: bool, now: Instant, later: Instant)
    ensures var a := Resume(row, admin, now, later);
            && (a.accepted <==>
                || FreeNow(row, admin, now)
                || (row.status in {Active, NonRenewing, Cancelled} && !Lapsed(row, now)))
            && a.row == if a.accepted && row.cancelAtPeriodEnd
                        then Read(row.(cancelAtPeriodEnd := false, cancelledAt := None, status := Active), later)
                        else if a.accepted then Read(Read(row, now), later)
                        else Read(row, now)
  {
  }

  // ---- The service --------------------------------------------------------------------

  class Account {
    var row: Row
    const admin: bool

    constructor (row: Row, admin: bool)
      ensures this.row == row && this.admin == admin
    {
      this.row, this.admin := row, admin;
    }

    method GetEffectiveSubscription(now: Instant) returns (status: Status, granted: bool)
      modifies `row
      ensures row == Read(old(row), now)
      ensures status == ShownStatus(old(row), admin, now)
      ensures granted <==> Overridden(old(row), admin, now) || Before(now, AccessEnd(old(row)))
    {
      GrantedUntilItsEnd(row, now);
      var e := ComputeEffectiveStatus(row, now);
      if e.needsPersist {
        row := row.(status := e.status);
      }
      var free := HasFreeAccess(row, now);
      status := if admin || free then Active else row.status;
      granted := admin || free || IsGrantedStatus(row.status);
    }

    method CancelRenewal(now: Instant, later: Instant) returns (accepted: bool)
      modifies `row
      ensures Answer(row, accepted) == Cancel(old(row), admin, now, later)
    {
      var status, _ := GetEffectiveSubscription(now);
      if !status.Active? {
        return false;
      }
      row := row.(cancelAtPeriodEnd := true, cancelledAt := Some(now), status := NonRenewing);
      var _, _ := GetEffectiveSubscription(later);
      accepted := true;
    }

    method ResumeRenewal(now: Instant, later: Instant) returns (accepted: bool)
      modifies `row
      ensures Answer(row, accepted) == Resume(old(row), admin, now, later)
    {
      var status, _ := GetEffectiveSubscription(now);
      if !status.NonRenewing? && !status.Active? {
        return false;
      }
      if row.cancelAtPeriodEnd {
        row := row.(cancelAtPeriodEnd := false, cancelledAt := None, status := Active);
      }
      var _, _ := GetEffectiveSubscription(later);
      accepted := true;
    }
  }
}
