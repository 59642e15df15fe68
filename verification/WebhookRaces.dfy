/**
 * Concurrent deliveries. Each one looks its key up, matches a user, inserts its
 * log row under the unique index, and only then runs its handler; the steps of
 * different deliveries interleave freely.
 */
module WebhookRaces {
  import opened Common
  import opened Subscriptions
  import opened Webhooks

  datatype Phase =
    | Looked(delivery: Delivery)
    | Matched(delivery: Delivery, user: Option<User>)
    | Claimed(delivery: Delivery, user: Option<User>)

  /** A handler that ran. */
  datatype Handled = Handled(delivery: Delivery, user: Option<User>)

  datatype System = System(store: Store, pending: map<nat, Phase>, handled: seq<Handled>)

  datatype Move = Arrive(pid: nat, delivery: Delivery) | Advance(pid: nat)

  function Next(cfg: Config, y: System, m: Move): System {
    match m
    case Arrive(pid, d) =>
      if pid in y.pending || Ignored(d) || Duplicate(y.store, d) then y
      else y.(pending := y.pending[pid := Looked(d)])
    case Advance(pid) => if pid in y.pending then AdvanceOne(cfg, y, pid) else y
  }

  function AdvanceOne(cfg: Config, y: System, pid: nat): System
    requires pid in y.pending
  {
    var d := y.pending[pid].delivery;
    if Ignored(d) then y
    else
      match y.pending[pid]
      case Looked(_) => y.(pending := y.pending[pid := Matched(d, FindUser(y.store, d.data.value))])
      case Matched(_, user) =>
        // The unique index turns the second insert of a key into an error that ends the request.
        if Duplicate(y.store, d) then y.(pending := y.pending - {pid})
        else y.(store := y.store.(log := y.store.log + [Event(user, d.event, KeyOf(d))]),
                pending := y.pending[pid := Claimed(d, user)])
      case Claimed(_, user) =>
        System(Process(cfg, y.store, d.event, d.data.value, user, d.clock),
               y.pending - {pid},
               y.handled + [Handled(d, user)])
  }

  function Play(cfg: Config, y: System, moves: seq<Move>): System
    decreases |moves|
  {
    if moves == [] then y else Play(cfg, Next(cfg, y, moves[0]), moves[1..])
  }

  /** The handlers that ran, one after the other. */
  function OneByOne(cfg: Config, s: Store, handled: seq<Handled>): Store
    decreases |handled|
  {
    if handled == [] then s
    else
      var before := OneByOne(cfg, s, handled[..|handled| - 1]);
      var h := handled[|handled| - 1];
      if Ignored(h.delivery) then before
      else Process(cfg, before, h.delivery.event, h.delivery.data.value, h.user, h.delivery.clock)
  }

  // ---- The invariant ---------------------------------------------------------------

  predicate Keyed(d: Delivery, key: string) { !Ignored(d) && KeyOf(d) == key }

  /** The log row of this key was inserted during the play. */
  ghost predicate NewlyLogged(s0: Store, s: Store, d: Delivery) {
    !Ignored(d) && !Logged(s0.log, KeyOf(d)) && Logged(s.log, KeyOf(d))
  }

  ghost predicate KeysDistinct(handled: seq<Handled>) {
    forall i, j :: 0 <= i < j < |handled| && !Ignored(handled[i].delivery) ==>
      !Keyed(handled[j].delivery, KeyOf(handled[i].delivery))
  }

  ghost predicate LogGrew(s0: Store, s: Store) { forall key :: Logged(s0.log, key) ==> Logged(s.log, key) }

  ghost predicate PendingFit(s0: Store, y: System) {
    forall p :: p in y.pending ==>
      && !Ignored(y.pending[p].delivery)
      && (y.pending[p].Claimed? ==> NewlyLogged(s0, y.store, y.pending[p].delivery))
  }

  ghost predicate ClaimsDistinct(y: System) {
    forall p, q :: p in y.pending && q in y.pending && p != q && y.pending[p].Claimed? && y.pending[q].Claimed? ==>
      Ignored(y.pending[p].delivery) || !Keyed(y.pending[q].delivery, KeyOf(y.pending[p].delivery))
  }

  ghost predicate ClaimsUnhandled(y: System) {
    forall p, h :: p in y.pending && y.pending[p].Claimed? && h in y.handled && !Ignored(h.delivery) ==>
      !Keyed(y.pending[p].delivery, KeyOf(h.delivery))
  }

  ghost predicate HandledFit(s0: Store, y: System) {
    && KeysDistinct(y.handled)
    && forall h :: h in y.handled ==> NewlyLogged(s0, y.store, h.delivery)
  }

  ghost predicate Consistent(cfg: Config, s0: Store, y: System) {
    && LogGrew(s0, y.store)
    && PendingFit(s0, y) && ClaimsDistinct(y) && ClaimsUnhandled(y) && HandledFit(s0, y)
    && y.store == OneByOne(cfg, s0, y.handled).(log := y.store.log)
  }

  // ---- Moves keep it ----------------------------------------------------------------

  lemma ApplyIgnoresLog(s: Store, log: seq<Event>, user: User, now: Instant, c: Charge)
    ensures ApplyCharge(s.(log := log), user, now, c, ByWebhook) == ApplyCharge(s, user, now, c, ByWebhook).(log := log)
  {
  }

  lemma ChargeIgnoresLog(cfg: Config, s: Store, log: seq<Event>, p: Payload, user: Option<User>, clock: Clock)
    ensures HandleChargeSuccess(cfg, s.(log := log), p, user, clock)
            == HandleChargeSuccess(cfg, s, p, user, clock).(log := log)
  {
    if !Falsy(p.reference) {
      var c := ChargeOf(cfg, p, p.reference.value, clock);
      var known := p.reference.value in s.payments;
      var target := if known then Some(s.payments[p.reference.value].user) else ResolveUser(s, p, user);
      if target.Some? {
        ApplyIgnoresLog(s, log, target.value, clock.now, c);
      }
    }
  }

  /** Handlers neither read nor write the log. */
  lemma ProcessIgnoresLog(
    cfg: Config, s: Store, log: seq<Event>, event: string, p: Payload, user: Option<User>, clock: Clock)
    ensures Process(cfg, s.(log := log), event, p, user, clock) == Process(cfg, s, event, p, user, clock).(log := log)
  {
    if event == "charge.success" {
      ChargeIgnoresLog(cfg, s, log, p, user, clock);
    }
  }

  lemma ClaimKeeps(cfg: Config, s0: Store, y: System, pid: nat)
    requires Consistent(cfg, s0, y) && pid in y.pending && y.pending[pid].Matched?
    ensures Consistent(cfg, s0, AdvanceOne(cfg, y, pid))
  {
    var d := y.pending[pid].delivery;
    if !Duplicate(y.store, d) {
      var e := Event(y.pending[pid].user, d.event, KeyOf(d));
      forall key
        ensures Logged(y.store.log + [e], key) <==> Logged(y.store.log, key) || key == KeyOf(d)
      {
        LoggedAppend(y.store.log, e, key);
      }
    }
  }

  lemma HandleKeeps(cfg: Config, s0: Store, y: System, pid: nat)
    requires Consistent(cfg, s0, y) && pid in y.pending && y.pending[pid].Claimed?
    ensures Consistent(cfg, s0, AdvanceOne(cfg, y, pid))
  {
    HandledIsNext(cfg, s0, y, pid);
  }

  /** The handler that runs is the next one in line. */
  lemma HandledIsNext(cfg: Config, s0: Store, y: System, pid: nat)
    requires pid in y.pending && y.pending[pid].Claimed? && !Ignored(y.pending[pid].delivery)
    requires y.store == OneByOne(cfg, s0, y.handled).(log := y.store.log)
    ensures var z := AdvanceOne(cfg, y, pid);
            && z.handled == y.handled + [Handled(y.pending[pid].delivery, y.pending[pid].user)]
            && z.pending == y.pending - {pid}
            && z.store == OneByOne(cfg, s0, z.handled).(log := z.store.log) && z.store.log == y.store.log
  {
    var d, user := y.pending[pid].delivery, y.pending[pid].user;
    var z := AdvanceOne(cfg, y, pid);
    ProcessIgnoresLog(cfg, OneByOne(cfg, s0, y.handled), y.store.log, d.event, d.data.value, user, d.clock);
    assert z.handled[..|y.handled|] == y.handled;
  }

  lemma MoveKeeps(cfg: Config, s0: Store, y: System, m: Move)
    requires Consistent(cfg, s0, y)
    ensures Consistent(cfg, s0, Next(cfg, y, m))
  {
    if m.Advance? && m.pid in y.pending {
      match y.pending[m.pid]
      case Looked(_) =>
      case Matched(_, _) => ClaimKeeps(cfg, s0, y, m.pid);
      case Claimed(_, _) => HandleKeeps(cfg, s0, y, m.pid);
    }
  }

  lemma {:induction false} PlayKeeps(cfg: Config, s0: Store, y: System, moves: seq<Move>)
    requires Consistent(cfg, s0, y)
    ensures Consistent(cfg, s0, Play(cfg, y, moves))
    decreases |moves|
  {
    if moves != [] {
      MoveKeeps(cfg, s0, y, moves[0]);
      PlayKeeps(cfg, s0, Next(cfg, y, moves[0]), moves[1..]);
    }
  }

  /**
   * Under every interleaving of concurrent deliveries no key is handled twice,
   * none that was logged before is handled at all, and the tables are those the
   * handlers leave when run one after the other.
   */
  lemma EveryInterleavingHandlesOnce(cfg: Config, s: Store, moves: seq<Move>)
    ensures var y := Play(cfg, System(s, map[], []), moves);
            && KeysDistinct(y.handled)
            && (forall h :: h in y.handled ==> !Ignored(h.delivery) && !Logged(s.log, KeyOf(h.delivery)))
            && y.store.(log := s.log) == OneByOne(cfg, s, y.handled).(log := s.log)
  {
    PlayKeeps(cfg, s, System(s, map[], []), moves);
  }
}
