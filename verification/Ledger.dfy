/**
 * The append-only coin ledger and the cached balance of one user.
 *
 * An entry's id is its index. Ledger rows are never updated, so `Reversed` is a
 * fact about later rows. The two unique indexes of the table (the reversed row
 * and the idempotency key) together with "a completion may be awarded many
 * times" are the single predicate `OneShot`.
 */
module Ledger {
  import opened Common
  import opened Streaks

  type HabitId = string
  type ItemId = string
  type IdentityId = string
  type CompletionId = nat

  datatype Kind = Full | Minimum | Emergency

  /** A (habit, calendar day) pair: the unique key of completions and of freezes. */
  datatype Slot = Slot(habit: HabitId, day: Day)

  /** Why an entry exists: its type, its reference and its idempotency key. */
  datatype Source =
    | Base(kind: Kind, completion: CompletionId)
    | Streak(habit: HabitId, milestone: nat, cycleStart: Day)
    | Identity(identity: IdentityId, threshold: nat)
    | Reversal(original: nat)
    | Redemption(item: ItemId)
    | Freeze(slot: Slot)
    | Adjustment

  datatype Entry = Entry(amount: int, source: Source)

  datatype Wallet = Wallet(coins: int, entries: seq<Entry>)

  function Sum(entries: seq<Entry>): int {
    if entries == [] then 0 else Sum(entries[..|entries| - 1]) + entries[|entries| - 1].amount
  }

  /** Every source the ledger holds a row for. */
  function Sources(entries: seq<Entry>): set<Source> {
    if entries == [] then {} else Sources(entries[..|entries| - 1]) + {entries[|entries| - 1].source}
  }

  predicate HasSource(entries: seq<Entry>, source: Source) { source in Sources(entries) }

  predicate Reversed(entries: seq<Entry>, i: nat) { HasSource(entries, Reversal(i)) }

  /** An award that still counts. */
  ghost predicate Live(entries: seq<Entry>, i: nat, source: Source) {
    i < |entries| && entries[i].source == source && !Reversed(entries, i)
  }

  /** Sources that may occur at most once in the ledger. */
  predicate OneShot(source: Source) { !source.Base? && !source.Adjustment? }

  ghost predicate AtMostOnce(entries: seq<Entry>) {
    forall i, j :: 0 <= i < j < |entries| && OneShot(entries[i].source) ==> entries[i].source != entries[j].source
  }

  /** A reversal points back to an earlier row that is no reversal and cancels its amount. */
  ghost predicate ReversalsCancel(entries: seq<Entry>) {
    forall j :: 0 <= j < |entries| && entries[j].source.Reversal? ==>
      var i := entries[j].source.original;
      i < j && !entries[i].source.Reversal? && entries[j].amount == -entries[i].amount
  }

  ghost predicate BasesPositive(entries: seq<Entry>) {
    forall i :: 0 <= i < |entries| && entries[i].source.Base? ==> entries[i].amount > 0
  }

  /** What every reachable wallet satisfies. */
  ghost predicate Sound(w: Wallet) {
    && w.coins == Sum(w.entries)
    && AtMostOnce(w.entries)
    && ReversalsCancel(w.entries)
    && BasesPositive(w.entries)
  }

  // ---- Writes ------------------------------------------------------------

  /** A ledger row and the balance change that goes with it. */
  function Post(w: Wallet, e: Entry): (r: Wallet)
    ensures r.entries == w.entries + [e] && r.coins - w.coins == e.amount
    ensures Sources(r.entries) == Sources(w.entries) + {e.source}
  {
    SourcesAppend(w.entries, e);
    Wallet(w.coins + e.amount, w.entries + [e])
  }

  /** A keyed award: a repeated key hits the unique index and changes nothing. */
  function Claim(w: Wallet, offer: Entry): Wallet {
    if HasSource(w.entries, offer.source) then w else Post(w, offer)
  }

  function ClaimAll(w: Wallet, offers: seq<Entry>): Wallet
    decreases |offers|
  {
    if offers == [] then w else ClaimAll(Claim(w, offers[0]), offers[1..])
  }

  /** The shared single-reversal primitive. */
  function ReverseOnce(w: Wallet, i: nat): Wallet
    requires i < |w.entries|
  {
    if Reversed(w.entries, i) then w else Post(w, Entry(-w.entries[i].amount, Reversal(i)))
  }

  /** Index of the latest entry with this source, reversed or not. */
  function Latest(entries: seq<Entry>, source: Source): (i: Option<nat>)
    ensures i.None? <==> !HasSource(entries, source)
    ensures i.Some? ==> i.value < |entries| && entries[i.value].source == source
    ensures i.Some? ==> forall j :: i.value < j < |entries| ==> entries[j].source != source
  {
    if entries == [] then None
    else
      var n := |entries| - 1;
      if entries[n].source == source then Some(n) else Latest(entries[..n], source)
  }

  /**
   * Takes back a completion's base award. Only the latest award of the kind is
   * looked up, and whether it is already reversed is left to the unique index.
   */
  function ReverseLatest(w: Wallet, source: Source): Wallet {
    match Latest(w.entries, source)
    case None => w
    case Some(i) => if w.entries[i].amount <= 0 then w else ReverseOnce(w, i)
  }

  /** A streak award of `habit` whose cycle `days` no longer covers. */
  predicate Broken(e: Entry, habit: HabitId, days: set<Day>) {
    e.source.Streak? && e.source.habit == habit && !Block(days, e.source.cycleStart, e.source.milestone)
  }

  /** Reverses every broken streak award of the habit among the first `k` entries. */
  function ReverseBroken(w: Wallet, habit: HabitId, days: set<Day>, k: nat): (r: Wallet)
    requires k <= |w.entries|
    ensures w.entries <= r.entries
  {
    if k == 0 then w
    else
      var r := ReverseBroken(w, habit, days, k - 1);
      if Broken(w.entries[k - 1], habit, days) then ReverseOnce(r, k - 1) else r
  }

  // ---- Facts about appending ----------------------------------------------

  lemma SourcesAppend(entries: seq<Entry>, e: Entry)
    ensures Sources(entries + [e]) == Sources(entries) + {e.source}
  {
    assert (entries + [e])[..|entries|] == entries;
  }

  lemma {:induction false} SourceAt(entries: seq<Entry>, i: nat)
    requires i < |entries|
    ensures HasSource(entries, entries[i].source)
    decreases |entries|
  {
    if i < |entries| - 1 {
      SourceAt(entries[..|entries| - 1], i);
    }
  }

  lemma {:induction false} SourceHasIndex(entries: seq<Entry>, source: Source) returns (i: nat)
    requires HasSource(entries, source)
    ensures i < |entries| && entries[i].source == source
    decreases |entries|
  {
    var n := |entries| - 1;
    if entries[n].source == source {
      i := n;
    } else {
      i := SourceHasIndex(entries[..n], source);
    }
  }

  lemma {:induction false} SourcesConcat(a: seq<Entry>, b: seq<Entry>)
    ensures Sources(a + b) == Sources(a) + Sources(b)
    decreases |b|
  {
    if b == [] {
      assert a + b == a;
    } else {
      var n := |b| - 1;
      SourcesConcat(a, b[..n]);
      assert a + b == (a + b[..n]) + [b[n]];
      SourcesAppend(a + b[..n], b[n]);
    }
  }

  lemma SumAppend(entries: seq<Entry>, e: Entry)
    ensures Sum(entries + [e]) == Sum(entries) + e.amount
  {
    assert (entries + [e])[..|entries|] == entries;
  }

  /** A row that respects the two unique indexes keeps the wallet sound. */
  lemma PostKeepsSound(w: Wallet, e: Entry)
    requires Sound(w)
    requires OneShot(e.source) ==> !HasSource(w.entries, e.source)
    requires e.source.Base? ==> e.amount > 0
    requires e.source.Reversal? ==>
      var i := e.source.original;
      i < |w.entries| && !w.entries[i].source.Reversal? && e.amount == -w.entries[i].amount
    ensures Sound(Post(w, e))
  {
    SumAppend(w.entries, e);
    var entries := w.entries + [e];
    forall i, j | 0 <= i < j < |entries| && OneShot(entries[i].source)
      ensures entries[i].source != entries[j].source
    {
      if j == |w.entries| {
        SourceAt(w.entries, i);
      }
    }
  }

  lemma ReverseOnceKeepsSound(w: Wallet, i: nat)
    requires Sound(w) && i < |w.entries| && !w.entries[i].source.Reversal?
    ensures Sound(ReverseOnce(w, i))
  {
    if !Reversed(w.entries, i) {
      PostKeepsSound(w, Entry(-w.entries[i].amount, Reversal(i)));
    }
  }

  // ---- Reversing broken cycles ----------------------------------------------

  lemma {:induction false} ReverseBrokenKeepsSound(w: Wallet, habit: HabitId, days: set<Day>, k: nat)
    requires Sound(w) && k <= |w.entries|
    ensures Sound(ReverseBroken(w, habit, days, k))
    decreases k
  {
    if k > 0 {
      ReverseBrokenKeepsSound(w, habit, days, k - 1);
      var r := ReverseBroken(w, habit, days, k - 1);
      if Broken(w.entries[k - 1], habit, days) {
        assert r.entries[k - 1] == w.entries[k - 1];
        ReverseOnceKeepsSound(r, k - 1);
      }
    }
  }

  /** Exactly the broken awards become reversed; no other source appears. */
  lemma {:induction false} ReverseBrokenExact(w: Wallet, habit: HabitId, days: set<Day>, k: nat)
    requires k <= |w.entries|
    ensures forall s: Source :: HasSource(ReverseBroken(w, habit, days, k).entries, s) <==>
      || HasSource(w.entries, s)
      || (s.Reversal? && s.original < k && Broken(w.entries[s.original], habit, days))
    decreases k
  {
    if k > 0 {
      ReverseBrokenExact(w, habit, days, k - 1);
    }
  }

  // ---- Claims -----------------------------------------------------------------

  ghost predicate Keyed(offers: seq<Entry>) {
    forall o :: o in offers ==> o.source.Streak? || o.source.Identity?
  }

  lemma {:induction false} ClaimAllKeepsSound(w: Wallet, offers: seq<Entry>)
    requires Sound(w) && Keyed(offers)
    ensures Sound(ClaimAll(w, offers))
    decreases |offers|
  {
    if offers != [] {
      assert offers[0] in offers;
      if !HasSource(w.entries, offers[0].source) {
        PostKeepsSound(w, offers[0]);
      }
      ClaimAllKeepsSound(Claim(w, offers[0]), offers[1..]);
    }
  }

  /** After a claim every offered key is taken, and nothing but offers was written. */
  lemma {:induction false} ClaimAllExact(w: Wallet, offers: seq<Entry>)
    ensures w.entries <= ClaimAll(w, offers).entries
    ensures Sources(ClaimAll(w, offers).entries) == Sources(w.entries) + Sources(offers)
    ensures forall i: nat :: |w.entries| <= i < |ClaimAll(w, offers).entries| ==>
      ClaimAll(w, offers).entries[i] in offers
    decreases |offers|
  {
    if offers != [] {
      ClaimAllExact(Claim(w, offers[0]), offers[1..]);
      SourcesConcat([offers[0]], offers[1..]);
      assert Sources([offers[0]]) == {offers[0].source};
      assert offers == [offers[0]] + offers[1..];
    }
  }

  /** A second claim of keys that are all taken writes nothing. */
  lemma {:induction false} ClaimAllTaken(w: Wallet, offers: seq<Entry>)
    requires Sources(offers) <= Sources(w.entries)
    ensures ClaimAll(w, offers) == w
    decreases |offers|
  {
    if offers != [] {
      SourcesConcat([offers[0]], offers[1..]);
      assert Sources([offers[0]]) == {offers[0].source};
      assert offers == [offers[0]] + offers[1..];
      ClaimAllTaken(w, offers[1..]);
    }
  }
}
