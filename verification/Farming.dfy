/**
 * Toggling one absent day on and off again. However often it is repeated, the
 * balance moves only once, and then only by bonuses that stay justified without
 * the day.
 */
module Farming {
  import opened Common
  import opened Streaks
  import opened Progression
  import opened Ledger
  import opened Completions
  import opened RewardLaws
  import opened BaseAwards
  import opened Milestones

  // ---- The balance is what still counts ----------------------------------------------

  /** Neither a reversal nor reversed. */
  predicate Counts(entries: seq<Entry>, i: nat)
    requires i < |entries|
  {
    !entries[i].source.Reversal? && !Reversed(entries, i)
  }

  function LiveSum(entries: seq<Entry>, lo: nat, hi: nat): int
    requires lo <= hi <= |entries|
    decreases hi
  {
    if lo == hi then 0
    else LiveSum(entries, lo, hi - 1) + (if Counts(entries, hi - 1) then entries[hi - 1].amount else 0)
  }

  lemma {:induction false} LiveSumSame(a: seq<Entry>, b: seq<Entry>, lo: nat, hi: nat)
    requires lo <= hi <= |a| && hi <= |b|
    requires forall i :: lo <= i < hi ==> a[i] == b[i] && (Reversed(a, i) <==> Reversed(b, i))
    ensures LiveSum(a, lo, hi) == LiveSum(b, lo, hi)
    decreases hi
  {
    if lo < hi {
      LiveSumSame(a, b, lo, hi - 1);
    }
  }

  /** Reversing one entry that counted takes away its amount. */
  lemma {:induction false} LiveSumFlip(a: seq<Entry>, b: seq<Entry>, hi: nat, k: nat)
    requires k < hi <= |a| && hi <= |b|
    requires forall i :: 0 <= i < hi ==> a[i] == b[i]
    requires forall i: nat :: i < hi && i != k ==> (Reversed(a, i) <==> Reversed(b, i))
    requires Counts(a, k) && !Counts(b, k)
    ensures LiveSum(b, 0, hi) == LiveSum(a, 0, hi) - a[k].amount
    decreases hi
  {
    if k == hi - 1 {
      LiveSumSame(a, b, 0, hi - 1);
    } else {
      LiveSumFlip(a, b, hi - 1, k);
    }
  }

  lemma {:induction false} LiveSumSplit(entries: seq<Entry>, lo: nat, mid: nat, hi: nat)
    requires lo <= mid <= hi <= |entries|
    ensures LiveSum(entries, lo, hi) == LiveSum(entries, lo, mid) + LiveSum(entries, mid, hi)
    decreases hi
  {
    if mid < hi {
      LiveSumSplit(entries, lo, mid, hi - 1);
    }
  }

  /** The last row's one-shot source is new, and nothing points at a row before it exists. */
  lemma LastRowIsNew(before: seq<Entry>, e: Entry)
    requires AtMostOnce(before + [e]) && ReversalsCancel(before + [e])
    ensures OneShot(e.source) ==> !HasSource(before, e.source)
    ensures !Reversed(before, |before|)
  {
    forall j | 0 <= j < |before|
      ensures (OneShot(e.source) ==> before[j].source != e.source) && before[j].source != Reversal(|before|)
    {
      assert (before + [e])[j] == before[j] && (before + [e])[|before|] == e;
    }
    if HasSource(before, e.source) {
      var j := SourceHasIndex(before, e.source);
    }
    if Reversed(before, |before|) {
      var j := SourceHasIndex(before, Reversal(|before|));
    }
  }

  /** One more row adds its amount to what counts, be it an award or a reversal. */
  lemma LastRowCounts(before: seq<Entry>, e: Entry)
    requires AtMostOnce(before + [e]) && ReversalsCancel(before + [e])
    ensures LiveSum(before + [e], 0, |before| + 1) == LiveSum(before, 0, |before|) + e.amount
  {
    var entries := before + [e];
    SourcesAppend(before, e);
    LastRowIsNew(before, e);
    if e.source.Reversal? {
      assert entries[|before|] == e;
      LiveSumFlip(before, entries, |before|, e.source.original);
    } else {
      LiveSumSame(before, entries, 0, |before|);
    }
  }

  /** The ledger's sum is the sum of the entries that still count. */
  lemma {:induction false} SumIsLive(entries: seq<Entry>)
    requires AtMostOnce(entries) && ReversalsCancel(entries)
    ensures Sum(entries) == LiveSum(entries, 0, |entries|)
    decreases |entries|
  {
    if entries != [] {
      var n := |entries| - 1;
      assert entries == entries[..n] + [entries[n]];
      SumIsLive(entries[..n]);
      LastRowCounts(entries[..n], entries[n]);
    }
  }

  // ---- Claims as the offers nobody took yet ----------------------------------------------

  function Fresh(taken: set<Source>, offers: seq<Entry>): seq<Entry>
    decreases |offers|
  {
    if offers == [] then []
    else if offers[0].source in taken then Fresh(taken, offers[1..])
    else [offers[0]] + Fresh(taken + {offers[0].source}, offers[1..])
  }

  lemma {:induction false} ClaimAllIsFresh(w: Wallet, offers: seq<Entry>)
    ensures ClaimAll(w, offers).entries == w.entries + Fresh(Sources(w.entries), offers)
    decreases |offers|
  {
    if offers != [] {
      ClaimAllIsFresh(Claim(w, offers[0]), offers[1..]);
    }
  }

  lemma {:induction false} FreshFromOffers(taken: set<Source>, offers: seq<Entry>)
    ensures forall o :: o in Fresh(taken, offers) ==> o in offers && o.source !in taken
    decreases |offers|
  {
    if offers != [] {
      FreshFromOffers(taken, offers[1..]);
      FreshFromOffers(taken + {offers[0].source}, offers[1..]);
    }
  }

  /** Sources that no offer carries do not matter. */
  lemma {:induction false} FreshIgnores(taken: set<Source>, more: set<Source>, offers: seq<Entry>)
    requires taken <= more
    requires forall o :: o in offers ==> (o.source in taken <==> o.source in more)
    ensures Fresh(taken, offers) == Fresh(more, offers)
    decreases |offers|
  {
    if offers != [] {
      assert offers[0] in offers;
      FreshIgnores(taken, more, offers[1..]);
      FreshIgnores(taken + {offers[0].source}, more + {offers[0].source}, offers[1..]);
    }
  }

  ghost predicate StreaksOnly(offers: seq<Entry>, habit: HabitId) {
    forall o :: o in offers ==> StreakOf(o, habit)
  }

  /** Total of the streak offers whose cycle `days` covers. */
  function Kept(offers: seq<Entry>, habit: HabitId, days: set<Day>): int
    requires StreaksOnly(offers, habit)
    decreases |offers|
  {
    if offers == [] then 0
    else
      var last := offers[|offers| - 1];
      assert last in offers;
      Kept(offers[..|offers| - 1], habit, days)
      + (if Block(days, last.source.cycleStart, last.source.milestone) then last.amount else 0)
  }

  // ---- One round ---------------------------------------------------------------------------

  predicate CanFarm(s: State, slot: Slot) {
    slot !in s.rows && slot.habit in s.habits && !s.habits[slot.habit].archived
  }

  /** A plain toggle, with neither a value nor a kind. */
  function PlainToggle(slot: Slot): Op { DoToggle(slot, None, None) }

  function OnOff(s: State, slot: Slot): State { Step(Step(s, PlainToggle(slot)), PlainToggle(slot)) }

  /** The rows while the day is on. */
  function OnRecord(s: State, slot: Slot): State
    requires CanFarm(s, slot)
  {
    Record(s, slot, s.habits[slot.habit], s.habits[slot.habit].goal, Full)
  }

  function Base0(s: State, slot: Slot): int
    requires CanFarm(s, slot)
  {
    BaseCoins(s.habits[slot.habit], Full)
  }

  /** The base award of the day, if it pays anything. */
  function BaseEntries(s: State, slot: Slot): (base: seq<Entry>)
    requires CanFarm(s, slot)
    ensures |base| <= 1 && forall e :: e in base ==> e.source == Base(Full, s.nextId)
  {
    if Base0(s, slot) > 0 then [Entry(Base0(s, slot), Base(Full, s.nextId))] else []
  }

  function StreaksOnOffer(s: State, slot: Slot): seq<Entry>
    requires CanFarm(s, slot)
  {
    StreakOffersOf(OnRecord(s, slot), s.habits[slot.habit], slot, Base0(s, slot))
  }

  function IdentitiesOnOffer(s: State, slot: Slot): seq<Entry>
    requires CanFarm(s, slot)
  {
    IdentityOffersOf(OnRecord(s, slot), s.habits[slot.habit], slot, Base0(s, slot))
  }

  /** Bonuses the ledger has never paid. */
  function NewStreaks(s: State, slot: Slot): seq<Entry>
    requires CanFarm(s, slot)
  {
    Fresh(Sources(s.wallet.entries), StreaksOnOffer(s, slot))
  }

  function NewIdentities(s: State, slot: Slot): seq<Entry>
    requires CanFarm(s, slot)
  {
    Fresh(Sources(s.wallet.entries), IdentitiesOnOffer(s, slot))
  }

  function OnWallet(s: State, slot: Slot): Wallet
    requires CanFarm(s, slot)
  {
    Award(OnRecord(s, slot), s.habits[slot.habit], slot, Full, s.nextId)
  }

  function OffWallet(s: State, slot: Slot): Wallet
    requires CanFarm(s, slot)
  {
    ReverseCompletion(s.(wallet := OnWallet(s, slot)), slot.habit, Full, s.nextId)
  }

  /** A round leaves every row, freeze and setting as it was. */
  lemma OnOffShape(s: State, slot: Slot)
    requires CanFarm(s, slot)
    ensures var t := OnOff(s, slot);
      t == s.(wallet := OffWallet(s, slot), nextId := s.nextId + 1, profile := t.profile)
    ensures CanFarm(OnOff(s, slot), slot)
  {
    var habit := s.habits[slot.habit];
    var on := Step(s, PlainToggle(slot));
    assert on == Log(s, slot, habit, habit.goal, Full);
    assert on.wallet == OnWallet(s, slot);
    assert on.rows - {slot} == s.rows;
    assert Step(on, PlainToggle(slot)) == ToggleOff(on, slot);
  }

  /** What the day-on ledger looks like. */
  lemma OnWalletShape(s: State, slot: Slot)
    requires CanFarm(s, slot) && Consistent(s)
    ensures Sound(OnWallet(s, slot))
    ensures OnWallet(s, slot).entries ==
      s.wallet.entries + BaseEntries(s, slot) + NewStreaks(s, slot) + NewIdentities(s, slot)
  {
    var habit, base := s.habits[slot.habit], Base0(s, slot);
    var t := OnRecord(s, slot);
    var streaks, identities := StreaksOnOffer(s, slot), IdentitiesOnOffer(s, slot);
    var w0 := PostBase(t.wallet, Full, s.nextId, base);
    var w1 := ClaimAll(w0, streaks);
    OffersKeyed(t, habit, slot, base);
    RecordFacts(s, slot, habit, habit.goal, Full);
    BasesWithoutRow(s.wallet.entries, s.rows, s.nextId, slot);
    AwardKeepsBases(t, habit, slot);
    ClaimAllIsFresh(w0, streaks);
    ClaimAllIsFresh(w1, identities);
    ClaimAllExact(w0, streaks);
    StreakOffersCovered(t, habit, slot, base);
    IdentityOffersKeyed(t.rows, slot.habit, t.identities);
    KeyedSources(streaks);
    FreshIgnores(Sources(s.wallet.entries), Sources(w0.entries), streaks);
    StreakSourcesOnly(streaks, slot.habit);
    FreshIgnores(Sources(s.wallet.entries), Sources(w1.entries), identities);
  }

  lemma {:induction false} StreakSourcesOnly(offers: seq<Entry>, habit: HabitId)
    requires StreaksOnly(offers, habit)
    ensures forall source: Source :: source in Sources(offers) ==> source.Streak?
    decreases |offers|
  {
    if offers != [] {
      assert offers[|offers| - 1] in offers;
      StreakSourcesOnly(offers[..|offers| - 1], habit);
    }
  }

  lemma NewStreaksAreStreaks(s: State, slot: Slot)
    requires CanFarm(s, slot)
    ensures StreaksOnly(NewStreaks(s, slot), slot.habit)
  {
    StreakOffersCovered(OnRecord(s, slot), s.habits[slot.habit], slot, Base0(s, slot));
    FreshFromOffers(Sources(s.wallet.entries), StreaksOnOffer(s, slot));
  }

  // ---- What the round's new entries are worth -----------------------------------------------

  /** Nothing the day-on ledger added has been reversed yet. */
  lemma NewEntriesStand(s: State, slot: Slot, i: nat)
    requires CanFarm(s, slot) && Consistent(s) && i >= |s.wallet.entries|
    ensures !Reversed(OnWallet(s, slot).entries, i)
  {
    AwardFocused(OnRecord(s, slot), s.habits[slot.habit], slot, Full, s.nextId);
    if Reversed(s.wallet.entries, i) {
      var j := SourceHasIndex(s.wallet.entries, Reversal(i));
    }
  }

  /** A reversal reverses the latest base award of the row and the broken bonuses, and nothing else. */
  lemma ReversalExact(u: State, habit: HabitId, kind: Kind, id: CompletionId, i: nat)
    requires Sound(u.wallet) && i < |u.wallet.entries|
    ensures var entries := ReverseCompletion(u, habit, kind, id).entries;
      && OnlyReversals(u.wallet.entries, entries)
      && (Reversed(entries, i) <==>
          || Reversed(u.wallet.entries, i)
          || Latest(u.wallet.entries, Base(kind, id)) == Some(i)
          || Broken(u.wallet.entries[i], habit, Satisfied(u, habit)))
  {
    var w := ReverseLatest(u.wallet, Base(kind, id));
    ReverseLatestExact(u.wallet, Base(kind, id));
    ReverseCompletionExtends(u, habit, kind, id);
    ReverseBrokenExact(w, habit, Satisfied(u, habit), |w.entries|);
    assert w.entries[i] == u.wallet.entries[i];
  }

  /** After the day is off, an entry is reversed if it was, or is the new base award, or lost its cycle. */
  lemma OffReverses(s: State, slot: Slot, i: nat)
    requires CanFarm(s, slot) && Consistent(s) && i < |OnWallet(s, slot).entries|
    ensures OnlyReversals(OnWallet(s, slot).entries, OffWallet(s, slot).entries)
    ensures Sound(OffWallet(s, slot))
    ensures Reversed(OffWallet(s, slot).entries, i) <==>
      || Reversed(OnWallet(s, slot).entries, i)
      || (Base0(s, slot) > 0 && i == |s.wallet.entries|)
      || Broken(OnWallet(s, slot).entries[i], slot.habit, Satisfied(s, slot.habit))
  {
    var on := OnWallet(s, slot);
    OnWalletShape(s, slot);
    LatestNewBase(s, slot);
    ReverseCompletionSound(s.(wallet := on), slot.habit, Full, s.nextId);
    ReversalExact(s.(wallet := on), slot.habit, Full, s.nextId, i);
  }

  lemma LatestNewBase(s: State, slot: Slot)
    requires CanFarm(s, slot) && Consistent(s)
    ensures Latest(OnWallet(s, slot).entries, Base(Full, s.nextId))
         == if Base0(s, slot) > 0 then Some(|s.wallet.entries|) else None
  {
    var on := OnWallet(s, slot).entries;
    var source := Base(Full, s.nextId);
    OnWalletShape(s, slot);
    NewStreaksAreStreaks(s, slot);
    FreshFromOffers(Sources(s.wallet.entries), IdentitiesOnOffer(s, slot));
    IdentityOffersKeyed(OnRecord(s, slot).rows, slot.habit, s.identities);
    OnlyOneBase(on, s.wallet.entries, source, s.nextId, Base0(s, slot), NewStreaks(s, slot),
                NewIdentities(s, slot), slot.habit);
  }

  lemma OnlyOneBase(on: seq<Entry>, entries: seq<Entry>, source: Source, id: CompletionId, base: int,
                    streaks: seq<Entry>, identities: seq<Entry>, habit: HabitId)
    requires source == Base(Full, id) && BasesOld(entries, id)
    requires StreaksOnly(streaks, habit) && forall o :: o in identities ==> o.source.Identity?
    requires on == entries + (if base > 0 then [Entry(base, source)] else []) + streaks + identities
    ensures Latest(on, source) == if base > 0 then Some(|entries|) else None
  {
    var n := |entries|;
    forall i | 0 <= i < |on|
      ensures on[i].source == source ==> base > 0 && i == n
    {
      var start := n + (if base > 0 then 1 else 0);
      if i < n {
        assert on[i] == entries[i];
      } else if i >= start + |streaks| {
        assert on[i] == identities[i - start - |streaks|];
        assert on[i] in identities;
      } else if i >= start {
        assert on[i] == streaks[i - start];
        assert on[i] in streaks;
      }
    }
    if base > 0 {
      assert on[n].source == source;
      SourceAt(on, n);
    }
  }

  lemma {:induction false} KeptSegment(
    entries: seq<Entry>, lo: nat, streaks: seq<Entry>, habit: HabitId, days: set<Day>)
    requires StreaksOnly(streaks, habit) && lo + |streaks| <= |entries|
    requires entries[lo..lo + |streaks|] == streaks
    requires forall i :: lo <= i < lo + |streaks| ==> (Reversed(entries, i) <==> Broken(entries[i], habit, days))
    ensures LiveSum(entries, lo, lo + |streaks|) == Kept(streaks, habit, days)
    decreases |streaks|
  {
    if streaks != [] {
      var n := |streaks| - 1;
      assert streaks[n] in streaks && entries[lo + n] == entries[lo..lo + |streaks|][n];
      assert entries[lo..lo + n] == entries[lo..lo + |streaks|][..n];
      KeptSegment(entries, lo, streaks[..n], habit, days);
    }
  }

  lemma {:induction false} StandingSegment(entries: seq<Entry>, lo: nat, part: seq<Entry>)
    requires lo + |part| <= |entries| && entries[lo..lo + |part|] == part
    requires forall i :: lo <= i < lo + |part| ==> Counts(entries, i)
    ensures LiveSum(entries, lo, lo + |part|) == Sum(part)
    decreases |part|
  {
    if part != [] {
      var n := |part| - 1;
      assert entries[lo + n] == entries[lo..lo + |part|][n];
      assert entries[lo..lo + n] == entries[lo..lo + |part|][..n];
      StandingSegment(entries, lo, part[..n]);
    }
  }

  lemma {:induction false} DeadSegment(entries: seq<Entry>, lo: nat, hi: nat)
    requires lo <= hi <= |entries|
    requires forall i :: lo <= i < hi ==> !Counts(entries, i)
    ensures LiveSum(entries, lo, hi) == 0
    decreases hi
  {
    if lo < hi {
      DeadSegment(entries, lo, hi - 1);
    }
  }

  lemma FourParts(entries: seq<Entry>, n: nat, a: nat, b: nat, c: nat)
    requires n <= a <= b <= c <= |entries|
    ensures LiveSum(entries, n, |entries|)
         == LiveSum(entries, n, a) + LiveSum(entries, a, b) + LiveSum(entries, b, c) + LiveSum(entries, c, |entries|)
  {
    LiveSumSplit(entries, n, a, |entries|);
    LiveSumSplit(entries, a, b, |entries|);
    LiveSumSplit(entries, b, c, |entries|);
  }

  /** Four consecutive parts: the cancelled base, the streak bonuses, the identity bonuses, the reversals. */
  lemma PartsWorth(off: seq<Entry>, n: nat, a: nat, streaks: seq<Entry>, identities: seq<Entry>,
                   habit: HabitId, days: set<Day>)
    requires StreaksOnly(streaks, habit)
    requires n <= a && a + |streaks| + |identities| <= |off|
    requires off[a..a + |streaks|] == streaks
    requires off[a + |streaks|..a + |streaks| + |identities|] == identities
    requires forall i :: n <= i < a ==> !Counts(off, i)
    requires forall i :: a <= i < a + |streaks| ==> (Reversed(off, i) <==> Broken(off[i], habit, days))
    requires forall i :: a + |streaks| <= i < a + |streaks| + |identities| ==> Counts(off, i)
    requires forall i :: a + |streaks| + |identities| <= i < |off| ==> !Counts(off, i)
    ensures LiveSum(off, n, |off|) == Kept(streaks, habit, days) + Sum(identities)
  {
    var b := a + |streaks|;
    var c := b + |identities|;
    FourParts(off, n, a, b, c);
    KeptSegment(off, a, streaks, habit, days);
    StandingSegment(off, b, identities);
    DeadSegment(off, n, a);
    DeadSegment(off, c, |off|);
  }

  /** The same four parts, as they arise from appending to `entries`. */
  lemma AppendedWorth(entries: seq<Entry>, base: seq<Entry>, streaks: seq<Entry>, identities: seq<Entry>,
                      off: seq<Entry>, habit: HabitId, days: set<Day>)
    requires StreaksOnly(streaks, habit) && |base| <= 1
    requires forall i :: 0 <= i < |identities| ==> identities[i].source.Identity?
    requires forall e :: e in base ==> e.source.Base?
    requires OnlyReversals(entries + base + streaks + identities, off)
    requires forall i :: |entries| <= i < |entries + base + streaks + identities| ==>
      (Reversed(off, i) <==> i < |entries| + |base| || Broken(off[i], habit, days))
    ensures LiveSum(off, |entries|, |off|) == Kept(streaks, habit, days) + Sum(identities)
  {
    var on := entries + base + streaks + identities;
    var a := |entries| + |base|;
    var b := a + |streaks|;
    assert off[..|on|] == on;
    assert on[a..b] == streaks && on[b..] == identities;
    assert off[a..b] == streaks && off[b..b + |identities|] == identities;
    forall i | b <= i < b + |identities|
      ensures Counts(off, i)
    {
      assert off[i] == identities[i - b];
    }
    forall i | a <= i < b
      ensures Reversed(off, i) <==> Broken(off[i], habit, days)
    {
    }
    PartsWorth(off, |entries|, a, streaks, identities, habit, days);
  }

  /** The live value of everything one round appended. */
  lemma NewEntriesWorth(s: State, slot: Slot)
    requires CanFarm(s, slot) && Consistent(s) && StreaksOnly(NewStreaks(s, slot), slot.habit)
    ensures |s.wallet.entries| <= |OffWallet(s, slot).entries|
    ensures LiveSum(OffWallet(s, slot).entries, |s.wallet.entries|, |OffWallet(s, slot).entries|)
         == Kept(NewStreaks(s, slot), slot.habit, Satisfied(s, slot.habit)) + Sum(NewIdentities(s, slot))
  {
    OnWalletShape(s, slot);
    RoundReverses(s, slot);
    IdentitiesOnly(s, slot);
    AppendedWorth(s.wallet.entries, BaseEntries(s, slot), NewStreaks(s, slot), NewIdentities(s, slot),
                  OffWallet(s, slot).entries, slot.habit, Satisfied(s, slot.habit));
  }

  lemma IdentitiesOnly(s: State, slot: Slot)
    requires CanFarm(s, slot)
    ensures forall i :: 0 <= i < |NewIdentities(s, slot)| ==> NewIdentities(s, slot)[i].source.Identity?
  {
    FreshFromOffers(Sources(s.wallet.entries), IdentitiesOnOffer(s, slot));
    IdentityOffersKeyed(OnRecord(s, slot).rows, slot.habit, s.identities);
    forall i | 0 <= i < |NewIdentities(s, slot)|
      ensures NewIdentities(s, slot)[i].source.Identity?
    {
      assert NewIdentities(s, slot)[i] in NewIdentities(s, slot);
    }
  }

  lemma RoundReverses(s: State, slot: Slot)
    requires CanFarm(s, slot) && Consistent(s)
    ensures OnlyReversals(OnWallet(s, slot).entries, OffWallet(s, slot).entries)
    ensures Sound(OffWallet(s, slot))
    ensures forall i :: |s.wallet.entries| <= i < |OnWallet(s, slot).entries| ==>
      (Reversed(OffWallet(s, slot).entries, i) <==>
        i < |s.wallet.entries| + |BaseEntries(s, slot)|
        || Broken(OffWallet(s, slot).entries[i], slot.habit, Satisfied(s, slot.habit)))
  {
    var on, off := OnWallet(s, slot).entries, OffWallet(s, slot).entries;
    ReverseCompletionExtends(s.(wallet := OnWallet(s, slot)), slot.habit, Full, s.nextId);
    OnWalletShape(s, slot);
    ReverseCompletionSound(s.(wallet := OnWallet(s, slot)), slot.habit, Full, s.nextId);
    forall i | |s.wallet.entries| <= i < |on|
      ensures Reversed(off, i) <==>
        i < |s.wallet.entries| + |BaseEntries(s, slot)| || Broken(off[i], slot.habit, Satisfied(s, slot.habit))
    {
      OffReverses(s, slot, i);
      NewEntriesStand(s, slot, i);
      assert off[i] == on[i];
    }
  }

  lemma ReverseCompletionSound(s: State, habit: HabitId, kind: Kind, id: CompletionId)
    requires Sound(s.wallet)
    ensures Sound(ReverseCompletion(s, habit, kind, id))
  {
    var w := ReverseLatest(s.wallet, Base(kind, id));
    ReverseLatestExact(s.wallet, Base(kind, id));
    ReverseBrokenKeepsSound(w, habit, Satisfied(s, habit), |w.entries|);
  }

  // ---- The net gain of one round --------------------------------------------------------------

  /**
   * Toggling an absent day on and off gains exactly the never-paid streak
   * bonuses whose cycle stays covered without the day, plus never-paid identity
   * bonuses. The base coins come and go.
   */
  lemma OnOffGain(s: State, slot: Slot)
    requires CanFarm(s, slot) && Consistent(s)
    requires Intact(s.wallet.entries, slot.habit, Satisfied(s, slot.habit))
    ensures StreaksOnly(NewStreaks(s, slot), slot.habit)
    ensures OnOff(s, slot).wallet.coins - s.wallet.coins
         == Kept(NewStreaks(s, slot), slot.habit, Satisfied(s, slot.habit)) + Sum(NewIdentities(s, slot))
  {
    var entries, off := s.wallet.entries, OffWallet(s, slot).entries;
    var n := |entries|;
    NewStreaksAreStreaks(s, slot);
    OnOffShape(s, slot);
    NewEntriesWorth(s, slot);
    OldEntriesWorth(s, slot);
    LiveSumSplit(off, 0, n, |off|);
  }

  /** Both ledgers sum what counts in them, and the old entries count for as much after the round. */
  lemma OldEntriesWorth(s: State, slot: Slot)
    requires CanFarm(s, slot) && Consistent(s)
    requires Intact(s.wallet.entries, slot.habit, Satisfied(s, slot.habit))
    ensures var entries, off := s.wallet.entries, OffWallet(s, slot).entries;
      && |entries| <= |off|
      && OffWallet(s, slot).coins == LiveSum(off, 0, |off|)
      && s.wallet.coins == LiveSum(off, 0, |entries|)
  {
    var entries, off := s.wallet.entries, OffWallet(s, slot).entries;
    RoundReverses(s, slot);
    OldEntriesStand(s, slot);
    SumIsLive(entries);
    SumIsLive(off);
    LiveSumSame(entries, off, 0, |entries|);
  }

  /** No entry from before the round is reversed by it. */
  lemma OldEntriesStand(s: State, slot: Slot)
    requires CanFarm(s, slot) && Consistent(s)
    requires Intact(s.wallet.entries, slot.habit, Satisfied(s, slot.habit))
    ensures s.wallet.entries <= OffWallet(s, slot).entries
    ensures forall i: nat :: i < |s.wallet.entries| ==>
      (Reversed(OffWallet(s, slot).entries, i) <==> Reversed(s.wallet.entries, i))
  {
    OnWalletShape(s, slot);
    RoundReverses(s, slot);
    AwardFocused(OnRecord(s, slot), s.habits[slot.habit], slot, Full, s.nextId);
    forall i: nat | i < |s.wallet.entries|
      ensures Reversed(OffWallet(s, slot).entries, i) <==> Reversed(s.wallet.entries, i)
    {
      OffReverses(s, slot, i);
      assert OnWallet(s, slot).entries[i] == s.wallet.entries[i];
    }
  }

  lemma CycleWithoutLastDay(off: set<Day>, on: set<Day>, end: Day, m: nat)
    requires on == off + {end} && end !in off && 0 < m <= CurrentStreak(on, end)
    ensures Block(off, CycleStart(on, end), m) <==> m < CurrentStreak(on, end)
  {
    var start := CycleStart(on, end);
    ReachedMilestoneIsIntact(on, end, m);
    if m == CurrentStreak(on, end) {
      assert start <= end < start + m;
    }
  }

  lemma CompletedWithDay(s: State, slot: Slot)
    requires CanFarm(s, slot)
    ensures CompletedDays(OnRecord(s, slot).rows, slot.habit) == CompletedDays(s.rows, slot.habit) + {slot.day}
    ensures slot.day !in CompletedDays(s.rows, slot.habit)
  {
    var t := OnRecord(s, slot);
    forall d
      ensures Done(t.rows, Slot(slot.habit, d)) <==> Done(s.rows, Slot(slot.habit, d)) || d == slot.day
    {
      assert Slot(slot.habit, d) == slot <==> d == slot.day;
    }
  }

  lemma OnAddsTheDay(s: State, slot: Slot)
    requires CanFarm(s, slot) && |CompletedDays(s.rows, slot.habit)| < RECENT_WINDOW && slot !in s.frozen
    ensures Satisfied(OnRecord(s, slot), slot.habit) == Satisfied(s, slot.habit) + {slot.day}
    ensures slot.day !in Satisfied(s, slot.habit)
  {
    CompletedWithDay(s, slot);
    RecentIsAll(CompletedDays(s.rows, slot.habit), RECENT_WINDOW);
    RecentIsAll(CompletedDays(OnRecord(s, slot).rows, slot.habit), RECENT_WINDOW);
  }

  /** A kept bonus is one the streak had outgrown: within the window, milestone m is kept iff m < streak. */
  lemma KeptIffOutgrown(s: State, slot: Slot, offer: Entry)
    requires CanFarm(s, slot) && offer in StreaksOnOffer(s, slot)
    requires |CompletedDays(s.rows, slot.habit)| < RECENT_WINDOW && slot !in s.frozen
    ensures offer.source.Streak?
    ensures Block(Satisfied(s, slot.habit), offer.source.cycleStart, offer.source.milestone) <==>
      offer.source.milestone < CurrentStreak(Satisfied(OnRecord(s, slot), slot.habit), slot.day)
  {
    var off, on := Satisfied(s, slot.habit), Satisfied(OnRecord(s, slot), slot.habit);
    StreakOffersKeyed(slot.habit, CurrentStreak(on, slot.day), CycleStart(on, slot.day), STREAK_MILESTONES);
    OnAddsTheDay(s, slot);
    CycleWithoutLastDay(off, on, slot.day, offer.source.milestone);
  }

  lemma {:induction false} IdentityBonusTotal(offers: seq<Entry>)
    requires forall o :: o in offers ==> o.amount == IDENTITY_MILESTONE_BONUS
    ensures Sum(offers) == IDENTITY_MILESTONE_BONUS * |offers|
    decreases |offers|
  {
    if offers != [] {
      assert offers[|offers| - 1] in offers;
      IdentityBonusTotal(offers[..|offers| - 1]);
    }
  }

  lemma {:induction false} IdentityOffersPayFixed(rows: map<Slot, Row>, habit: HabitId, ids: seq<Identity>)
    ensures forall o :: o in IdentityOffers(rows, habit, ids) ==> o.amount == IDENTITY_MILESTONE_BONUS
    decreases |ids|
  {
    if ids != [] {
      IdentityOffersPayFixed(rows, habit, ids[1..]);
      ThresholdOffersPayFixed(ids[0].id, EvidencePoints(rows, ids[0].habits), IDENTITY_THRESHOLDS);
    }
  }

  lemma {:induction false} ThresholdOffersPayFixed(id: IdentityId, points: nat, ts: seq<nat>)
    ensures forall o :: o in ThresholdOffers(id, points, ts) ==> o.amount == IDENTITY_MILESTONE_BONUS
    decreases |ts|
  {
    if ts != [] {
      ThresholdOffersPayFixed(id, points, ts[1..]);
    }
  }

  /**
   * In a state whose bonuses are all justified, with the day's completions
   * inside the 400-day window, one round gains the new streak bonuses covered
   * without the day and 20 coins for each new identity level, and nothing else.
   */
  lemma RoundNetGain(s: State, slot: Slot)
    requires CanFarm(s, slot) && Consistent(s) && AllCycles(s)
    requires |CompletedDays(s.rows, slot.habit)| < RECENT_WINDOW
    ensures StreaksOnly(NewStreaks(s, slot), slot.habit)
    ensures OnOff(s, slot).wallet.coins - s.wallet.coins
         == Kept(NewStreaks(s, slot), slot.habit, Covered(s, slot.habit))
          + IDENTITY_MILESTONE_BONUS * |NewIdentities(s, slot)|
  {
    RecentIsAll(CompletedDays(s.rows, slot.habit), RECENT_WINDOW);
    assert Satisfied(s, slot.habit) == Covered(s, slot.habit);
    OnOffGain(s, slot);
    IdentityOffersPayFixed(OnRecord(s, slot).rows, slot.habit, s.identities);
    FreshFromOffers(Sources(s.wallet.entries), IdentitiesOnOffer(s, slot));
    IdentityBonusTotal(NewIdentities(s, slot));
  }

  // ---- Repetition pays nothing -------------------------------------------------------------------

  /** All offers of the day are already paid and every bonus that counts is justified without it. */
  ghost predicate Settled(s: State, slot: Slot)
    requires CanFarm(s, slot)
  {
    && Sources(StreaksOnOffer(s, slot)) <= Sources(s.wallet.entries)
    && Sources(IdentitiesOnOffer(s, slot)) <= Sources(s.wallet.entries)
    && Intact(s.wallet.entries, slot.habit, Satisfied(s, slot.habit))
  }

  lemma EvidenceSame(a: map<Slot, Row>, b: map<Slot, Row>, habits: set<HabitId>)
    requires a.Keys == b.Keys
    requires forall k :: k in a ==> a[k].status == b[k].status && a[k].kind == b[k].kind
    ensures EvidencePoints(a, habits) == EvidencePoints(b, habits)
  {
    assert EvidenceSlots(a, habits, true) == EvidenceSlots(b, habits, true);
    assert EvidenceSlots(a, habits, false) == EvidenceSlots(b, habits, false);
  }

  lemma {:induction false} IdentityOffersSame(a: map<Slot, Row>, b: map<Slot, Row>, habit: HabitId, ids: seq<Identity>)
    requires a.Keys == b.Keys
    requires forall k :: k in a ==> a[k].status == b[k].status && a[k].kind == b[k].kind
    ensures IdentityOffers(a, habit, ids) == IdentityOffers(b, habit, ids)
    decreases |ids|
  {
    if ids != [] {
      EvidenceSame(a, b, ids[0].habits);
      IdentityOffersSame(a, b, habit, ids[1..]);
    }
  }

  /** What a day offers depends on the rows, the freezes and the settings alone. */
  lemma SameRowsSameOffers(s: State, t: State, slot: Slot)
    requires CanFarm(s, slot) && t == s.(wallet := t.wallet, nextId := t.nextId, profile := t.profile)
    ensures CanFarm(t, slot)
    ensures StreaksOnOffer(t, slot) == StreaksOnOffer(s, slot)
    ensures IdentitiesOnOffer(t, slot) == IdentitiesOnOffer(s, slot)
  {
    var a, b := OnRecord(s, slot).rows, OnRecord(t, slot).rows;
    assert CompletedDays(a, slot.habit) == CompletedDays(b, slot.habit) by {
      assert forall k :: Done(a, k) <==> Done(b, k);
    }
    IdentityOffersSame(a, b, slot.habit, s.identities);
  }

  /** The day offers the same bonuses before and after a round. */
  lemma OffersSame(s: State, slot: Slot)
    requires CanFarm(s, slot)
    ensures CanFarm(OnOff(s, slot), slot)
    ensures StreaksOnOffer(OnOff(s, slot), slot) == StreaksOnOffer(s, slot)
    ensures IdentitiesOnOffer(OnOff(s, slot), slot) == IdentitiesOnOffer(s, slot)
  {
    OnOffShape(s, slot);
    var t := OnOff(s, slot);
    SameRowsSameOffers(s, t, slot);
  }

  lemma OnOffSettles(s: State, slot: Slot)
    requires CanFarm(s, slot) && Consistent(s)
    ensures CanFarm(OnOff(s, slot), slot) && Settled(OnOff(s, slot), slot)
  {
    OnOffShape(s, slot);
    OffersSame(s, slot);
    var t := OnRecord(s, slot);
    var w0 := PostBase(t.wallet, Full, s.nextId, Base0(s, slot));
    ClaimAllExact(w0, StreaksOnOffer(s, slot));
    ClaimAllExact(ClaimAll(w0, StreaksOnOffer(s, slot)), IdentitiesOnOffer(s, slot));
    RoundReverses(s, slot);
    SourcesPrefix(OnWallet(s, slot).entries, OffWallet(s, slot).entries);
    ReversalRestoresCycles(s.(wallet := OnWallet(s, slot)), slot.habit, Full, s.nextId);
  }

  lemma {:induction false} FreshNone(taken: set<Source>, offers: seq<Entry>)
    requires Sources(offers) <= taken
    ensures Fresh(taken, offers) == []
    decreases |offers|
  {
    if offers != [] {
      SourcesConcat([offers[0]], offers[1..]);
      assert Sources([offers[0]]) == {offers[0].source};
      assert offers == [offers[0]] + offers[1..];
      FreshNone(taken, offers[1..]);
    }
  }

  lemma SettledRoundIsFree(s: State, slot: Slot)
    requires CanFarm(s, slot) && Consistent(s) && Settled(s, slot)
    ensures OnOff(s, slot).wallet.coins == s.wallet.coins
  {
    FreshNone(Sources(s.wallet.entries), StreaksOnOffer(s, slot));
    FreshNone(Sources(s.wallet.entries), IdentitiesOnOffer(s, slot));
    OnOffGain(s, slot);
  }

  /** A consistent state that has paid everything the day can offer. */
  ghost predicate Rested(s: State, slot: Slot) { CanFarm(s, slot) && Consistent(s) && Settled(s, slot) }

  /** One round leaves the rows alone, the state consistent, and every offer of the day paid. */
  lemma RoundRests(s: State, slot: Slot)
    requires CanFarm(s, slot) && Consistent(s)
    ensures OnOff(s, slot).rows == s.rows && Rested(OnOff(s, slot), slot)
  {
    StepKeepsConsistent(s, PlainToggle(slot));
    StepKeepsConsistent(Step(s, PlainToggle(slot)), PlainToggle(slot));
    OnOffShape(s, slot);
    OnOffSettles(s, slot);
  }

  /** `t` has the rows and the balance of `s`, and nothing left to earn from the day. */
  ghost predicate SameWorth(s: State, t: State, slot: Slot) {
    t.rows == s.rows && t.wallet.coins == s.wallet.coins && Rested(t, slot)
  }

  lemma RestedRound(s: State, slot: Slot)
    requires Rested(s, slot)
    ensures SameWorth(s, OnOff(s, slot), slot)
  {
    SettledRoundIsFree(s, slot);
    RoundRests(s, slot);
  }

  ghost predicate RoundAt(states: seq<State>, slot: Slot, i: nat)
    requires 0 < i < |states|
  {
    states[i] == OnOff(states[i - 1], slot)
  }

  /** The states a day passes through when it is toggled on and off again and again. */
  ghost predicate Rounds(states: seq<State>, slot: Slot) {
    states != [] && forall i: nat :: 0 < i < |states| ==> RoundAt(states, slot, i)
  }

  /** The main result: any number of rounds leaves the same balance and rows as one. */
  lemma {:induction false} RoundsCannotBeFarmed(states: seq<State>, slot: Slot, n: nat)
    requires Rounds(states, slot) && CanFarm(states[0], slot) && Consistent(states[0])
    requires 1 <= n < |states|
    ensures states[n].wallet.coins == states[1].wallet.coins
    ensures states[n].rows == states[0].rows
    ensures Rested(states[n], slot)
    decreases n
  {
    assert RoundAt(states, slot, n);
    if n == 1 {
      RoundRests(states[0], slot);
    } else {
      RoundsCannotBeFarmed(states, slot, n - 1);
      RestedRound(states[n - 1], slot);
    }
  }
}
