/**
 * Choosing the budget of an expense, among one user's budgets. Instants are
 * milliseconds; ranges are compared by UTC calendar day. Money is exact.
 */
module Budgets {
  import opened Common

  type Id = string
  type Instant = int

  const DAY_MS: int := 86400000

  datatype Period = DailyBudget | WeeklyBudget | CustomBudget | MonthlyBudget

  datatype Week = Week(start: Instant, end: Instant, amount: real)

  datatype Allocation = Allocation(category: Id, amount: real)

  datatype Budget = Budget(
    period: Period,
    amount: real,
    start: Instant,
    end: Instant,
    weeks: seq<Week>,
    allocations: seq<Allocation>,
    createdAt: Instant)

  // ---- Days ---------------------------------------------------------------------

  function DayStart(t: Instant): Instant { t - t % DAY_MS }

  function DayEnd(t: Instant): Instant { DayStart(t) + DAY_MS - 1 }

  predicate ContainsDate(b: Budget, t: Instant) { DayStart(b.start) <= t <= DayEnd(b.end) }

  function DurationDays(b: Budget): int {
    Max(1, (DayEnd(b.end) - DayStart(b.start) + 1 + DAY_MS - 1) / DAY_MS)
  }

  /** The rounding never bites: a range in order lasts exactly its calendar days, the first and last included. */
  lemma DurationIsDays(b: Budget)
    requires b.start <= b.end
    ensures DurationDays(b) * DAY_MS == DayEnd(b.end) + 1 - DayStart(b.start)
    ensures DurationDays(b) == 1 <==> DayStart(b.start) == DayStart(b.end)
  {
    assert DayStart(b.end) == b.end / DAY_MS * DAY_MS && DayStart(b.start) == b.start / DAY_MS * DAY_MS;
    var days := b.end / DAY_MS - b.start / DAY_MS;
    assert DayEnd(b.end) - DayStart(b.start) + 1 == (days + 1) * DAY_MS;
    assert ((days + 1) * DAY_MS + DAY_MS - 1) / DAY_MS == days + 1;
  }

  function Priority(p: Period): int {
    match p
    case DailyBudget => 1
    case WeeklyBudget => 2
    case CustomBudget => 3
    case MonthlyBudget => 4
  }

  /** The two ranges share no calendar day. */
  predicate DayDisjoint(a: Budget, b: Budget) { DayEnd(a.end) < DayStart(b.start) || DayEnd(b.end) < DayStart(a.start) }

  predicate Overlaps(b: Budget, period: Period, start: Instant, end: Instant) {
    b.period == period && b.start <= DayEnd(end) && b.end >= DayStart(start)
  }

  /** The write-time test on instants is the day-level one. */
  lemma OverlapIsByDay(a: Budget, b: Budget)
    requires a.start <= a.end && b.start <= b.end && a.period == b.period
    ensures Overlaps(a, b.period, b.start, b.end) <==> !DayDisjoint(a, b)
  {
  }

  // ---- Choosing a budget for an expense --------------------------------------------

  predicate Candidate(budgets: map<Id, Budget>, t: Instant, id: Id) {
    id in budgets && budgets[id].start <= t <= budgets[id].end
  }

  /** Strictly more specific: shorter, or as long with a higher period priority. */
  predicate Beats(a: Budget, b: Budget) {
    DurationDays(a) < DurationDays(b)
    || (DurationDays(a) == DurationDays(b) && Priority(a.period) < Priority(b.period))
  }

  ghost predicate Best(budgets: map<Id, Budget>, t: Instant, id: Id) {
    && Candidate(budgets, t, id)
    && forall other :: Candidate(budgets, t, other) && other != id ==> Beats(budgets[id], budgets[other])
  }

  lemma BestUnique(budgets: map<Id, Budget>, t: Instant, a: Id, b: Id)
    requires Best(budgets, t, a) && Best(budgets, t, b)
    ensures a == b
  {
  }

  /** The budget an expense without a requested one is linked to. */
  ghost function AutoBudget(budgets: map<Id, Budget>, t: Instant): (r: Option<Id>)
    ensures r.Some? ==> Best(budgets, t, r.value)
    ensures r.None? ==> forall id :: !Best(budgets, t, id)
  {
    if id :| Best(budgets, t, id) then Some(id) else None
  }

  /** The comparator of the sort, with the creation time as its last key. */
  predicate Before(a: Budget, b: Budget) {
    Beats(a, b) || (!Beats(b, a) && a.createdAt <= b.createdAt)
  }

  ghost predicate Ranked(budgets: map<Id, Budget>, ids: seq<Id>) {
    && (forall i :: 0 <= i < |ids| ==> ids[i] in budgets)
    && (forall i, j :: 0 <= i < j < |ids| ==> Before(budgets[ids[i]], budgets[ids[j]]))
  }

  function Insert(budgets: map<Id, Budget>, id: Id, ids: seq<Id>): (r: seq<Id>)
    requires id in budgets && forall x :: x in ids ==> x in budgets
    ensures multiset(r) == multiset(ids) + multiset{id}
  {
    if ids == [] then [id]
    else if Before(budgets[id], budgets[ids[0]]) then [id] + ids
    else
      assert ids == [ids[0]] + ids[1..];
      [ids[0]] + Insert(budgets, id, ids[1..])
  }

  lemma {:induction false} InsertRanked(budgets: map<Id, Budget>, id: Id, ids: seq<Id>)
    requires id in budgets && Ranked(budgets, ids) && forall x :: x in ids ==> x in budgets
    ensures Ranked(budgets, Insert(budgets, id, ids))
    decreases |ids|
  {
    var r := Insert(budgets, id, ids);
    if ids != [] && !Before(budgets[id], budgets[ids[0]]) {
      InsertRanked(budgets, id, ids[1..]);
      var tail := Insert(budgets, id, ids[1..]);
      forall j | 0 <= j < |tail|
        ensures tail[j] in budgets && Before(budgets[ids[0]], budgets[tail[j]])
      {
        assert tail[j] in multiset(tail);
        assert tail[j] in multiset(ids[1..]) || tail[j] == id;
        assert tail[j] in ids[1..] || tail[j] == id;
      }
    } else {
      forall j | 0 <= j < |ids|
        ensures Before(budgets[id], budgets[ids[j]])
      {
        assert j > 0 ==> Before(budgets[ids[0]], budgets[ids[j]]);
      }
    }
  }

  lemma SameMembers(a: seq<Id>, b: seq<Id>)
    requires multiset(a) == multiset(b)
    ensures forall x :: x in a <==> x in b
  {
    assert forall x :: x in a <==> x in multiset(a);
  }

  function SortByRank(budgets: map<Id, Budget>, ids: seq<Id>): (r: seq<Id>)
    requires forall x :: x in ids ==> x in budgets
    ensures multiset(r) == multiset(ids)
  {
    if ids == [] then []
    else
      assert ids == [ids[0]] + ids[1..];
      var rest := SortByRank(budgets, ids[1..]);
      SameMembers(rest, ids[1..]);
      Insert(budgets, ids[0], rest)
  }

  lemma {:induction false} SortByRankRanked(budgets: map<Id, Budget>, ids: seq<Id>)
    requires forall x :: x in ids ==> x in budgets
    ensures Ranked(budgets, SortByRank(budgets, ids))
    decreases |ids|
  {
    if ids != [] {
      SortByRankRanked(budgets, ids[1..]);
      var rest := SortByRank(budgets, ids[1..]);
      SameMembers(rest, ids[1..]);
      InsertRanked(budgets, ids[0], rest);
    }
  }

  ghost predicate Once(ids: seq<Id>) { forall i, j :: 0 <= i < j < |ids| ==> ids[i] != ids[j] }

  /** The query lists every budget that spans the instant, once, in some order. */
  ghost predicate Lists(budgets: map<Id, Budget>, t: Instant, order: seq<Id>) {
    && Once(order)
    && forall id :: id in order <==> Candidate(budgets, t, id)
  }

  /** The day-level filter after the query lets every row through. */
  function Filter(budgets: map<Id, Budget>, t: Instant, ids: seq<Id>): (r: seq<Id>)
    requires forall x :: x in ids ==> x in budgets
    ensures (forall x :: x in ids ==> ContainsDate(budgets[x], t)) ==> r == ids
    ensures forall x :: x in r ==> x in ids
  {
    if ids == [] then []
    else
      var rest := Filter(budgets, t, ids[1..]);
      if ContainsDate(budgets[ids[0]], t) then [ids[0]] + rest else rest
  }

  /** Rank the rows the query returned; a tie between the two best is ambiguous. */
  function Resolve(budgets: map<Id, Budget>, t: Instant, order: seq<Id>): Option<Id>
    requires forall x :: x in order ==> x in budgets
  {
    var ranked := SortByRank(budgets, Filter(budgets, t, order));
    SameMembers(ranked, Filter(budgets, t, order));
    if ranked == [] then None
    else if |ranked| > 1 && Ties(budgets[ranked[0]], budgets[ranked[1]]) then None
    else Some(ranked[0])
  }

  predicate Ties(a: Budget, b: Budget) {
    DurationDays(a) == DurationDays(b) && Priority(a.period) == Priority(b.period)
  }

  lemma {:induction false} OnceCounts(ids: seq<Id>, x: Id)
    requires Once(ids)
    ensures multiset(ids)[x] <= 1
    decreases |ids|
  {
    if ids != [] {
      assert ids == [ids[0]] + ids[1..];
      OnceCounts(ids[1..], x);
    }
  }

  lemma OnceInAnyOrder(a: seq<Id>, b: seq<Id>)
    requires multiset(a) == multiset(b) && Once(a)
    ensures Once(b)
  {
    forall i, j | 0 <= i < j < |b|
      ensures b[i] != b[j]
    {
      OnceCounts(a, b[i]);
      assert b == b[..j] + [b[j]] + b[j + 1..];
      assert b[i] == b[..j][i] && b[i] in multiset(b[..j]);
    }
  }

  /** Sorting and tie-breaking picks the strict minimum, whatever order the rows came in. */
  lemma ResolveIsAuto(budgets: map<Id, Budget>, t: Instant, order: seq<Id>)
    requires Lists(budgets, t, order)
    ensures Resolve(budgets, t, order) == AutoBudget(budgets, t)
  {
    var ranked := SortByRank(budgets, Filter(budgets, t, order));
    assert Filter(budgets, t, order) == order;
    SortByRankRanked(budgets, order);
    SameMembers(ranked, order);
    OnceInAnyOrder(order, ranked);
    if ranked == [] {
      assert forall id :: !Candidate(budgets, t, id);
    } else if |ranked| > 1 && Ties(budgets[ranked[0]], budgets[ranked[1]]) {
      TieLeavesNoBest(budgets, t, ranked);
    } else {
      FirstIsBest(budgets, t, ranked);
      BestUnique(budgets, t, ranked[0], AutoBudget(budgets, t).value);
    }
  }

  lemma FirstIsBest(budgets: map<Id, Budget>, t: Instant, ranked: seq<Id>)
    requires Lists(budgets, t, ranked) && Ranked(budgets, ranked) && ranked != []
    requires |ranked| > 1 ==> !Ties(budgets[ranked[0]], budgets[ranked[1]])
    ensures Best(budgets, t, ranked[0])
  {
    forall other | Candidate(budgets, t, other) && other != ranked[0]
      ensures Beats(budgets[ranked[0]], budgets[other])
    {
      var j :| 0 <= j < |ranked| && ranked[j] == other;
      assert Before(budgets[ranked[0]], budgets[ranked[1]]);
      assert j > 1 ==> Before(budgets[ranked[1]], budgets[ranked[j]]);
    }
  }

  lemma TieLeavesNoBest(budgets: map<Id, Budget>, t: Instant, ranked: seq<Id>)
    requires Lists(budgets, t, ranked) && Ranked(budgets, ranked) && |ranked| > 1
    requires Ties(budgets[ranked[0]], budgets[ranked[1]])
    ensures forall id :: !Best(budgets, t, id)
  {
    assert ranked[0] != ranked[1];
    assert ranked[0] in ranked && ranked[1] in ranked;
    forall id
      ensures !Best(budgets, t, id)
    {
      if Candidate(budgets, t, id) {
        var j :| 0 <= j < |ranked| && ranked[j] == id;
        assert j > 1 ==> Before(budgets[ranked[1]], budgets[ranked[j]]);
        assert j > 0 ==> Before(budgets[ranked[0]], budgets[ranked[j]]);
        var rival := if j == 0 then ranked[1] else ranked[0];
        assert Candidate(budgets, t, rival) && rival != id && !Beats(budgets[id], budgets[rival]);
      }
    }
  }

  // ---- The no-overlap rule --------------------------------------------------------------

  /** No two budgets of one period share a calendar day. */
  ghost predicate PeriodsDisjoint(budgets: map<Id, Budget>) {
    forall a, b :: a in budgets && b in budgets && a != b && budgets[a].period == budgets[b].period ==>
      DayDisjoint(budgets[a], budgets[b])
  }

  /** Two budgets of one period cannot both span an instant, so no two candidates tie. */
  lemma CandidatesNeverTie(budgets: map<Id, Budget>, t: Instant, a: Id, b: Id)
    requires PeriodsDisjoint(budgets) && Candidate(budgets, t, a) && Candidate(budgets, t, b) && a != b
    ensures !Ties(budgets[a], budgets[b])
  {
    assert !DayDisjoint(budgets[a], budgets[b]);
  }

  lemma {:induction false} LeastExists(budgets: map<Id, Budget>, t: Instant, ids: set<Id>) returns (least: Id)
    requires PeriodsDisjoint(budgets) && ids != {}
    requires forall id :: id in ids ==> id in budgets && Candidate(budgets, t, id)
    ensures least in ids
    ensures forall other :: other in ids && other != least ==> Beats(budgets[least], budgets[other])
    decreases |ids|
  {
    least :| least in ids;
    var others := ids - {least};
    if others != {} {
      var next := LeastExists(budgets, t, others);
      CandidatesNeverTie(budgets, t, least, next);
      if Beats(budgets[next], budgets[least]) {
        least := next;
      }
    }
  }

  /** Under the no-overlap rule the choice is never ambiguous: it fails only when no budget spans the instant. */
  lemma NeverAmbiguous(budgets: map<Id, Budget>, t: Instant)
    requires PeriodsDisjoint(budgets)
    ensures AutoBudget(budgets, t).None? <==> forall id :: !Candidate(budgets, t, id)
  {
    var ids := set id | id in budgets && Candidate(budgets, t, id);
    if id :| Candidate(budgets, t, id) {
      assert id in ids;
      var least := LeastExists(budgets, t, ids);
      assert Best(budgets, t, least);
    }
  }

  /**
   * An expense whose day budgets cover is left unlinked exactly when none of
   * those budgets spans its instant.
   */
  lemma UnlinkedThoughCovered(budgets: map<Id, Budget>, t: Instant)
    requires PeriodsDisjoint(budgets)
    ensures AutoBudget(budgets, t).None? <==>
            forall id :: id in budgets && ContainsDate(budgets[id], t) ==>
              !(budgets[id].start <= t <= budgets[id].end)
  {
    NeverAmbiguous(budgets, t);
    forall id | id in budgets
      ensures Candidate(budgets, t, id) <==>
        ContainsDate(budgets[id], t) && budgets[id].start <= t <= budgets[id].end
    {
    }
  }

  /** A lone budget whose days cover the expense is picked exactly when its instants do. */
  lemma LoneBudgetPicked(id: Id, b: Budget, t: Instant)
    requires ContainsDate(b, t)
    ensures AutoBudget(map[id := b], t) == Some(id) <==> b.start <= t <= b.end
  {
    assert Candidate(map[id := b], t, id) ==> Best(map[id := b], t, id);
  }

  /** An expense at noon on the last day of a budget stored to end at midnight is left unlinked. */
  lemma LastDayMissed()
    ensures var b := Budget(CustomBudget, 10.0, 0, DAY_MS, [], [], 0); var t := DAY_MS + 43200000;
            ContainsDate(b, t) && AutoBudget(map["b" := b], t) == None
  {
    var b := Budget(CustomBudget, 10.0, 0, DAY_MS, [], [], 0);
    LoneBudgetPicked("b", b, DAY_MS + 43200000);
    NeverAmbiguous(map["b" := b], DAY_MS + 43200000);
  }
}
