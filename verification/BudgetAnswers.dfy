/**
 * What each budget and expense call answers, told from its inputs and the stored
 * rows alone.
 */
module BudgetAnswers {
  import opened Common
  import opened Budgets
  import opened BudgetBook

  // ---- Days and ranks ----------------------------------------------------------------

  /** A budget covers an instant from the start of its first UTC day to the end of its last. */
  lemma CoversByDay(b: Budget, t: Instant)
    ensures ContainsDate(b, t) <==> b.start / 86400000 <= t / 86400000 <= b.end / 86400000
  {
    var day := 86400000;
    assert b.start == day * (b.start / day) + b.start % day && b.end == day * (b.end / day) + b.end % day;
    assert t == day * (t / day) + t % day;
  }

  /** Shorter first; of equal length daily, weekly, custom and monthly, in this order. */
  lemma BeatsMeans(a: Budget, b: Budget)
    requires a.start <= a.end && b.start <= b.end
    ensures var m, n := a.end / 86400000 - a.start / 86400000, b.end / 86400000 - b.start / 86400000;
            Beats(a, b) <==>
            || m < n
            || (m == n && a.period == DailyBudget && b.period != DailyBudget)
            || (m == n && a.period == WeeklyBudget && (b.period == CustomBudget || b.period == MonthlyBudget))
            || (m == n && a.period == CustomBudget && b.period == MonthlyBudget)
  {
    LastsDays(a);
    LastsDays(b);
  }

  lemma LastsDays(b: Budget)
    requires b.start <= b.end
    ensures DurationDays(b) == b.end / 86400000 - b.start / 86400000 + 1
  {
    var day := 86400000;
    DurationIsDays(b);
    assert b.start - b.start % day == day * (b.start / day) && b.end - b.end % day == day * (b.end / day);
  }

  // ---- The rules of a budget -----------------------------------------------------------

  /** Totals are sums. */
  lemma TotalsAdd(weeks: seq<Week>, w: Week, allocations: seq<Allocation>, a: Allocation)
    ensures WeeksTotal([]) == 0.0 && Allocated([]) == 0.0
    ensures WeeksTotal(weeks + [w]) == WeeksTotal(weeks) + w.amount
    ensures Allocated(allocations + [a]) == Allocated(allocations) + a.amount
  {
    assert (weeks + [w])[..|weeks|] == weeks;
    assert (allocations + [a])[..|allocations|] == allocations;
  }

  /** The amount a draft is stored with. */
  function StoredAmount(d: Draft): real { if d.period == WeeklyBudget then WeeksTotal(d.weeks) else d.amount }

  predicate Acceptable(d: Draft) {
    && d.start <= d.end && StoredAmount(d) > 0.0
    && (d.period == WeeklyBudget ==> d.weeks != [] && forall w :: w in d.weeks ==> w.amount > 0.0 && w.start <= w.end)
    && (d.allocations != [] ==>
        && (forall i, j :: 0 <= i < j < |d.allocations| ==> d.allocations[i].category != d.allocations[j].category)
        && (forall a :: a in d.allocations ==> a.amount > 0.0)
        && Allocated(d.allocations) <= StoredAmount(d) + 0.005)
  }

  /** What is stored of an accepted draft: week rows for weekly budgets alone, and their sum as the amount. */
  function StoredAs(d: Draft, createdAt: Instant): Budget {
    Budget(d.period, StoredAmount(d), d.start, d.end, if d.period == WeeklyBudget then d.weeks else [],
           d.allocations, createdAt)
  }

  lemma NormalizeAnswers(d: Draft, createdAt: Instant)
    ensures Normalize(d).Some? <==> Acceptable(d)
    ensures Acceptable(d) ==> MadeOf(d, Normalize(d).value, createdAt) == StoredAs(d, createdAt)
  {
  }

  /** Another budget of the period shares a calendar day with the draft. */
  ghost predicate Clashes(book: Book, d: Draft, exclude: Option<Id>) {
    exists id :: id in book.budgets && exclude != Some(id) && book.budgets[id].period == d.period
                 && book.budgets[id].start / 86400000 <= d.end / 86400000
                 && d.start / 86400000 <= book.budgets[id].end / 86400000
  }

  lemma ConflictsAreClashes(book: Book, d: Draft, exclude: Option<Id>)
    ensures Conflicts(book.budgets, d, exclude) <==> Clashes(book, d, exclude)
  {
    var day := 86400000;
    forall id | id in book.budgets
      ensures Overlaps(book.budgets[id], d.period, d.start, d.end) <==>
              && book.budgets[id].period == d.period
              && book.budgets[id].start / day <= d.end / day && d.start / day <= book.budgets[id].end / day
    {
      SharesDay(book.budgets[id].start, book.budgets[id].end, d.start, d.end);
    }
  }

  lemma SharesDay(a: Instant, b: Instant, start: Instant, end: Instant)
    ensures a <= DayEnd(end) <==> a / 86400000 <= end / 86400000
    ensures b >= DayStart(start) <==> start / 86400000 <= b / 86400000
  {
    var day := 86400000;
    assert a == day * (a / day) + a % day && end == day * (end / day) + end % day;
    assert b == day * (b / day) + b % day && start == day * (start / day) + start % day;
  }

  predicate KnownCategories(book: Book, d: Draft) { forall a :: a in d.allocations ==> a.category in book.categories }

  /** The error of a draft, in the order of the checks: its rules, its categories, a clash. */
  ghost function DraftError(book: Book, d: Draft, exclude: Option<Id>): Option<Error> {
    if !Acceptable(d) then Some(BadRequest)
    else if !KnownCategories(book, d) then Some(NotFound)
    else if Clashes(book, d, exclude) then Some(BadRequest)
    else None
  }

  lemma VetAnswers(book: Book, d: Draft, exclude: Option<Id>)
    ensures match DraftError(book, d, exclude)
            case Some(e) => Vet(book, d, exclude) == Err(e)
            case None => Vet(book, d, exclude).Ok?
    ensures Vet(book, d, exclude).Ok? ==> forall at :: MadeOf(d, Vet(book, d, exclude).value, at) == StoredAs(d, at)
  {
    NormalizeAnswers(d, 0);
    ConflictsAreClashes(book, d, exclude);
  }

  /** A create stores the draft, or answers its error and stores nothing. */
  lemma CreateAnswers(book: Book, newId: Id, d: Draft, now: Instant)
    ensures CreateBudget(book, newId, d, now)
      == match DraftError(book, d, None)
         case Some(e) => Err(e)
         case None => Ok(book.(budgets := book.budgets[newId := StoredAs(d, now)]))
  {
    VetAnswers(book, d, None);
  }

  /** The stored budget with the named fields of a patch in place of its own. */
  predicate Patched(b: Budget, p: Patch, d: Draft) {
    && d.period == (if p.period.Some? then p.period.value else b.period)
    && d.amount == (if p.amount.Some? then p.amount.value else b.amount)
    && d.start == (if p.start.Some? then p.start.value else b.start)
    && d.end == (if p.end.Some? then p.end.value else b.end)
    && d.weeks == (if p.weeks.Some? then p.weeks.value else b.weeks)
    && d.allocations == (if p.allocations.Some? then p.allocations.value else b.allocations)
  }

  /** Where an expense goes when a budget it was linked to no longer covers it. */
  ghost predicate Moved(budgets: map<Id, Budget>, before: Expense, after: Expense, id: Id) {
    if before.budget != Some(id) || (id in budgets && ContainsDate(budgets[id], before.date)) then after == before
    else
      && after == before.(budget := after.budget)
      && match after.budget
         case Some(home) => Best(budgets, before.date, home)
         case None => forall home :: !Best(budgets, before.date, home)
  }

  ghost predicate MovesExpenses(book: Book, next: Book, id: Id) {
    && next.categories == book.categories && next.expenses.Keys == book.expenses.Keys
    && forall x :: x in book.expenses ==> Moved(next.budgets, book.expenses[x], next.expenses[x], id)
  }

  /** An update stores the patched budget under its old creation time and moves its expenses, or answers its error. */
  lemma UpdateAnswers(book: Book, id: Id, p: Patch, d: Draft)
    requires id in book.budgets ==> Patched(book.budgets[id], p, d)
    ensures id !in book.budgets ==> UpdateBudget(book, id, p) == Err(NotFound)
    ensures id in book.budgets ==>
      match DraftError(book, d, Some(id))
      case Some(e) => UpdateBudget(book, id, p) == Err(e)
      case None =>
        var r := UpdateBudget(book, id, p);
        && r.Ok?
        && r.value.budgets == book.budgets[id := StoredAs(d, book.budgets[id].createdAt)]
        && MovesExpenses(book, r.value, id)
  {
    if id in book.budgets {
      assert Merge(book.budgets[id], p) == d;
      VetAnswers(book, d, Some(id));
    }
  }

  lemma DeleteAnswers(book: Book, id: Id)
    ensures id !in book.budgets ==> DeleteBudget(book, id) == Err(NotFound)
    ensures id in book.budgets ==>
      var r := DeleteBudget(book, id);
      r.Ok? && r.value.budgets == book.budgets - {id} && MovesExpenses(book, r.value, id)
  {
  }

  // ---- Expenses ------------------------------------------------------------------------------

  /** The budget an expense is linked to: the one asked for, which must exist and cover its day, else the best. */
  ghost predicate Linked(budgets: map<Id, Budget>, t: Instant, requested: Option<Id>, r: Result<Option<Id>>) {
    if requested.Some? && requested.value != "" then
      if requested.value !in budgets then r == Err(NotFound)
      else if !(budgets[requested.value].start / 86400000 <= t / 86400000 <= budgets[requested.value].end / 86400000)
      then r == Err(BadRequest)
      else r == Ok(requested)
    else
      && r.Ok?
      && match r.value
         case Some(id) => Best(budgets, t, id)
         case None => forall id :: !Best(budgets, t, id)
  }

  lemma LinkAnswers(budgets: map<Id, Budget>, t: Instant, requested: Option<Id>)
    ensures Linked(budgets, t, requested, ResolveBudget(budgets, t, requested))
  {
    if requested.Some? && requested.value in budgets {
      CoversByDay(budgets[requested.value], t);
    }
  }

  /** A category is checked if the call names one. */
  function StoredWith(
    book: Book, id: Id, date: Instant, category: Id, named: Option<Id>, link: Result<Option<Id>>): Result<Book>
  {
    match link
    case Err(e) => Err(e)
    case Ok(home) =>
      if named.Some? && named.value !in book.categories then Err(NotFound)
      else Ok(book.(expenses := book.expenses[id := Expense(date, home, category)]))
  }

  /** The expense is stored with its link, nothing else is; the link's error comes first, then the category's. */
  ghost predicate Stores(
    book: Book, id: Id, date: Instant, requested: Option<Id>, category: Id, named: Option<Id>, r: Result<Book>)
  {
    exists link ::
      Linked(book.budgets, date, requested, link) && r == StoredWith(book, id, date, category, named, link)
  }

  /** A new expense keeps its date and category and gets its link. */
  lemma CreateExpenseAnswers(book: Book, newId: Id, date: Instant, requested: Option<Id>, category: Id)
    ensures Stores(book, newId, date, requested, category, Some(category),
                   CreateExpense(book, newId, date, requested, category))
  {
    LinkAnswers(book.budgets, date, requested);
    assert CreateExpense(book, newId, date, requested, category)
      == StoredWith(book, newId, date, category, Some(category), ResolveBudget(book.budgets, date, requested));
  }

  /** An update keeps what is not named, links anew on the resulting date, and touches no other expense. */
  lemma UpdateExpenseAnswers(book: Book, id: Id, date: Option<Instant>, requested: Option<Id>, category: Option<Id>)
    ensures id !in book.expenses ==> UpdateExpense(book, id, date, requested, category) == Err(NotFound)
    ensures id in book.expenses ==>
      var was := book.expenses[id];
      Stores(book, id, date.GetOr(was.date), requested, category.GetOr(was.category), category,
             UpdateExpense(book, id, date, requested, category))
  {
    if id in book.expenses {
      var was := book.expenses[id];
      var day := date.GetOr(was.date);
      LinkAnswers(book.budgets, day, requested);
      assert UpdateExpense(book, id, date, requested, category)
        == StoredWith(book, id, day, category.GetOr(was.category), category,
                      ResolveBudget(book.budgets, day, requested));
    }
  }

  lemma DeleteExpenseAnswers(book: Book, id: Id)
    ensures DeleteExpense(book, id)
      == if id in book.expenses then Ok(book.(expenses := book.expenses - {id})) else Err(NotFound)
  {
  }
}
