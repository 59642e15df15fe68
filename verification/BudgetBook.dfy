/**
 * One user's budgets and the expenses linked to them: every write, and what all
 * runs of writes keep.
 */
module BudgetBook {
  import opened Common
  import opened Budgets

  const MONEY_EPSILON: real := 0.005

  datatype Expense = Expense(date: Instant, budget: Option<Id>, category: Id)

  datatype Book = Book(budgets: map<Id, Budget>, expenses: map<Id, Expense>, categories: set<Id>)

  datatype Error = NotFound | BadRequest

  datatype Result<T> = Ok(value: T) | Err(error: Error)

  // ---- The period rules ----------------------------------------------------------

  datatype Draft = Draft(
    period: Period,
    amount: real,
    start: Instant,
    end: Instant,
    weeks: seq<Week>,
    allocations: seq<Allocation>)

  datatype Normal = Normal(amount: real, weeks: seq<Week>, allocations: seq<Allocation>)

  function WeeksTotal(weeks: seq<Week>): real {
    if weeks == [] then 0.0 else WeeksTotal(weeks[..|weeks| - 1]) + weeks[|weeks| - 1].amount
  }

  function Allocated(allocations: seq<Allocation>): real {
    if allocations == [] then 0.0
    else Allocated(allocations[..|allocations| - 1]) + allocations[|allocations| - 1].amount
  }

  predicate WeeksFit(weeks: seq<Week>) {
    weeks != [] && forall w :: w in weeks ==> w.amount > 0.0 && w.start <= w.end
  }

  predicate AllocationsFit(allocations: seq<Allocation>, amount: real) {
    && (forall i, j :: 0 <= i < j < |allocations| ==> allocations[i].category != allocations[j].category)
    && (forall a :: a in allocations ==> a.amount > 0.0)
    && Allocated(allocations) - amount <= MONEY_EPSILON
  }

  /** The values a draft is stored with, if it passes the rules of its period. */
  function Normalize(d: Draft): Option<Normal> {
    var weeks := if d.period.WeeklyBudget? then d.weeks else [];
    var amount := if d.period.WeeklyBudget? then WeeksTotal(weeks) else d.amount;
    if d.end < d.start then None
    else if d.period.WeeklyBudget? && !WeeksFit(weeks) then None
    else if amount <= 0.0 then None
    else if d.allocations != [] && !AllocationsFit(d.allocations, amount) then None
    else Some(Normal(amount, weeks, d.allocations))
  }

  function MadeOf(d: Draft, n: Normal, createdAt: Instant): Budget {
    Budget(d.period, n.amount, d.start, d.end, n.weeks, n.allocations, createdAt)
  }

  /** What a stored budget promises its readers. */
  ghost predicate WellKept(b: Budget) {
    && b.start <= b.end
    && b.amount > 0.0
    && (b.period.WeeklyBudget? ==> WeeksFit(b.weeks) && b.amount == WeeksTotal(b.weeks))
    && (!b.period.WeeklyBudget? ==> b.weeks == [])
    && AllocationsFit(b.allocations, b.amount)
  }

  function DraftOf(b: Budget): Draft { Draft(b.period, b.amount, b.start, b.end, b.weeks, b.allocations) }

  /** The rules accept a draft exactly when what they store is well kept; stored budgets pass them unchanged. */
  lemma NormalizeKeeps(d: Draft, createdAt: Instant)
    ensures Normalize(d).Some? ==> WellKept(MadeOf(d, Normalize(d).value, createdAt))
    ensures Normalize(d).Some? ==>
              var b := MadeOf(d, Normalize(d).value, createdAt);
              Normalize(DraftOf(b)) == Normalize(d)
    ensures forall b :: WellKept(b) ==> Normalize(DraftOf(b)) == Some(Normal(b.amount, b.weeks, b.allocations))
  {
  }

  // ---- Writes ----------------------------------------------------------------------

  predicate Falsy(id: Option<Id>) { id.None? || id.value == "" }

  /** The budget of an expense: the requested one if it fits, else the most specific. */
  ghost function ResolveBudget(budgets: map<Id, Budget>, t: Instant, requested: Option<Id>): Result<Option<Id>> {
    if Falsy(requested) then Ok(AutoBudget(budgets, t))
    else if requested.value !in budgets then Err(NotFound)
    else if !ContainsDate(budgets[requested.value], t) then Err(BadRequest)
    else Ok(requested)
  }

  predicate Conflicts(budgets: map<Id, Budget>, d: Draft, exclude: Option<Id>) {
    exists id :: id in budgets && exclude != Some(id) && Overlaps(budgets[id], d.period, d.start, d.end)
  }

  predicate CategoriesKnown(categories: set<Id>, allocations: seq<Allocation>) {
    forall a :: a in allocations ==> a.category in categories
  }

  /** The checks a create and an update share, in their order. */
  function Vet(book: Book, d: Draft, exclude: Option<Id>): Result<Normal> {
    match Normalize(d)
    case None => Err(BadRequest)
    case Some(n) =>
      if !CategoriesKnown(book.categories, n.allocations) then Err(NotFound)
      else if Conflicts(book.budgets, d, exclude) then Err(BadRequest)
      else Ok(n)
  }

  function CreateBudget(book: Book, newId: Id, d: Draft, now: Instant): Result<Book> {
    match Vet(book, d, None)
    case Err(e) => Err(e)
    case Ok(n) => Ok(book.(budgets := book.budgets[newId := MadeOf(d, n, now)]))
  }

  datatype Patch = Patch(
    period: Option<Period>,
    amount: Option<real>,
    start: Option<Instant>,
    end: Option<Instant>,
    weeks: Option<seq<Week>>,
    allocations: Option<seq<Allocation>>)

  const NO_PATCH: Patch := Patch(None, None, None, None, None, None)

  function Merge(b: Budget, p: Patch): Draft {
    Draft(p.period.GetOr(b.period), p.amount.GetOr(b.amount), p.start.GetOr(b.start), p.end.GetOr(b.end),
          p.weeks.GetOr(b.weeks), p.allocations.GetOr(b.allocations))
  }

  /** An expense of budget `id` that the budgets no longer cover moves to its most specific budget, or to none. */
  ghost function Rehome(budgets: map<Id, Budget>, e: Expense, id: Id): Expense {
    if e.budget != Some(id) || (id in budgets && ContainsDate(budgets[id], e.date)) then e
    else e.(budget := AutoBudget(budgets, e.date))
  }

  ghost function Relink(book: Book, budgets: map<Id, Budget>, id: Id): Book {
    Book(budgets, map x | x in book.expenses :: Rehome(budgets, book.expenses[x], id), book.categories)
  }

  ghost function UpdateBudget(book: Book, id: Id, p: Patch): Result<Book> {
    if id !in book.budgets then Err(NotFound)
    else
      var d := Merge(book.budgets[id], p);
      match Vet(book, d, Some(id))
      case Err(e) => Err(e)
      case Ok(n) => Ok(Relink(book, book.budgets[id := MadeOf(d, n, book.budgets[id].createdAt)], id))
  }

  ghost function DeleteBudget(book: Book, id: Id): Result<Book> {
    if id !in book.budgets then Err(NotFound) else Ok(Relink(book, book.budgets - {id}, id))
  }

  ghost function CreateExpense(
    book: Book, newId: Id, date: Instant, requested: Option<Id>, category: Id): Result<Book>
  {
    match ResolveBudget(book.budgets, date, requested)
    case Err(e) => Err(e)
    case Ok(link) =>
      if category !in book.categories then Err(NotFound)
      else Ok(book.(expenses := book.expenses[newId := Expense(date, link, category)]))
  }

  ghost function UpdateExpense(
    book: Book, id: Id, date: Option<Instant>, requested: Option<Id>, category: Option<Id>): Result<Book>
  {
    if id !in book.expenses then Err(NotFound)
    else
      var was := book.expenses[id];
      var day := date.GetOr(was.date);
      match ResolveBudget(book.budgets, day, requested)
      case Err(e) => Err(e)
      case Ok(link) =>
        if category.Some? && category.value !in book.categories then Err(NotFound)
        else Ok(book.(expenses := book.expenses[id := Expense(day, link, category.GetOr(was.category))]))
  }

  function DeleteExpense(book: Book, id: Id): Result<Book> {
    if id !in book.expenses then Err(NotFound) else Ok(book.(expenses := book.expenses - {id}))
  }

  // ---- What every run keeps ----------------------------------------------------------

  /** Every link leads to a budget whose days cover the expense. */
  ghost predicate LinksCover(book: Book) {
    forall x :: x in book.expenses && book.expenses[x].budget.Some? ==>
      var id := book.expenses[x].budget.value;
      id in book.budgets && ContainsDate(book.budgets[id], book.expenses[x].date)
  }

  ghost predicate Sound(book: Book) {
    && PeriodsDisjoint(book.budgets)
    && (forall id :: id in book.budgets ==> WellKept(book.budgets[id]))
    && LinksCover(book)
  }

  datatype Op =
    | DoCreateBudget(newId: Id, draft: Draft, now: Instant)
    | DoUpdateBudget(id: Id, patch: Patch)
    | DoDeleteBudget(id: Id)
    | DoCreateExpense(newId: Id, date: Instant, requested: Option<Id>, category: Id)
    | DoUpdateExpense(id: Id, newDate: Option<Instant>, requested: Option<Id>, newCategory: Option<Id>)
    | DoDeleteExpense(id: Id)

  /** A rejected call writes nothing, and a generated id is new. */
  ghost function Step(book: Book, op: Op): Book {
    var outcome := match op
      case DoCreateBudget(newId, draft, now) =>
        if newId in book.budgets then Err(BadRequest) else CreateBudget(book, newId, draft, now)
      case DoUpdateBudget(id, patch) => UpdateBudget(book, id, patch)
      case DoDeleteBudget(id) => DeleteBudget(book, id)
      case DoCreateExpense(newId, date, requested, category) =>
        if newId in book.expenses then Err(BadRequest) else CreateExpense(book, newId, date, requested, category)
      case DoUpdateExpense(id, newDate, requested, newCategory) =>
        UpdateExpense(book, id, newDate, requested, newCategory)
      case DoDeleteExpense(id) => DeleteExpense(book, id);
    match outcome
    case Ok(next) => next
    case Err(_) => book
  }

  ghost function RunOps(book: Book, ops: seq<Op>): Book
    decreases |ops|
  {
    if ops == [] then book else RunOps(Step(book, ops[0]), ops[1..])
  }

  /** A vetted budget may take its place without a clash. */
  lemma PlacingKeepsDisjoint(book: Book, id: Id, d: Draft, createdAt: Instant)
    requires PeriodsDisjoint(book.budgets) && forall x :: x in book.budgets ==> WellKept(book.budgets[x])
    requires Vet(book, d, Some(id)).Ok?
    ensures PeriodsDisjoint(book.budgets[id := MadeOf(d, Vet(book, d, Some(id)).value, createdAt)])
  {
    var b := MadeOf(d, Vet(book, d, Some(id)).value, createdAt);
    forall x | x in book.budgets && x != id && book.budgets[x].period == b.period
      ensures DayDisjoint(book.budgets[x], b)
    {
      OverlapIsByDay(book.budgets[x], b);
    }
  }

  /** The automatic choice covers the day. */
  lemma AutoCovers(budgets: map<Id, Budget>, t: Instant)
    ensures AutoBudget(budgets, t).Some? ==>
              var id := AutoBudget(budgets, t).value;
              id in budgets && ContainsDate(budgets[id], t)
  {
  }

  lemma RelinkCovers(book: Book, budgets: map<Id, Budget>, id: Id)
    requires LinksCover(book)
    requires forall x :: x in book.budgets && x != id ==> x in budgets && budgets[x] == book.budgets[x]
    ensures LinksCover(Relink(book, budgets, id))
  {
    forall x | x in book.expenses
      ensures var e := Rehome(budgets, book.expenses[x], id);
              e.budget.Some? ==> e.budget.value in budgets && ContainsDate(budgets[e.budget.value], e.date)
    {
      AutoCovers(budgets, book.expenses[x].date);
    }
  }

  lemma UpdateKeepsSound(book: Book, id: Id, p: Patch)
    requires Sound(book) && UpdateBudget(book, id, p).Ok?
    ensures Sound(UpdateBudget(book, id, p).value)
  {
    var d := Merge(book.budgets[id], p);
    var b := MadeOf(d, Vet(book, d, Some(id)).value, book.budgets[id].createdAt);
    PlacingKeepsDisjoint(book, id, d, book.budgets[id].createdAt);
    NormalizeKeeps(d, book.budgets[id].createdAt);
    RelinkCovers(book, book.budgets[id := b], id);
  }

  /** A resolved link, requested or automatic, covers its expense. */
  lemma ResolvedCovers(budgets: map<Id, Budget>, t: Instant, requested: Option<Id>)
    ensures var link := ResolveBudget(budgets, t, requested);
            link.Ok? && link.value.Some? ==> link.value.value in budgets && ContainsDate(budgets[link.value.value], t)
  {
    AutoCovers(budgets, t);
  }

  lemma ExpenseWriteKeepsSound(book: Book, op: Op)
    requires Sound(book) && (op.DoCreateExpense? || op.DoUpdateExpense?)
    ensures Sound(Step(book, op))
  {
    if op.DoCreateExpense? {
      ResolvedCovers(book.budgets, op.date, op.requested);
    } else if op.id in book.expenses {
      ResolvedCovers(book.budgets, op.newDate.GetOr(book.expenses[op.id].date), op.requested);
    }
  }

  lemma StepKeepsSound(book: Book, op: Op)
    requires Sound(book)
    ensures Sound(Step(book, op))
  {
    match op
    case DoCreateBudget(newId, draft, now) =>
      if newId !in book.budgets && CreateBudget(book, newId, draft, now).Ok? {
        PlacingKeepsDisjoint(book, newId, draft, now);
        NormalizeKeeps(draft, now);
      }
    case DoUpdateBudget(id, patch) =>
      if UpdateBudget(book, id, patch).Ok? {
        UpdateKeepsSound(book, id, patch);
      }
    case DoDeleteBudget(id) =>
      RelinkCovers(book, book.budgets - {id}, id);
    case DoCreateExpense(_, _, _, _) => ExpenseWriteKeepsSound(book, op);
    case DoUpdateExpense(_, _, _, _) => ExpenseWriteKeepsSound(book, op);
    case DoDeleteExpense(_) =>
  }

  /**
   * Over every run of writes: budgets of one period stay day-disjoint, a weekly
   * amount is the sum of its weeks, and every link covers its expense.
   */
  lemma {:induction false} RunKeepsSound(book: Book, ops: seq<Op>)
    requires Sound(book)
    ensures Sound(RunOps(book, ops))
    decreases |ops|
  {
    if ops != [] {
      StepKeepsSound(book, ops[0]);
      RunKeepsSound(Step(book, ops[0]), ops[1..]);
    }
  }

  /** In every reachable book an automatic link is found exactly when some budget spans the instant. */
  lemma ReachableNeverAmbiguous(categories: set<Id>, ops: seq<Op>, t: Instant)
    ensures var book := RunOps(Book(map[], map[], categories), ops);
            AutoBudget(book.budgets, t).None? <==> forall id :: !Candidate(book.budgets, t, id)
  {
    var book := Book(map[], map[], categories);
    RunKeepsSound(book, ops);
    NeverAmbiguous(RunOps(book, ops).budgets, t);
  }

  /** A PATCH that names no field writes nothing new: the merge re-passes every rule. */
  lemma EmptyPatchIsIdle(book: Book, id: Id)
    requires Sound(book) && id in book.budgets
    requires CategoriesKnown(book.categories, book.budgets[id].allocations)
    ensures UpdateBudget(book, id, NO_PATCH) == Ok(book)
  {
    var b := book.budgets[id];
    var d := Merge(b, NO_PATCH);
    assert d == DraftOf(b);
    NormalizeKeeps(d, b.createdAt);
    forall x | x in book.budgets && x != id && book.budgets[x].period == b.period
      ensures !Overlaps(book.budgets[x], b.period, b.start, b.end)
    {
      OverlapIsByDay(book.budgets[x], b);
    }
    assert Vet(book, d, Some(id)) == Ok(Normal(b.amount, b.weeks, b.allocations));
    assert book.budgets[id := b] == book.budgets;
    assert Relink(book, book.budgets, id).expenses == book.expenses;
  }

  /**
   * Deleting a budget keeps every expense; those of other budgets stay as they
   * are, and its own move to the strictly most specific budget left, or to none
   * exactly when no budget left spans them.
   */
  lemma DeleteMovesItsExpenses(book: Book, id: Id, x: Id)
    requires Sound(book) && id in book.budgets && x in book.expenses
    ensures var was := book.expenses[x];
            var after := DeleteBudget(book, id).value;
            && after.expenses.Keys == book.expenses.Keys
            && after.expenses[x].date == was.date && after.expenses[x].category == was.category
            && (was.budget != Some(id) ==> after.expenses[x] == was)
            && (was.budget == Some(id) ==>
              match after.expenses[x].budget
              case Some(home) => home != id && Best(after.budgets, was.date, home)
              case None => forall other :: other in book.budgets && other != id ==>
                !(book.budgets[other].start <= was.date <= book.budgets[other].end))
  {
    var left, date := book.budgets - {id}, book.expenses[x].date;
    NeverAmbiguous(left, date);
    forall other | other in book.budgets && other != id
      ensures Candidate(left, date, other) == (book.budgets[other].start <= date <= book.budgets[other].end)
    {
    }
    assert DeleteBudget(book, id).value.expenses[x] == Rehome(left, book.expenses[x], id);
  }

  // ---- The service -----------------------------------------------------------------------

  class BudgetService {
    var budgets: map<Id, Budget>
    var expenses: map<Id, Expense>
    var categories: set<Id>

    constructor (known: set<Id>)
      ensures Snapshot() == Book(map[], map[], known)
    {
      budgets, expenses, categories := map[], map[], known;
    }

    function Snapshot(): Book
      reads this
    {
      Book(budgets, expenses, categories)
    }

    /** The rows a query returns, in an order the store is free to choose. */
    method FindCandidates(t: Instant) returns (order: seq<Id>)
      ensures Lists(budgets, t, order)
    {
      order := [];
      var todo := budgets.Keys;
      while todo != {}
        invariant todo <= budgets.Keys
        invariant Once(order)
        invariant forall id :: id in order <==> Candidate(budgets, t, id) && id !in todo
        decreases |todo|
      {
        var id :| id in todo;
        todo := todo - {id};
        if Candidate(budgets, t, id) {
          order := order + [id];
        }
      }
    }

    method ResolveBudgetForExpense(t: Instant, requested: Option<Id>) returns (r: Result<Option<Id>>)
      ensures r == ResolveBudget(budgets, t, requested)
    {
      if !Falsy(requested) {
        if requested.value !in budgets {
          return Err(NotFound);
        }
        if !ContainsDate(budgets[requested.value], t) {
          return Err(BadRequest);
        }
        return Ok(requested);
      }
      var order := FindCandidates(t);
      ResolveIsAuto(budgets, t, order);
      r := Ok(Resolve(budgets, t, order));
    }

    ghost predicate Did(outcome: Result<Book>, before: Book, error: Option<Error>)
      reads this
    {
      match outcome
      case Ok(book) => error == None && Snapshot() == book
      case Err(e) => error == Some(e) && Snapshot() == before
    }

    method InsertBudget(newId: Id, d: Draft, now: Instant) returns (error: Option<Error>)
      modifies `budgets
      ensures Did(CreateBudget(old(Snapshot()), newId, d, now), old(Snapshot()), error)
    {
      var vetted := Vet(Snapshot(), d, None);
      if vetted.Err? {
        return Some(vetted.error);
      }
      budgets := budgets[newId := MadeOf(d, vetted.value, now)];
      error := None;
    }

    /** Re-links, one row at a time, the expenses that budget `id` no longer covers. */
    method RelinkExpenses(id: Id)
      modifies `expenses
      ensures Snapshot() == Relink(old(Snapshot()), budgets, id)
    {
      var todo := set x | x in expenses && expenses[x].budget == Some(id);
      while todo != {}
        invariant expenses.Keys == old(expenses).Keys && todo <= expenses.Keys
        invariant forall x :: x in todo ==> old(expenses)[x].budget == Some(id)
        invariant forall x :: x in expenses ==>
          expenses[x] == if x in todo then old(expenses)[x] else Rehome(budgets, old(expenses)[x], id)
        decreases |todo|
      {
        var x :| x in todo;
        todo := todo - {x};
        var date := expenses[x].date;
        if !(id in budgets && ContainsDate(budgets[id], date)) {
          var next := ResolveBudgetForExpense(date, None);
          expenses := expenses[x := expenses[x].(budget := next.value)];
        }
      }
    }

    method ChangeBudget(id: Id, p: Patch) returns (error: Option<Error>)
      modifies `budgets, `expenses
      ensures Did(UpdateBudget(old(Snapshot()), id, p), old(Snapshot()), error)
    {
      if id !in budgets {
        return Some(NotFound);
      }
      var d := Merge(budgets[id], p);
      var vetted := Vet(Snapshot(), d, Some(id));
      if vetted.Err? {
        return Some(vetted.error);
      }
      budgets := budgets[id := MadeOf(d, vetted.value, budgets[id].createdAt)];
      RelinkExpenses(id);
      error := None;
    }

    method RemoveBudget(id: Id) returns (error: Option<Error>)
      modifies `budgets, `expenses
      ensures Did(DeleteBudget(old(Snapshot()), id), old(Snapshot()), error)
    {
      if id !in budgets {
        return Some(NotFound);
      }
      budgets := budgets - {id};
      RelinkExpenses(id);
      error := None;
    }

    method InsertExpense(newId: Id, date: Instant, requested: Option<Id>, category: Id)
      returns (error: Option<Error>)
      modifies `expenses
      ensures Did(CreateExpense(old(Snapshot()), newId, date, requested, category), old(Snapshot()), error)
    {
      var link := ResolveBudgetForExpense(date, requested);
      if link.Err? {
        return Some(link.error);
      }
      if category !in categories {
        return Some(NotFound);
      }
      expenses := expenses[newId := Expense(date, link.value, category)];
      error := None;
    }

    method ChangeExpense(id: Id, date: Option<Instant>, requested: Option<Id>, category: Option<Id>)
      returns (error: Option<Error>)
      modifies `expenses
      ensures Did(UpdateExpense(old(Snapshot()), id, date, requested, category), old(Snapshot()), error)
    {
      if id !in expenses {
        return Some(NotFound);
      }
      var was := expenses[id];
      var day := date.GetOr(was.date);
      var link := ResolveBudgetForExpense(day, requested);
      if link.Err? {
        return Some(link.error);
      }
      if category.Some? && category.value !in categories {
        return Some(NotFound);
      }
      expenses := expenses[id := Expense(day, link.value, category.GetOr(was.category))];
      error := None;
    }

    method RemoveExpense(id: Id) returns (error: Option<Error>)
      modifies `expenses
      ensures Did(DeleteExpense(old(Snapshot()), id), old(Snapshot()), error)
    {
      if id !in expenses {
        return Some(NotFound);
      }
      expenses := expenses - {id};
      error := None;
    }
  }
}
