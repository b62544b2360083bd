/**
 * The writes the handlers make to the database session: deleting an expense
 * after the ownership check, the budget upsert keyed by
 * (user, category, month, year), and the start-up seeding of categories.
 * Ids come from per-table counters, standing in for the autoincrement keys.
 */
module Storage {
  import opened Wrappers
  import opened Records
  import opened Seeding

  datatype DeleteOutcome = NotFound | Forbidden | Deleted

  /** `Expense.query.get(id)`: position of the expense with that primary key. */
  function FindExpense(es: seq<Expense>, id: int): (r: Option<nat>)
    ensures r.Some? ==> r.value < |es| && es[r.value].id == id
    ensures r.None? ==> forall e :: e in es ==> e.id != id
  {
    if es == [] then None
    else if es[0].id == id then Some(0)
    else match FindExpense(es[1..], id)
      case Some(k) => Some(k + 1)
      case None => None
  }

  ghost predicate ExpenseIdsDistinct(es: seq<Expense>) {
    forall i, j :: 0 <= i < j < |es| ==> es[i].id != es[j].id
  }

  /** The expenses other than the one with id `id`, in order. */
  function Without(es: seq<Expense>, id: int): (r: seq<Expense>)
    ensures |r| <= |es|
  {
    if es == [] then []
    else
      var rest := Without(es[..|es| - 1], id);
      if es[|es| - 1].id != id then rest + [es[|es| - 1]] else rest
  }

  /** An expense is kept exactly when its id is not the one deleted. */
  lemma {:induction false} WithoutMembers(es: seq<Expense>, id: int)
    ensures forall e :: e in Without(es, id) <==> e in es && e.id != id
  {
    if es != [] {
      var n := |es| - 1;
      WithoutMembers(es[..n], id);
      assert es == es[..n] + [es[n]];
    }
  }

  lemma WithoutSnoc(es: seq<Expense>, e: Expense, id: int)
    ensures Without(es + [e], id) == Without(es, id) + (if e.id != id then [e] else [])
  {
    assert (es + [e])[..|es|] == es;
  }

  /** With unique ids, dropping the id `id` found at `k` removes exactly that one row. */
  lemma {:induction false} WithoutRemovesOne(es: seq<Expense>, id: int, k: nat)
    requires ExpenseIdsDistinct(es) && k < |es| && es[k].id == id
    ensures Without(es, id) == es[..k] + es[k + 1..]
  {
    var n := |es| - 1;
    var init, last := es[..n], es[n];
    if k == n {
      assert forall e :: e in init ==> e.id != id by {
        forall e | e in init ensures e.id != id {
          var j :| 0 <= j < n && init[j] == e;
          assert es[j] == e;
        }
      }
      WithoutNoop(init, id);
    } else {
      assert last.id != id;
      assert ExpenseIdsDistinct(init);
      WithoutRemovesOne(init, id, k);
      assert init[..k] == es[..k];
      assert es[k + 1..] == init[k + 1..] + [last];
    }
  }

  lemma {:induction false} WithoutNoop(es: seq<Expense>, id: int)
    requires forall e :: e in es ==> e.id != id
    ensures Without(es, id) == es
  {
    if es != [] {
      var n := |es| - 1;
      assert es == es[..n] + [es[n]];
      assert es[n] in es;
      WithoutNoop(es[..n], id);
      WithoutSnoc(es[..n], es[n], id);
    }
  }

  /** Budget `b` is the row of the tuple (user, category, month, year). */
  predicate SameKey(b: Budget, user: int, cid: int, month: int, year: int) {
    b.userId == user && b.categoryId == cid && b.month == month && b.year == year
  }

  /** At most one budget per (user, category, month, year). */
  ghost predicate BudgetKeysUnique(bs: seq<Budget>) {
    forall i, j :: 0 <= i < j < |bs| ==> !SameKey(bs[j], bs[i].userId, bs[i].categoryId, bs[i].month, bs[i].year)
  }

  /** `Budget.query.filter_by(user_id, category_id, month, year).first()`: its position. */
  function FindBudget(bs: seq<Budget>, user: int, cid: int, month: int, year: int): (r: Option<nat>)
    ensures r.Some? ==> r.value < |bs| && SameKey(bs[r.value], user, cid, month, year)
                        && forall j :: 0 <= j < r.value ==> !SameKey(bs[j], user, cid, month, year)
    ensures r.None? ==> forall j :: 0 <= j < |bs| ==> !SameKey(bs[j], user, cid, month, year)
  {
    if bs == [] then None
    else if SameKey(bs[0], user, cid, month, year) then Some(0)
    else match FindBudget(bs[1..], user, cid, month, year)
      case Some(k) => Some(k + 1)
      case None => None
  }

  /** A row appended for a tuple absent so far is found at the end. */
  lemma FindBudgetAppended(bs: seq<Budget>, b: Budget)
    requires FindBudget(bs, b.userId, b.categoryId, b.month, b.year).None?
    ensures FindBudget(bs + [b], b.userId, b.categoryId, b.month, b.year) == Some(|bs|)
  {
    var r := bs + [b];
    assert SameKey(r[|bs|], b.userId, b.categoryId, b.month, b.year);
    assert forall j :: 0 <= j < |bs| ==> r[j] == bs[j];
  }

  /** The budget table after a submission: the existing row's amount replaced, or one new row. */
  function Upsert(bs: seq<Budget>, user: int, cid: int, month: int, year: int, amount: real, freshId: int): seq<Budget> {
    match FindBudget(bs, user, cid, month, year)
    case Some(i) => bs[i := bs[i].(amount := amount)]
    case None => bs + [Budget(freshId, user, cid, month, year, amount)]
  }

  /**
   * An upsert changes only the amount of the tuple's existing row, or else
   * appends exactly one row for it; every other row is left as it was.
   */
  lemma UpsertChangesOnlyTheTuple(bs: seq<Budget>, user: int, cid: int, month: int, year: int, amount: real, freshId: int)
    ensures var r := Upsert(bs, user, cid, month, year, amount, freshId);
            |r| == |bs| + (if FindBudget(bs, user, cid, month, year).Some? then 0 else 1)
            && (forall j :: 0 <= j < |bs| && !SameKey(bs[j], user, cid, month, year) ==> r[j] == bs[j])
            && (forall j :: 0 <= j < |bs| && SameKey(bs[j], user, cid, month, year) && BudgetKeysUnique(bs) ==>
                  r[j] == bs[j].(amount := amount))
            && (FindBudget(bs, user, cid, month, year).None? ==> r[|bs|] == Budget(freshId, user, cid, month, year, amount))
  {
    var r := Upsert(bs, user, cid, month, year, amount, freshId);
    match FindBudget(bs, user, cid, month, year)
    case Some(i) =>
      forall j | 0 <= j < |bs| && SameKey(bs[j], user, cid, month, year) && BudgetKeysUnique(bs)
        ensures r[j] == bs[j].(amount := amount)
      {
      }
    case None =>
  }

  /**
   * Afterwards the tuple has exactly one row and it carries the submitted amount,
   * and the table still has at most one row per tuple.
   */
  lemma UpsertKeepsOneRowPerTuple(bs: seq<Budget>, user: int, cid: int, month: int, year: int, amount: real, freshId: int)
    requires BudgetKeysUnique(bs)
    ensures var r := Upsert(bs, user, cid, month, year, amount, freshId);
            BudgetKeysUnique(r)
            && FindBudget(r, user, cid, month, year).Some?
            && r[FindBudget(r, user, cid, month, year).value].amount == amount
            && forall j :: 0 <= j < |r| && SameKey(r[j], user, cid, month, year) ==> j == FindBudget(r, user, cid, month, year).value
  {
    var r := Upsert(bs, user, cid, month, year, amount, freshId);
    match FindBudget(bs, user, cid, month, year)
    case Some(i) =>
      assert forall j :: 0 <= j < |r| ==> SameKey(r[j], bs[j].userId, bs[j].categoryId, bs[j].month, bs[j].year);
      assert forall j :: 0 <= j < |r| && j != i ==> r[j] == bs[j];
      assert SameKey(r[i], user, cid, month, year);
      forall j | 0 <= j < |r| && SameKey(r[j], user, cid, month, year) ensures j == i {
        assert SameKey(bs[j], user, cid, month, year);
      }
    case None =>
      FindBudgetAppended(bs, Budget(freshId, user, cid, month, year, amount));
  }

  /** Setting a tuple's budget twice leaves the table as setting it once to the second amount. */
  lemma UpsertTwice(bs: seq<Budget>, user: int, cid: int, month: int, year: int, a1: real, a2: real, id1: int, id2: int)
    ensures Upsert(Upsert(bs, user, cid, month, year, a1, id1), user, cid, month, year, a2, id2)
            == Upsert(bs, user, cid, month, year, a2, id1)
  {
    var r := Upsert(bs, user, cid, month, year, a1, id1);
    match FindBudget(bs, user, cid, month, year)
    case Some(i) =>
      assert forall j :: 0 <= j < |r| ==> SameKey(r[j], bs[j].userId, bs[j].categoryId, bs[j].month, bs[j].year);
      assert FindBudget(r, user, cid, month, year) == Some(i);
    case None =>
      FindBudgetAppended(bs, Budget(id1, user, cid, month, year, a1));
  }

  /** The rows seeding adds keep the category table's keys. */
  lemma SeedValid(before: seq<Category>, existing: set<string>, firstId: int)
    requires IdsDistinct(before) && NamesDistinct(before) && existing == NamesOf(before)
    requires forall c :: c in before ==> c.id < firstId
    ensures var after := before + NewCategories(MissingDefaults(existing), firstId);
            IdsDistinct(after) && NamesDistinct(after)
            && forall c :: c in after ==> c.id < firstId + |MissingDefaults(existing)|
  {
    SeedAddsExactlyTheMissing(existing);
    AppendKeepsUnique(before, MissingDefaults(existing), firstId);
  }

  ghost predicate BudgetIdsBelow(bs: seq<Budget>, next: int) {
    forall b :: b in bs ==> b.id < next
  }

  ghost predicate BudgetIdsDistinct(bs: seq<Budget>) {
    forall i, j :: 0 <= i < j < |bs| ==> bs[i].id != bs[j].id
  }

  /** The database as the handlers see it. */
  class Store {
    var categories: seq<Category>
    var expenses: seq<Expense>
    var budgets: seq<Budget>
    var nextCategoryId: int
    var nextBudgetId: int

    /** The store's keys and unique constraints. */
    ghost predicate Valid()
      reads this
    {
      IdsDistinct(categories) && NamesDistinct(categories)
      && (forall c :: c in categories ==> c.id < nextCategoryId)
      && ExpenseIdsDistinct(expenses)
      && BudgetKeysUnique(budgets) && BudgetIdsDistinct(budgets) && BudgetIdsBelow(budgets, nextBudgetId)
    }

    /** An empty database, as `db.create_all()` leaves it. */
    constructor ()
      ensures Valid()
      ensures categories == [] && expenses == [] && budgets == []
      ensures nextCategoryId == 1 && nextBudgetId == 1
    {
      categories, expenses, budgets := [], [], [];
      nextCategoryId, nextBudgetId := 1, 1;
    }

    /**
     * `delete_expense`: a missing id is a 404 and an expense of another user is
     * refused, both leaving the store as it was; otherwise exactly that expense
     * is removed and the others stay, in order.
     */
    method DeleteExpense(id: int, user: int) returns (outcome: DeleteOutcome)
      requires Valid()
      modifies this
      ensures Valid()
      ensures outcome == NotFound <==> FindExpense(old(expenses), id).None?
      ensures outcome == Forbidden <==>
                FindExpense(old(expenses), id).Some? && old(expenses)[FindExpense(old(expenses), id).value].userId != user
      ensures outcome == Deleted ==>
                var k := FindExpense(old(expenses), id).value;
                old(expenses)[k].userId == user
                && expenses == old(expenses)[..k] + old(expenses)[k + 1..]
                && expenses == Without(old(expenses), id)
      ensures outcome != Deleted ==> expenses == old(expenses)
      ensures categories == old(categories) && budgets == old(budgets)
      ensures nextCategoryId == old(nextCategoryId) && nextBudgetId == old(nextBudgetId)
    {
      var found := FindExpense(expenses, id);
      if found.None? {
        return NotFound;
      }
      var k := found.value;
      if expenses[k].userId != user {
        return Forbidden;
      }
      WithoutRemovesOne(expenses, id, k);
      expenses := expenses[..k] + expenses[k + 1..];
      outcome := Deleted;
    }

    /**
     * The POST branch of `budgets`: replace the amount of the row for
     * (user, category, month, year) if there is one, else add a row.
     */
    method SetBudget(user: int, cid: int, month: int, year: int, amount: real) returns (updated: bool)
      requires Valid()
      modifies this
      ensures Valid()
      ensures updated == FindBudget(old(budgets), user, cid, month, year).Some?
      ensures budgets == Upsert(old(budgets), user, cid, month, year, amount, old(nextBudgetId))
      ensures nextBudgetId == if updated then old(nextBudgetId) else old(nextBudgetId) + 1
      ensures categories == old(categories) && expenses == old(expenses) && nextCategoryId == old(nextCategoryId)
    {
      UpsertKeepsOneRowPerTuple(budgets, user, cid, month, year, amount, nextBudgetId);
      var existing := FindBudget(budgets, user, cid, month, year);
      if existing.Some? {
        var i := existing.value;
        budgets := budgets[i := budgets[i].(amount := amount)];
        updated := true;
      } else {
        budgets := budgets + [Budget(nextBudgetId, user, cid, month, year, amount)];
        nextBudgetId := nextBudgetId + 1;
        updated := false;
      }
    }

    /**
     * The start-up loop over `names`: add a row for each name absent before
     * the loop began, numbered by the counter. Existing rows are kept.
     */
    method AddMissingCategories(names: seq<string>)
      modifies this
      ensures categories == old(categories) + NewCategories(MissingFrom(names, NamesOf(old(categories))), old(nextCategoryId))
      ensures nextCategoryId == old(nextCategoryId) + |MissingFrom(names, NamesOf(old(categories)))|
      ensures expenses == old(expenses) && budgets == old(budgets) && nextBudgetId == old(nextBudgetId)
    {
      var existing := NamesOf(categories);
      var base, first := categories, nextCategoryId;
      var added: seq<Category> := [];
      var next := first;
      for i := 0 to |names|
        invariant added == NewCategories(MissingFrom(names[..i], existing), first)
        invariant next == first + |MissingFrom(names[..i], existing)|
        modifies {}
      {
        var name := names[i];
        MissingFromStep(names, i, existing, first);
        if name !in existing {
          added := added + [Category(next, name)];
          next := next + 1;
        }
      }
      assert names[..|names|] == names;
      categories, nextCategoryId := base + added, next;
    }

    /**
     * Seeding the twelve defaults keeps the table's keys, adds exactly the
     * missing ones, and changes nothing when all are already present.
     */
    method SeedDefaultCategories()
      requires Valid()
      modifies this
      ensures Valid()
      ensures categories == old(categories) + NewCategories(MissingDefaults(NamesOf(old(categories))), old(nextCategoryId))
      ensures nextCategoryId == old(nextCategoryId) + |MissingDefaults(NamesOf(old(categories)))|
      ensures (forall n :: n in DefaultCategories ==> n in NamesOf(old(categories))) ==> categories == old(categories)
      ensures expenses == old(expenses) && budgets == old(budgets) && nextBudgetId == old(nextBudgetId)
    {
      SeedValid(categories, NamesOf(categories), nextCategoryId);
      if forall n :: n in DefaultCategories ==> n in NamesOf(categories) {
        MissingFromAllPresent(DefaultCategories, NamesOf(categories));
      }
      AddMissingCategories(DefaultCategories);
    }
  }
}
