/**
 * The current-month dashboard: the month's total, the spend per category
 * name, one row per budget of the month with what is left of it, and the
 * five most recent expenses. "Now" (the month and year) is a parameter.
 */
module Dashboard {
  import opened Calendar
  import opened Sorting
  import opened Records
  import opened Grouping

  const RecentLimit: nat := 5

  datatype BudgetRow = BudgetRow(category: string, budget: real, spent: real, remaining: real, percentage: real)

  datatype DashboardView = DashboardView(
    totalSpent: real,
    byCategory: seq<Entry>,
    budgetRows: seq<BudgetRow>,
    recent: seq<Expense>)

  /** The user's expenses dated from the first to the last day of month `m` of `y`. */
  function MonthExpenses(es: seq<Expense>, user: int, y: int, m: int): seq<Expense>
    requires 1 <= y <= 9999 && 1 <= m <= 12
  {
    Spending(es, user, MonthStart(y, m), MonthEnd(y, m))
  }

  /** For expenses with real dates the month window selects exactly that calendar month. */
  lemma MonthExpensesAreThatMonth(es: seq<Expense>, user: int, y: int, m: int)
    requires 1 <= y <= 9999 && 1 <= m <= 12
    requires forall e :: e in es ==> ValidDate(e.date)
    ensures forall e :: e in MonthExpenses(es, user, y, m) <==>
              e in es && e.userId == user && e.date.year == y && e.date.month == m
  {
    SpendingMembers(es, user, MonthStart(y, m), MonthEnd(y, m));
    forall e | e in es {
      MonthWindow(e.date, y, m);
    }
  }

  predicate BudgetsResolve(cats: seq<Category>, bs: seq<Budget>) {
    forall b :: b in bs ==> FindCategory(cats, b.categoryId).Some?
  }

  /**
   * What a dashboard row says about budget `b`: its category's name, the amount,
   * the month's spend under that name (0 when there is none), the amount left,
   * and the share spent in percent, 0 when the amount is not positive.
   */
  ghost predicate RowOf(b: Budget, row: BudgetRow, items: seq<Entry>, cats: seq<Category>) {
    FindCategory(cats, b.categoryId).Some?
    && row.category == FindCategory(cats, b.categoryId).value.name
    && row.budget == b.amount
    && row.spent == SumKey(items, row.category)
    && row.remaining == b.amount - row.spent
    && row.percentage == (if b.amount > 0.0 then row.spent / b.amount * 100.0 else 0.0)
  }

  /** `...filter_by(user_id=user).order_by(Expense.date.desc()).limit(5)` */
  function Recent(es: seq<Expense>, user: int): (r: seq<Expense>)
    ensures |r| <= RecentLimit
  {
    var sorted := SortBy(OwnedBy(es, user), NewerOrSame);
    if |sorted| <= RecentLimit then sorted else sorted[..RecentLimit]
  }

  /** The recent list holds at most five of the user's expenses, of any month, newest first. */
  lemma RecentShape(es: seq<Expense>, user: int)
    ensures |Recent(es, user)| == if |OwnedBy(es, user)| <= RecentLimit then |OwnedBy(es, user)| else RecentLimit
    ensures multiset(Recent(es, user)) <= multiset(OwnedBy(es, user))
    ensures forall e :: e in Recent(es, user) ==> e in es && e.userId == user
    ensures forall i, j :: 0 <= i < j < |Recent(es, user)| ==> DateLe(Recent(es, user)[j].date, Recent(es, user)[i].date)
  {
    var owned := OwnedBy(es, user);
    var sorted := SortBy(owned, NewerOrSame);
    var r := Recent(es, user);
    var k := if |sorted| <= RecentLimit then |sorted| else RecentLimit;
    assert r == sorted[..k];
    DateOrderIsTotalPreorder();
    SortBySorted(owned, NewerOrSame);
    TakeSorted(sorted, k, NewerOrSame);
    assert forall i, j :: 0 <= i < j < |r| ==> NewerOrSame(r[i], r[j]);
    forall e | e in r ensures e in es && e.userId == user {
      assert e in multiset(owned);
    }
  }

  /** An expense of the user's missing from the recent list is no newer than any shown, and five are shown. */
  lemma RecentIsNewest(es: seq<Expense>, user: int, e: Expense)
    requires e in es && e.userId == user && e !in Recent(es, user)
    ensures |Recent(es, user)| == RecentLimit
    ensures forall x :: x in Recent(es, user) ==> DateLe(e.date, x.date)
  {
    var owned := OwnedBy(es, user);
    var sorted := SortBy(owned, NewerOrSame);
    var r := Recent(es, user);
    DateOrderIsTotalPreorder();
    SortBySorted(owned, NewerOrSame);
    assert e in multiset(sorted);
    var j :| 0 <= j < |sorted| && sorted[j] == e;
    assert j >= RecentLimit;
    forall x | x in r ensures DateLe(e.date, x.date) {
      var i :| 0 <= i < |r| && r[i] == x;
      assert NewerOrSame(sorted[i], sorted[j]);
    }
  }

  /** The per-category amounts of the month add up to its total, under distinct names of the month's expenses. */
  lemma CategoriesAddUpToTotal(es: seq<Expense>, cats: seq<Category>)
    ensures DistinctKeys(Group(ByCategoryName(es, cats)))
    ensures SumTotals(Group(ByCategoryName(es, cats))) == Total(es)
    ensures forall k :: k in Keys(Group(ByCategoryName(es, cats))) <==>
              exists e :: e in es && CategoryName(cats, e.categoryId) == k
  {
    var items := ByCategoryName(es, cats);
    GroupDistinct(items);
    GroupSum(items);
    ByCategoryNameTotal(es, cats);
    GroupKeys(items);
    forall k ensures k in Keys(items) <==> exists e :: e in es && CategoryName(cats, e.categoryId) == k {
      ByCategoryNameKeys(es, cats, k);
    }
  }

  /** With a positive amount, the row is over budget exactly when more than 100 percent is spent. */
  lemma OverBudget(b: Budget, row: BudgetRow, items: seq<Entry>, cats: seq<Category>)
    requires RowOf(b, row, items, cats) && b.amount > 0.0
    ensures row.remaining < 0.0 <==> row.percentage > 100.0
    ensures row.remaining == 0.0 <==> row.percentage == 100.0
  {
    var q := row.spent / b.amount;
    assert row.spent == q * b.amount;
    assert row.percentage == q * 100.0;
    assert row.remaining == b.amount * (1.0 - q);
  }

  /** The `for budget in budgets` loop, reading spend from the month's dict `byCategory`. */
  method BudgetRows(bs: seq<Budget>, byCategory: seq<Entry>, ghost items: seq<Entry>, cats: seq<Category>)
    returns (rows: seq<BudgetRow>)
    requires byCategory == Group(items)
    requires BudgetsResolve(cats, bs)
    ensures |rows| == |bs|
    ensures forall i :: 0 <= i < |bs| ==> RowOf(bs[i], rows[i], items, cats)
  {
    rows := [];
    for i := 0 to |bs|
      invariant |rows| == i
      invariant forall j :: 0 <= j < i ==> RowOf(bs[j], rows[j], items, cats)
    {
      var b := bs[i];
      assert b in bs;
      var name := CategoryName(cats, b.categoryId);
      var spent := Get(byCategory, name);
      GroupGet(items, name);
      var remaining := b.amount - spent;
      var percentage := if b.amount > 0.0 then spent / b.amount * 100.0 else 0.0;
      var row := BudgetRow(name, b.amount, spent, remaining, percentage);
      assert RowOf(b, row, items, cats);
      ghost var done := rows;
      rows := rows + [row];
      assert forall j :: 0 <= j < i ==> rows[j] == done[j];
    }
  }

  /** The `dashboard` handler for `user` in month `month` of `year`. */
  method ShowDashboard(expenses: seq<Expense>, budgets: seq<Budget>, cats: seq<Category>,
                       user: int, year: int, month: int) returns (v: DashboardView)
    requires 1 <= year <= 9999 && 1 <= month <= 12
    requires Resolves(cats, MonthExpenses(expenses, user, year, month))
    requires BudgetsResolve(cats, BudgetsFor(budgets, user, month, year))
    ensures v.totalSpent == Total(MonthExpenses(expenses, user, year, month))
    ensures v.byCategory == Group(ByCategoryName(MonthExpenses(expenses, user, year, month), cats))
    ensures |v.budgetRows| == |BudgetsFor(budgets, user, month, year)|
    ensures forall i :: 0 <= i < |v.budgetRows| ==>
              RowOf(BudgetsFor(budgets, user, month, year)[i], v.budgetRows[i],
                    ByCategoryName(MonthExpenses(expenses, user, year, month), cats), cats)
    ensures v.recent == Recent(expenses, user)
  {
    var monthly := MonthExpenses(expenses, user, year, month);
    var totalSpent := Total(monthly);
    var byCategory := GroupByCategory(monthly, cats);
    var rows := BudgetRows(BudgetsFor(budgets, user, month, year), byCategory, ByCategoryName(monthly, cats), cats);
    v := DashboardView(totalSpent, byCategory, rows, Recent(expenses, user));
  }
}
