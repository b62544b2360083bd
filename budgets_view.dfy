/**
 * The GET side of the `budgets` handler: one row per category, in name order,
 * with the user's budget for the selected month (or 0 and "no budget") and
 * the month's spend in that category.
 */
module BudgetsView {
  import opened Wrappers
  import opened Calendar
  import opened Sorting
  import opened Records
  import opened Dashboard

  datatype ViewRow = ViewRow(category: Category, budget: real, budgetId: Option<int>, spent: real, hasBudget: bool)

  /** `next((b for b in budgets_list if b.category_id == cid), None)` */
  function FirstBudgetFor(bs: seq<Budget>, cid: int): (r: Option<Budget>)
    ensures r.Some? ==> r.value in bs && r.value.categoryId == cid
    ensures r.Some? ==> exists k :: 0 <= k < |bs| && bs[k] == r.value
                                    && forall j :: 0 <= j < k ==> bs[j].categoryId != cid
    ensures r.None? <==> forall b :: b in bs ==> b.categoryId != cid
  {
    if bs == [] then None
    else if bs[0].categoryId == cid then Some(bs[0])
    else
      var rest := FirstBudgetFor(bs[1..], cid);
      assert rest.Some? ==> exists k :: 1 <= k < |bs| && bs[k] == rest.value
                                        && forall j :: 0 <= j < k ==> bs[j].categoryId != cid by {
        if rest.Some? {
          var k :| 0 <= k < |bs[1..]| && bs[1..][k] == rest.value
                   && forall j :: 0 <= j < k ==> bs[1..][j].categoryId != cid;
          assert forall j :: 0 <= j < k + 1 ==> bs[j].categoryId != cid by {
            forall j | 0 <= j < k + 1 ensures bs[j].categoryId != cid {
              if j > 0 { assert bs[j] == bs[1..][j - 1]; }
            }
          }
        }
      }
      rest
  }

  /** `{budget.category_id for budget in budgets_list}` */
  function CategoryIdsOf(bs: seq<Budget>): set<int> {
    set b | b in bs :: b.categoryId
  }

  /**
   * What the row of category `c` says, given the user's budgets `ms` of the month:
   * it has a budget exactly when one of `ms` is for `c`, and then shows the first
   * such budget's amount and id; otherwise amount 0 and no id; and `spent` is the
   * total of the user's expenses in `c` dated within the month.
   */
  ghost predicate ViewRowOf(c: Category, row: ViewRow, es: seq<Expense>, ms: seq<Budget>, user: int, y: int, m: int)
    requires 1 <= y <= 9999 && 1 <= m <= 12
  {
    row.category == c
    && (row.hasBudget <==> exists b :: b in ms && b.categoryId == c.id)
    && (!row.hasBudget ==> row.budget == 0.0 && row.budgetId == None)
    && (row.hasBudget ==> FirstBudgetFor(ms, c.id).Some?
                          && row.budget == FirstBudgetFor(ms, c.id).value.amount
                          && row.budgetId == Some(FirstBudgetFor(ms, c.id).value.id))
    && row.spent == Total(CategorySpending(es, user, c.id, MonthStart(y, m), MonthEnd(y, m)))
  }

  /** The GET branch of the `budgets` handler for `user`, month `month` of `year`. */
  method ShowBudgets(expenses: seq<Expense>, budgets: seq<Budget>, cats: seq<Category>,
                     user: int, month: int, year: int) returns (rows: seq<ViewRow>)
    requires 1 <= year <= 9999 && 1 <= month <= 12
    ensures |rows| == |cats|
    ensures forall i :: 0 <= i < |rows| ==>
              ViewRowOf(CategoriesByName(cats)[i], rows[i], expenses, BudgetsFor(budgets, user, month, year), user, year, month)
  {
    var ms := BudgetsFor(budgets, user, month, year);
    var allCats := CategoriesByName(cats);
    var withBudget := CategoryIdsOf(ms);
    rows := [];
    for i := 0 to |allCats|
      invariant |rows| == i
      invariant forall j :: 0 <= j < i ==> ViewRowOf(allCats[j], rows[j], expenses, ms, user, year, month)
    {
      var c := allCats[i];
      var budget := FirstBudgetFor(ms, c.id);
      var lo, hi := MonthStart(year, month), MonthEnd(year, month);
      var spent := Total(CategorySpending(expenses, user, c.id, lo, hi));
      var row := ViewRow(c,
                         if budget.Some? then budget.value.amount else 0.0,
                         if budget.Some? then Some(budget.value.id) else None,
                         spent,
                         c.id in withBudget);
      assert row.hasBudget <==> budget.Some? by {
        if budget.Some? {
          assert budget.value in ms;
        }
      }
      rows := rows + [row];
    }
  }

  /** `x` added up `k` times. */
  function Repeat(k: nat, x: real): real {
    if k == 0 then 0.0 else Repeat(k - 1, x) + x
  }

  /** Number of categories with id `id`. */
  function CountId(cats: seq<Category>, id: int): nat {
    if cats == [] then 0 else CountId(cats[..|cats| - 1], id) + (if cats[|cats| - 1].id == id then 1 else 0)
  }

  lemma {:induction false} CountIdOne(cats: seq<Category>, id: int)
    requires IdsDistinct(cats)
    ensures CountId(cats, id) == if FindCategory(cats, id).Some? then 1 else 0
  {
    if cats != [] {
      var n := |cats| - 1;
      CountIdOne(cats[..n], id);
      assert cats == cats[..n] + [cats[n]];
      if cats[n].id != id {
        if FindCategory(cats, id).Some? {
          var c := FindCategory(cats, id).value;
          assert c in cats[..n];
        }
      }
    }
  }

  lemma {:induction false} CountIdCons(x: Category, s: seq<Category>, id: int)
    ensures CountId([x] + s, id) == CountId(s, id) + (if x.id == id then 1 else 0)
  {
    if s != [] {
      var n := |s| - 1;
      assert ([x] + s)[..n + 1] == [x] + s[..n];
      CountIdCons(x, s[..n], id);
    }
  }

  lemma {:induction false} CountIdInsert(x: Category, s: seq<Category>, id: int)
    ensures CountId(Insert(x, s, ByName), id) == CountId(s, id) + (if x.id == id then 1 else 0)
  {
    if s == [] {
      assert Insert(x, s, ByName) == [x] + s;
      CountIdCons(x, s, id);
    } else if !ByName(s[0], x) {
      CountIdCons(x, s, id);
    } else {
      CountIdInsert(x, s[1..], id);
      CountIdCons(s[0], Insert(x, s[1..], ByName), id);
      CountIdCons(s[0], s[1..], id);
      assert [s[0]] + s[1..] == s;
    }
  }

  /** Sorting by name keeps how many categories have each id. */
  lemma {:induction false} CountIdSorted(cats: seq<Category>, id: int)
    ensures CountId(CategoriesByName(cats), id) == CountId(cats, id)
  {
    if cats != [] {
      var n := |cats| - 1;
      CountIdSorted(cats[..n], id);
      CountIdInsert(cats[n], SortBy(cats[..n], ByName), id);
    }
  }

  /** Sum over `cats` of each category's spend in the window. */
  function SpentOver(cats: seq<Category>, es: seq<Expense>, user: int, lo: Date, hi: Date): real {
    if cats == [] then 0.0
    else SpentOver(cats[..|cats| - 1], es, user, lo, hi) + Total(CategorySpending(es, user, cats[|cats| - 1].id, lo, hi))
  }

  /** One more expense changes a category's spend by its amount when it counts there. */
  lemma CategoryTotalSnoc(es: seq<Expense>, e: Expense, user: int, cid: int, lo: Date, hi: Date)
    ensures Total(CategorySpending(es + [e], user, cid, lo, hi)) ==
            Total(CategorySpending(es, user, cid, lo, hi))
            + (if e.userId == user && e.categoryId == cid && InPeriod(e.date, lo, hi) then e.amount else 0.0)
  {
    CategorySpendingSnoc(es, e, user, cid, lo, hi);
    TotalSnoc(CategorySpending(es, user, cid, lo, hi), e);
  }

  lemma {:induction false} SpentOverSnoc(cats: seq<Category>, es: seq<Expense>, e: Expense, user: int, lo: Date, hi: Date)
    ensures SpentOver(cats, es + [e], user, lo, hi) ==
            SpentOver(cats, es, user, lo, hi)
            + (if e.userId == user && InPeriod(e.date, lo, hi) then Repeat(CountId(cats, e.categoryId), e.amount) else 0.0)
  {
    if cats != [] {
      var n := |cats| - 1;
      SpentOverSnoc(cats[..n], es, e, user, lo, hi);
      CategoryTotalSnoc(es, e, user, cats[n].id, lo, hi);
    }
  }

  lemma {:induction false} SpentOverNothing(cats: seq<Category>, user: int, lo: Date, hi: Date)
    ensures SpentOver(cats, [], user, lo, hi) == 0.0
  {
    if cats != [] {
      SpentOverNothing(cats[..|cats| - 1], user, lo, hi);
    }
  }

  /** When each expense in the window has exactly one category in `cats`, the categories' spends add up to the window's total. */
  lemma {:induction false} SpentOverPartition(cats: seq<Category>, es: seq<Expense>, user: int, lo: Date, hi: Date)
    requires forall e :: e in es && e.userId == user && InPeriod(e.date, lo, hi) ==> CountId(cats, e.categoryId) == 1
    ensures SpentOver(cats, es, user, lo, hi) == Total(Spending(es, user, lo, hi))
  {
    if es == [] {
      SpentOverNothing(cats, user, lo, hi);
    } else {
      var n := |es| - 1;
      var e := es[n];
      assert es == es[..n] + [e];
      assert Repeat(1, e.amount) == e.amount;
      SpentOverPartition(cats, es[..n], user, lo, hi);
      SpentOverSnoc(cats, es[..n], e, user, lo, hi);
      SpendingSnoc(es[..n], e, user, lo, hi);
      TotalSnoc(Spending(es[..n], user, lo, hi), e);
      assert e in es;
    }
  }

  function SumSpent(rows: seq<ViewRow>): real {
    if rows == [] then 0.0 else SumSpent(rows[..|rows| - 1]) + rows[|rows| - 1].spent
  }

  lemma {:induction false} SumSpentIsSpentOver(sorted: seq<Category>, rows: seq<ViewRow>, es: seq<Expense>,
                                               ms: seq<Budget>, user: int, y: int, m: int)
    requires 1 <= y <= 9999 && 1 <= m <= 12
    requires |rows| == |sorted|
    requires forall i :: 0 <= i < |rows| ==> ViewRowOf(sorted[i], rows[i], es, ms, user, y, m)
    ensures SumSpent(rows) == SpentOver(sorted, es, user, MonthStart(y, m), MonthEnd(y, m))
  {
    if rows != [] {
      var n := |rows| - 1;
      SumSpentIsSpentOver(sorted[..n], rows[..n], es, ms, user, y, m);
      assert ViewRowOf(sorted[n], rows[n], es, ms, user, y, m);
    }
  }

  /**
   * With distinct category ids and every expense of the month pointing at an
   * existing category, the spends of the rows add up to the dashboard's total
   * for that month: the categories partition the month's expenses.
   */
  lemma RowsAddUpToMonthTotal(expenses: seq<Expense>, budgets: seq<Budget>, cats: seq<Category>,
                              user: int, month: int, year: int, rows: seq<ViewRow>)
    requires 1 <= year <= 9999 && 1 <= month <= 12
    requires IdsDistinct(cats)
    requires Resolves(cats, MonthExpenses(expenses, user, year, month))
    requires |rows| == |cats|
    requires forall i :: 0 <= i < |rows| ==>
               ViewRowOf(CategoriesByName(cats)[i], rows[i], expenses, BudgetsFor(budgets, user, month, year), user, year, month)
    ensures SumSpent(rows) == Total(MonthExpenses(expenses, user, year, month))
  {
    var sorted := CategoriesByName(cats);
    var lo, hi := MonthStart(year, month), MonthEnd(year, month);
    SpendingMembers(expenses, user, lo, hi);
    SumSpentIsSpentOver(sorted, rows, expenses, BudgetsFor(budgets, user, month, year), user, year, month);
    forall e | e in expenses && e.userId == user && InPeriod(e.date, lo, hi)
      ensures CountId(sorted, e.categoryId) == 1
    {
      assert e in MonthExpenses(expenses, user, year, month);
      CountIdSorted(cats, e.categoryId);
      CountIdOne(cats, e.categoryId);
    }
    SpentOverPartition(sorted, expenses, user, lo, hi);
  }
}
