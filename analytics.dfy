/**
 * The `analytics` handler: twelve monthly totals of the selected year and
 * the year's spend per category name, largest first.
 */
module Analytics {
  import opened Calendar
  import opened Sorting
  import opened Records
  import opened Grouping
  import opened Dashboard

  datatype MonthTotal = MonthTotal(month: int, total: real)
  datatype AnalyticsView = AnalyticsView(monthly: seq<MonthTotal>, byCategory: seq<Entry>)

  /** The user's expenses dated from January 1 to December 31 of `y`. */
  function YearExpenses(es: seq<Expense>, user: int, y: int): seq<Expense> {
    Spending(es, user, Date(y, 1, 1), Date(y, 12, 31))
  }

  /** For expenses with real dates the year window selects exactly that calendar year. */
  lemma YearExpensesAreThatYear(es: seq<Expense>, user: int, y: int)
    requires forall e :: e in es ==> ValidDate(e.date)
    ensures forall e :: e in YearExpenses(es, user, y) <==> e in es && e.userId == user && e.date.year == y
  {
    SpendingMembers(es, user, Date(y, 1, 1), Date(y, 12, 31));
    forall e | e in es {
      YearWindow(e.date, y);
    }
  }

  /** The buckets of months 1..k. */
  function MonthlyUpTo(es: seq<Expense>, user: int, y: int, k: nat): (r: seq<MonthTotal>)
    requires 1 <= y <= 9999 && k <= 12
    ensures |r| == k
  {
    if k == 0 then [] else MonthlyUpTo(es, user, y, k - 1) + [MonthTotal(k, Total(MonthExpenses(es, user, y, k)))]
  }

  /** Bucket `i` holds month `i + 1` and the total of the user's expenses in it. */
  lemma {:induction false} MonthlyBuckets(es: seq<Expense>, user: int, y: int, k: nat)
    requires 1 <= y <= 9999 && k <= 12
    ensures forall i :: 0 <= i < k ==>
              MonthlyUpTo(es, user, y, k)[i] == MonthTotal(i + 1, Total(MonthExpenses(es, user, y, i + 1)))
  {
    if k > 0 {
      MonthlyBuckets(es, user, y, k - 1);
      var prev := MonthlyUpTo(es, user, y, k - 1);
      assert MonthlyUpTo(es, user, y, k) == prev + [MonthTotal(k, Total(MonthExpenses(es, user, y, k)))];
    }
  }

  function SumMonthly(ms: seq<MonthTotal>): real {
    if ms == [] then 0.0 else SumMonthly(ms[..|ms| - 1]) + ms[|ms| - 1].total
  }


  /** Sum of the totals of months 1..k. */
  function MonthsTotal(es: seq<Expense>, user: int, y: int, k: nat): real
    requires 1 <= y <= 9999 && k <= 12
  {
    if k == 0 then 0.0 else MonthsTotal(es, user, y, k - 1) + Total(MonthExpenses(es, user, y, k))
  }

  lemma {:induction false} SumMonthlyIsMonthsTotal(es: seq<Expense>, user: int, y: int, k: nat)
    requires 1 <= y <= 9999 && k <= 12
    ensures SumMonthly(MonthlyUpTo(es, user, y, k)) == MonthsTotal(es, user, y, k)
  {
    if k > 0 {
      SumMonthlyIsMonthsTotal(es, user, y, k - 1);
      SumMonthlySnoc(MonthlyUpTo(es, user, y, k - 1), MonthTotal(k, Total(MonthExpenses(es, user, y, k))));
    }
  }

  /** What expense `e` adds to the totals of months `first`..`last` of `y` for `user`. */
  function Share(e: Expense, user: int, y: int, first: int, last: int): real {
    if e.userId == user && e.date.year == y && first <= e.date.month <= last then e.amount else 0.0
  }

  /** The shares of all of `es` in months `first`..`last`. */
  function Shares(es: seq<Expense>, user: int, y: int, first: int, last: int): real {
    if es == [] then 0.0 else Shares(es[..|es| - 1], user, y, first, last) + Share(es[|es| - 1], user, y, first, last)
  }

  /** For real dates, month `k`'s total is the sum of the expenses' shares in month `k`. */
  lemma {:induction false} MonthTotalIsShares(es: seq<Expense>, user: int, y: int, k: int)
    requires 1 <= y <= 9999 && 1 <= k <= 12
    requires forall e :: e in es ==> ValidDate(e.date)
    ensures Total(MonthExpenses(es, user, y, k)) == Shares(es, user, y, k, k)
  {
    if es != [] {
      var n := |es| - 1;
      var e := es[n];
      assert es == es[..n] + [e];
      assert e in es;
      MonthTotalIsShares(es[..n], user, y, k);
      SpendingSnoc(es[..n], e, user, MonthStart(y, k), MonthEnd(y, k));
      TotalSnoc(MonthExpenses(es[..n], user, y, k), e);
      MonthWindow(e.date, y, k);
    }
  }

  /** For real dates, the year's total is the sum of the expenses' shares in months 1..12. */
  lemma {:induction false} YearTotalIsShares(es: seq<Expense>, user: int, y: int)
    requires forall e :: e in es ==> ValidDate(e.date)
    ensures Total(YearExpenses(es, user, y)) == Shares(es, user, y, 1, 12)
  {
    if es != [] {
      var n := |es| - 1;
      var e := es[n];
      assert es == es[..n] + [e];
      assert e in es;
      YearTotalIsShares(es[..n], user, y);
      SpendingSnoc(es[..n], e, user, Date(y, 1, 1), Date(y, 12, 31));
      TotalSnoc(YearExpenses(es[..n], user, y), e);
      YearWindow(e.date, y);
    }
  }

  /** Months `1..k` are months `1..k-1` and month `k`. */
  lemma {:induction false} SharesSplit(es: seq<Expense>, user: int, y: int, k: int)
    requires 1 <= k
    ensures Shares(es, user, y, 1, k) == Shares(es, user, y, 1, k - 1) + Shares(es, user, y, k, k)
  {
    if es != [] {
      SharesSplit(es[..|es| - 1], user, y, k);
    }
  }

  /** For real dates, the totals of months 1..k add up to the expenses' shares in those months. */
  lemma {:induction false} MonthsTotalIsShares(es: seq<Expense>, user: int, y: int, k: nat)
    requires 1 <= y <= 9999 && k <= 12
    requires forall e :: e in es ==> ValidDate(e.date)
    ensures MonthsTotal(es, user, y, k) == Shares(es, user, y, 1, k)
  {
    if k == 0 {
      SharesNone(es, user, y);
    } else {
      MonthsTotalIsShares(es, user, y, k - 1);
      MonthTotalIsShares(es, user, y, k);
      SharesSplit(es, user, y, k);
    }
  }

  /** No real date falls in months 1..0. */
  lemma {:induction false} SharesNone(es: seq<Expense>, user: int, y: int)
    requires forall e :: e in es ==> ValidDate(e.date)
    ensures Shares(es, user, y, 1, 0) == 0.0
  {
    if es != [] {
      var n := |es| - 1;
      assert es[n] in es;
      assert forall e :: e in es[..n] ==> e in es;
      SharesNone(es[..n], user, y);
    }
  }

  lemma SumMonthlySnoc(ms: seq<MonthTotal>, x: MonthTotal)
    ensures SumMonthly(ms + [x]) == SumMonthly(ms) + x.total
  {
    assert (ms + [x])[..|ms|] == ms;
  }

  /** For expenses with real dates, the twelve months partition the year: their totals add up to the year's. */
  lemma MonthsPartitionYear(es: seq<Expense>, user: int, y: int)
    requires 1 <= y <= 9999
    requires forall e :: e in es ==> ValidDate(e.date)
    ensures SumMonthly(MonthlyUpTo(es, user, y, 12)) == Total(YearExpenses(es, user, y))
  {
    SumMonthlyIsMonthsTotal(es, user, y, 12);
    MonthsTotalIsShares(es, user, y, 12);
    YearTotalIsShares(es, user, y);
  }


  /** The `analytics` handler for `user` and `year`. */
  method ShowAnalytics(expenses: seq<Expense>, cats: seq<Category>, user: int, year: int) returns (v: AnalyticsView)
    requires 1 <= year <= 9999
    requires Resolves(cats, YearExpenses(expenses, user, year))
    ensures v.monthly == MonthlyUpTo(expenses, user, year, 12)
    ensures |v.monthly| == 12
    ensures v.byCategory == SortBy(Group(ByCategoryName(YearExpenses(expenses, user, year), cats)), LargerOrSame)
  {
    var monthly: seq<MonthTotal> := [];
    for month := 1 to 13
      invariant monthly == MonthlyUpTo(expenses, user, year, month - 1)
    {
      var lo, hi := MonthStart(year, month), MonthEnd(year, month);
      var total := Total(Spending(expenses, user, lo, hi));
      monthly := monthly + [MonthTotal(month, total)];
    }
    var yearly := YearExpenses(expenses, user, year);
    var categoryData := GroupByCategory(yearly, cats);
    v := AnalyticsView(monthly, SortBy(categoryData, LargerOrSame));
  }

  /**
   * The category list is the year's per-name totals (the same entries, one per
   * name), ordered from the largest total to the smallest.
   */
  lemma CategoriesLargestFirst(es: seq<Expense>, cats: seq<Category>, user: int, y: int)
    ensures var g := Group(ByCategoryName(YearExpenses(es, user, y), cats));
            multiset(SortBy(g, LargerOrSame)) == multiset(g)
            && (forall i, j :: 0 <= i < j < |g| ==> SortBy(g, LargerOrSame)[i].total >= SortBy(g, LargerOrSame)[j].total)
  {
    var g := Group(ByCategoryName(YearExpenses(es, user, y), cats));
    TotalOrderIsTotalPreorder();
    SortBySorted(g, LargerOrSame);
    var s := SortBy(g, LargerOrSame);
    assert forall i, j :: 0 <= i < j < |s| ==> LargerOrSame(s[i], s[j]);
  }

  /** The monthly totals and the category totals add up to the same amount, the year's total. */
  lemma MonthsAndCategoriesAgree(es: seq<Expense>, cats: seq<Category>, user: int, y: int)
    requires 1 <= y <= 9999
    requires forall e :: e in es ==> ValidDate(e.date)
    ensures SumMonthly(MonthlyUpTo(es, user, y, 12))
            == SumTotals(SortBy(Group(ByCategoryName(YearExpenses(es, user, y), cats)), LargerOrSame))
            == Total(YearExpenses(es, user, y))
  {
    var yearly := YearExpenses(es, user, y);
    var items := ByCategoryName(yearly, cats);
    MonthsPartitionYear(es, user, y);
    SortKeepsSum(Group(items));
    GroupSum(items);
    ByCategoryNameTotal(yearly, cats);
  }
}
