/**
 * The category-name dictionaries built by `+=` loops (`expenses_by_category`
 * on the dashboard, `category_data` in analytics). A Python dict keeps its
 * insertion order, so it is modelled as a sequence of entries with distinct keys.
 */
module Grouping {
  import opened Wrappers
  import opened Records
  import opened Sorting

  datatype Entry = Entry(key: string, total: real)

  ghost predicate DistinctKeys(g: seq<Entry>) {
    forall i, j :: 0 <= i < j < |g| ==> g[i].key != g[j].key
  }

  function Keys(g: seq<Entry>): set<string> {
    set e | e in g :: e.key
  }

  /** Position of key `k`, the first one holding it. */
  function IndexOf(g: seq<Entry>, k: string): (r: Option<nat>)
    ensures r.Some? ==> r.value < |g| && g[r.value].key == k
                        && forall j :: 0 <= j < r.value ==> g[j].key != k
    ensures r.None? ==> forall j :: 0 <= j < |g| ==> g[j].key != k
  {
    if g == [] then None
    else match IndexOf(g[..|g| - 1], k)
      case Some(i) => Some(i)
      case None => if g[|g| - 1].key == k then Some(|g| - 1) else None
  }

  /** `d.get(k, 0)` */
  function Get(g: seq<Entry>, k: string): (r: real)
    ensures (forall i :: 0 <= i < |g| ==> g[i].key != k) ==> r == 0.0
    ensures forall i :: 0 <= i < |g| && g[i].key == k && (forall j :: 0 <= j < i ==> g[j].key != k) ==> r == g[i].total
  {
    match IndexOf(g, k)
    case Some(i) => g[i].total
    case None => 0.0
  }

  /** One loop step: `d[k] += x` when `k in d`, else `d[k] = x`. */
  function Accumulate(g: seq<Entry>, x: Entry): (r: seq<Entry>)
    ensures |g| <= |r| <= |g| + 1
    ensures forall i :: 0 <= i < |g| ==> r[i].key == g[i].key
    ensures |r| == |g| + 1 <==> forall i :: 0 <= i < |g| ==> g[i].key != x.key
    ensures |r| == |g| + 1 ==> r[|g|] == x
  {
    match IndexOf(g, x.key)
    case Some(i) => g[i := Entry(x.key, g[i].total + x.total)]
    case None => g + [x]
  }

  /** The dictionary after the loop has run over all of `items`. */
  function Group(items: seq<Entry>): (r: seq<Entry>)
    ensures |r| <= |items|
  {
    if items == [] then [] else Accumulate(Group(items[..|items| - 1]), items[|items| - 1])
  }

  /** Sum of the amounts of the items with key `k`. */
  function SumKey(items: seq<Entry>, k: string): real {
    if items == [] then 0.0
    else SumKey(items[..|items| - 1], k) + (if items[|items| - 1].key == k then items[|items| - 1].total else 0.0)
  }

  /** Sum of all the values. */
  function SumTotals(items: seq<Entry>): real {
    if items == [] then 0.0 else SumTotals(items[..|items| - 1]) + items[|items| - 1].total
  }

  lemma {:induction false} SumTotalsUpdate(g: seq<Entry>, i: nat, e: Entry)
    requires i < |g|
    ensures SumTotals(g[i := e]) == SumTotals(g) - g[i].total + e.total
  {
    var n := |g| - 1;
    if i < n {
      assert g[i := e][..n] == g[..n][i := e];
      SumTotalsUpdate(g[..n], i, e);
    } else {
      assert g[i := e][..n] == g[..n];
    }
  }

  lemma {:induction false} SumTotalsCons(x: Entry, s: seq<Entry>)
    ensures SumTotals([x] + s) == x.total + SumTotals(s)
  {
    if s != [] {
      var n := |s| - 1;
      assert ([x] + s)[..n + 1] == [x] + s[..n];
      SumTotalsCons(x, s[..n]);
    }
  }

  lemma UpdateKeepsKeys(g: seq<Entry>, i: nat, e: Entry)
    requires i < |g| && e.key == g[i].key
    ensures Keys(g[i := e]) == Keys(g)
    ensures forall k :: IndexOf(g[i := e], k) == IndexOf(g, k)
  {
    var a := g[i := e];
    assert forall j :: 0 <= j < |g| ==> a[j].key == g[j].key;
    forall k | k in Keys(a) ensures k in Keys(g) {
      var x :| x in a && x.key == k;
      var j :| 0 <= j < |a| && a[j] == x;
      assert g[j] in g;
    }
    forall k | k in Keys(g) ensures k in Keys(a) {
      var x :| x in g && x.key == k;
      var j :| 0 <= j < |g| && g[j] == x;
      assert a[j] in a;
    }
    forall k ensures IndexOf(a, k) == IndexOf(g, k) {
      match IndexOf(g, k)
      case Some(j) =>
      case None =>
    }
  }

  lemma AppendIndex(g: seq<Entry>, x: Entry)
    requires IndexOf(g, x.key).None?
    ensures forall k :: IndexOf(g + [x], k) == if k == x.key then Some(|g|) else IndexOf(g, k)
  {
    var a := g + [x];
    forall k ensures IndexOf(a, k) == if k == x.key then Some(|g|) else IndexOf(g, k) {
      if k != x.key {
        match IndexOf(g, k)
        case Some(j) =>
        case None =>
      }
    }
  }

  /** One step keeps the keys distinct and adds the item's key. */
  lemma AccumulateKeys(g: seq<Entry>, x: Entry)
    requires DistinctKeys(g)
    ensures DistinctKeys(Accumulate(g, x))
    ensures Keys(Accumulate(g, x)) == Keys(g) + {x.key}
  {
    match IndexOf(g, x.key)
    case Some(i) =>
      UpdateKeepsKeys(g, i, Entry(x.key, g[i].total + x.total));
      assert g[i] in g;
    case None =>
      KeysSnoc(g, x);
  }

  /** One step adds the item's amount under its key and nowhere else. */
  lemma AccumulateGet(g: seq<Entry>, x: Entry, k: string)
    ensures Get(Accumulate(g, x), k) == Get(g, k) + (if k == x.key then x.total else 0.0)
  {
    match IndexOf(g, x.key)
    case Some(i) =>
      UpdateKeepsKeys(g, i, Entry(x.key, g[i].total + x.total));
    case None =>
      AppendIndex(g, x);
  }

  /** One step adds the item's amount to the sum of the values. */
  lemma AccumulateSum(g: seq<Entry>, x: Entry)
    ensures SumTotals(Accumulate(g, x)) == SumTotals(g) + x.total
  {
    match IndexOf(g, x.key)
    case Some(i) =>
      SumTotalsUpdate(g, i, Entry(x.key, g[i].total + x.total));
    case None =>
      assert (g + [x])[..|g|] == g;
  }

  lemma KeysSnoc(s: seq<Entry>, x: Entry)
    ensures Keys(s + [x]) == Keys(s) + {x.key}
  {
    var a := s + [x];
    forall k | k in Keys(a) ensures k in Keys(s) + {x.key} {
      var y :| y in a && y.key == k;
    }
    forall k | k in Keys(s) ensures k in Keys(a) {
      var y :| y in s && y.key == k;
      assert y in a;
    }
    assert x in a;
  }

  /** The dictionary never holds a key twice. */
  lemma {:induction false} GroupDistinct(items: seq<Entry>)
    ensures DistinctKeys(Group(items))
  {
    if items != [] {
      var n := |items| - 1;
      GroupDistinct(items[..n]);
      AccumulateKeys(Group(items[..n]), items[n]);
    }
  }

  /** Its keys are exactly the keys of the items. */
  lemma {:induction false} GroupKeys(items: seq<Entry>)
    ensures Keys(Group(items)) == Keys(items)
  {
    if items != [] {
      var n := |items| - 1;
      var init, x := items[..n], items[n];
      assert init + [x] == items;
      GroupDistinct(init);
      GroupKeys(init);
      AccumulateKeys(Group(init), x);
      assert Keys(Group(items)) == Keys(Group(init)) + {x.key};
      KeysSnoc(init, x);
    }
  }

  /** The value under each key is the sum of that key's amounts (0 for a key that is absent). */
  lemma {:induction false} GroupGet(items: seq<Entry>, k: string)
    ensures Get(Group(items), k) == SumKey(items, k)
  {
    if items != [] {
      var n := |items| - 1;
      var init := items[..n];
      GroupGet(init, k);
      AccumulateGet(Group(init), items[n], k);
    }
  }

  /** The values add up to the sum of all the amounts. */
  lemma {:induction false} GroupSum(items: seq<Entry>)
    ensures SumTotals(Group(items)) == SumTotals(items)
  {
    if items != [] {
      var n := |items| - 1;
      var init := items[..n];
      GroupSum(init);
      AccumulateSum(Group(init), items[n]);
    }
  }

  /** The (category name, amount) pair of each expense, in order. */
  function ByCategoryName(es: seq<Expense>, cats: seq<Category>): (r: seq<Entry>)
    ensures |r| == |es|
    ensures forall i :: 0 <= i < |es| ==> r[i] == Entry(CategoryName(cats, es[i].categoryId), es[i].amount)
  {
    if es == [] then []
    else
      var e := es[|es| - 1];
      ByCategoryName(es[..|es| - 1], cats) + [Entry(CategoryName(cats, e.categoryId), e.amount)]
  }

  /** The named amounts add up to the expenses' total. */
  lemma {:induction false} ByCategoryNameTotal(es: seq<Expense>, cats: seq<Category>)
    ensures SumTotals(ByCategoryName(es, cats)) == Total(es)
  {
    if es != [] {
      var n := |es| - 1;
      var r := ByCategoryName(es, cats);
      assert r[..n] == ByCategoryName(es[..n], cats);
      ByCategoryNameTotal(es[..n], cats);
    }
  }

  /** A name is a key exactly when some expense belongs to a category of that name. */
  lemma {:induction false} ByCategoryNameKeys(es: seq<Expense>, cats: seq<Category>, k: string)
    ensures k in Keys(ByCategoryName(es, cats)) <==> exists e :: e in es && CategoryName(cats, e.categoryId) == k
  {
    if es != [] {
      var n := |es| - 1;
      var e := es[n];
      var r := ByCategoryName(es, cats);
      ByCategoryNameKeys(es[..n], cats, k);
      assert r == ByCategoryName(es[..n], cats) + [Entry(CategoryName(cats, e.categoryId), e.amount)];
      assert es == es[..n] + [e];
      if k in Keys(r) {
        var x :| x in r && x.key == k;
        if x !in ByCategoryName(es[..n], cats) {
          assert CategoryName(cats, e.categoryId) == k;
        }
      }
    }
  }

  /** The pairs of a prefix one expense longer. */
  lemma ByCategoryNameStep(es: seq<Expense>, cats: seq<Category>, i: nat)
    requires i < |es|
    ensures ByCategoryName(es[..i + 1], cats)
            == ByCategoryName(es[..i], cats) + [Entry(CategoryName(cats, es[i].categoryId), es[i].amount)]
  {
    assert es[..i + 1][..i] == es[..i];
  }

  lemma GroupSnoc(items: seq<Entry>, x: Entry)
    ensures Group(items + [x]) == Accumulate(Group(items), x)
  {
    assert (items + [x])[..|items|] == items;
  }

  /** The loop body: `d[name] += amount` when `name in d`, else `d[name] = amount`. */
  method AddAmount(g: seq<Entry>, name: string, amount: real) returns (after: seq<Entry>)
    ensures after == Accumulate(g, Entry(name, amount))
  {
    match IndexOf(g, name) {
      case Some(k) =>
        after := g[k := Entry(name, g[k].total + amount)];
      case None =>
        after := g + [Entry(name, amount)];
    }
  }

  /** The `for expense in ...: d[name] += amount` loop. */
  method GroupByCategory(es: seq<Expense>, cats: seq<Category>) returns (g: seq<Entry>)
    requires Resolves(cats, es)
    ensures g == Group(ByCategoryName(es, cats))
  {
    g := [];
    ghost var items: seq<Entry> := [];
    for i := 0 to |es|
      invariant items == ByCategoryName(es[..i], cats)
      invariant g == Group(items)
    {
      ByCategoryNameStep(es, cats, i);
      var e := es[i];
      var name := CategoryName(cats, e.categoryId);
      GroupSnoc(items, Entry(name, e.amount));
      g := AddAmount(g, name, e.amount);
      items := items + [Entry(name, e.amount)];
    }
    assert es[..|es|] == es;
  }

  /** `sorted(..., key=lambda x: x[1], reverse=True)`: larger totals first. */
  predicate LargerOrSame(a: Entry, b: Entry) {
    a.total >= b.total
  }

  lemma TotalOrderIsTotalPreorder()
    ensures TotalPreorder(LargerOrSame)
  {
  }

  lemma {:induction false} InsertKeepsSum(x: Entry, s: seq<Entry>)
    ensures SumTotals(Insert(x, s, LargerOrSame)) == SumTotals(s) + x.total
  {
    if s == [] {
      assert Insert(x, s, LargerOrSame) == [x];
      assert [x][..0] == [];
    } else if !LargerOrSame(s[0], x) {
      SumTotalsCons(x, s);
    } else {
      InsertKeepsSum(x, s[1..]);
      SumTotalsCons(s[0], Insert(x, s[1..], LargerOrSame));
      SumTotalsCons(s[0], s[1..]);
      assert [s[0]] + s[1..] == s;
    }
  }

  /** Sorting by total reorders the entries without changing their sum. */
  lemma {:induction false} SortKeepsSum(s: seq<Entry>)
    ensures SumTotals(SortBy(s, LargerOrSame)) == SumTotals(s)
  {
    if s != [] {
      var n := |s| - 1;
      SortKeepsSum(s[..n]);
      InsertKeepsSum(s[n], SortBy(s[..n], LargerOrSame));
    }
  }
}
