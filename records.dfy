/**
 * The rows of the store (Category, Expense, Budget) and the read-only queries
 * the handlers run over them: lookups by key, the owner / date-window filters
 * and `sum(expense.amount for ...)`.
 */
module Records {
  import opened Wrappers
  import opened Calendar
  import opened Sorting

  datatype Category = Category(id: int, name: string)
  datatype Expense = Expense(id: int, userId: int, categoryId: int, amount: real, date: Date)
  datatype Budget = Budget(id: int, userId: int, categoryId: int, month: int, year: int, amount: real)

  /** `Category.query.get(id)`, the target of the `expense.category` relationship. */
  function FindCategory(cats: seq<Category>, id: int): (r: Option<Category>)
    ensures r.Some? ==> r.value in cats && r.value.id == id
    ensures r.None? ==> forall c :: c in cats ==> c.id != id
  {
    if cats == [] then None
    else if cats[0].id == id then Some(cats[0])
    else FindCategory(cats[1..], id)
  }

  /** No two categories share an id (the primary key). */
  ghost predicate IdsDistinct(cats: seq<Category>) {
    forall i, j :: 0 <= i < j < |cats| ==> cats[i].id != cats[j].id
  }

  /** No two categories share a name (the unique constraint on `name`). */
  ghost predicate NamesDistinct(cats: seq<Category>) {
    forall i, j :: 0 <= i < j < |cats| ==> cats[i].name != cats[j].name
  }

  /** `{c.name for c in categories}` */
  function NamesOf(cats: seq<Category>): set<string> {
    set c | c in cats :: c.name
  }

  /** Every expense refers to an existing category (the foreign key the store enforces). */
  predicate Resolves(cats: seq<Category>, es: seq<Expense>) {
    forall e :: e in es ==> FindCategory(cats, e.categoryId).Some?
  }

  /**
   * `expense.category.name`. The handlers only ask for ids that resolve (an
   * unresolved one would raise); the empty name stands in for that case.
   */
  function CategoryName(cats: seq<Category>, id: int): (name: string)
    ensures FindCategory(cats, id).Some? ==> name == FindCategory(cats, id).value.name
  {
    match FindCategory(cats, id)
    case Some(c) => c.name
    case None => ""
  }

  /** `sum(expense.amount for expense in es)`, 0 for no expenses. */
  function Total(es: seq<Expense>): real {
    if es == [] then 0.0 else Total(es[..|es| - 1]) + es[|es| - 1].amount
  }

  /** No negative amount, no negative total. */
  lemma {:induction false} TotalNonNegative(es: seq<Expense>)
    requires forall i :: 0 <= i < |es| ==> es[i].amount >= 0.0
    ensures Total(es) >= 0.0
  {
    if es != [] {
      TotalNonNegative(es[..|es| - 1]);
    }
  }

  /** `Expense.query.filter(user_id == user, date >= lo, date <= hi)`, in store order. */
  function Spending(es: seq<Expense>, user: int, lo: Date, hi: Date): (r: seq<Expense>)
    ensures |r| <= |es|
  {
    if es == [] then []
    else
      var rest := Spending(es[..|es| - 1], user, lo, hi);
      var e := es[|es| - 1];
      if e.userId == user && InPeriod(e.date, lo, hi) then rest + [e] else rest
  }

  /** An expense is selected exactly when it is in the store, the user's, and inside the window. */
  lemma {:induction false} SpendingMembers(es: seq<Expense>, user: int, lo: Date, hi: Date)
    ensures forall e :: e in Spending(es, user, lo, hi) <==> e in es && e.userId == user && InPeriod(e.date, lo, hi)
  {
    if es != [] {
      var k := |es| - 1;
      SpendingMembers(es[..k], user, lo, hi);
      assert es == es[..k] + [es[k]];
    }
  }


  /** The same query further restricted to `category_id == cid`. */
  function CategorySpending(es: seq<Expense>, user: int, cid: int, lo: Date, hi: Date): (r: seq<Expense>)
    ensures forall e :: e in r <==> e in es && e.userId == user && e.categoryId == cid && InPeriod(e.date, lo, hi)
  {
    if es == [] then []
    else
      var rest := CategorySpending(es[..|es| - 1], user, cid, lo, hi);
      var e := es[|es| - 1];
      assert es == es[..|es| - 1] + [e];
      if e.userId == user && e.categoryId == cid && InPeriod(e.date, lo, hi) then rest + [e] else rest
  }

  /** `Expense.query.filter_by(user_id=user)`, in store order. */
  function OwnedBy(es: seq<Expense>, user: int): (r: seq<Expense>)
    ensures multiset(r) <= multiset(es)
    ensures forall e :: e in r <==> e in es && e.userId == user
  {
    if es == [] then []
    else
      var rest := OwnedBy(es[..|es| - 1], user);
      var e := es[|es| - 1];
      assert es == es[..|es| - 1] + [e];
      if e.userId == user then rest + [e] else rest
  }

  /** `Budget.query.filter_by(user_id=user, month=month, year=year)`, in store order. */
  function BudgetsFor(bs: seq<Budget>, user: int, month: int, year: int): (r: seq<Budget>)
    ensures forall b :: b in r <==> b in bs && b.userId == user && b.month == month && b.year == year
  {
    if bs == [] then []
    else
      var rest := BudgetsFor(bs[..|bs| - 1], user, month, year);
      var b := bs[|bs| - 1];
      assert bs == bs[..|bs| - 1] + [b];
      if b.userId == user && b.month == month && b.year == year then rest + [b] else rest
  }

  /** `ORDER BY date DESC`: `a` may come before `b` when it is not older. */
  predicate NewerOrSame(a: Expense, b: Expense) {
    DateLe(b.date, a.date)
  }

  /** Lexicographic order on names by code point (the collation of `ORDER BY name`). */
  predicate NameLe(a: string, b: string) {
    if a == [] then true
    else if b == [] then false
    else if a[0] != b[0] then a[0] < b[0]
    else NameLe(a[1..], b[1..])
  }

  predicate ByName(a: Category, b: Category) {
    NameLe(a.name, b.name)
  }

  lemma DateOrderIsTotalPreorder()
    ensures TotalPreorder(NewerOrSame)
  {
  }

  lemma {:induction false} NameLeTotal(a: string, b: string)
    ensures NameLe(a, b) || NameLe(b, a)
  {
    if a != [] && b != [] && a[0] == b[0] {
      NameLeTotal(a[1..], b[1..]);
    }
  }

  lemma {:induction false} NameLeTransitive(a: string, b: string, c: string)
    requires NameLe(a, b) && NameLe(b, c)
    ensures NameLe(a, c)
  {
    if a != [] && b != [] && c != [] && a[0] == b[0] && b[0] == c[0] {
      NameLeTransitive(a[1..], b[1..], c[1..]);
    }
  }

  lemma NameOrderIsTotalPreorder()
    ensures TotalPreorder(ByName)
  {
    forall a: Category, b: Category ensures ByName(a, b) || ByName(b, a) {
      NameLeTotal(a.name, b.name);
    }
    forall a: Category, b: Category, c: Category | ByName(a, b) && ByName(b, c)
      ensures ByName(a, c)
    {
      NameLeTransitive(a.name, b.name, c.name);
    }
  }

  /** `Category.query.order_by(Category.name).all()` */
  function CategoriesByName(cats: seq<Category>): seq<Category> {
    SortBy(cats, ByName)
  }

  /** The name order lists every category once and puts names in order. */
  lemma CategoriesByNameOrdered(cats: seq<Category>)
    ensures multiset(CategoriesByName(cats)) == multiset(cats)
    ensures SortedBy(CategoriesByName(cats), ByName)
  {
    NameOrderIsTotalPreorder();
    SortBySorted(cats, ByName);
  }

  /** Appending one expense adds its amount to the total. */
  lemma TotalSnoc(es: seq<Expense>, e: Expense)
    ensures Total(es + [e]) == Total(es) + e.amount
  {
    assert (es + [e])[..|es|] == es;
  }

  lemma SpendingSnoc(es: seq<Expense>, e: Expense, user: int, lo: Date, hi: Date)
    ensures Spending(es + [e], user, lo, hi) ==
            Spending(es, user, lo, hi) + (if e.userId == user && InPeriod(e.date, lo, hi) then [e] else [])
  {
    assert (es + [e])[..|es|] == es;
  }

  lemma CategorySpendingSnoc(es: seq<Expense>, e: Expense, user: int, cid: int, lo: Date, hi: Date)
    ensures CategorySpending(es + [e], user, cid, lo, hi) ==
            CategorySpending(es, user, cid, lo, hi)
            + (if e.userId == user && e.categoryId == cid && InPeriod(e.date, lo, hi) then [e] else [])
  {
    assert (es + [e])[..|es|] == es;
  }
}
