/**
 * The pure side of the transaction ledger: totals, per-category expenses, the
 * date-descending selections and the de-duplicated recent titles, each
 * defined once over a list of transactions.
 */
module LedgerSpec {
  import opened Wrappers
  import opened Domain

  // ---------------------------------------------------------------- totals

  /** What `t` adds to the total of transactions of kind `k`. */
  function KindAmount(t: Transaction, k: TransactionType): real {
    if t.kind == k then t.amount else 0.0
  }

  /** `filter { $0.type == k }.reduce(0) { $0 + $1.amount }`, folded from the left as `reduce` does. */
  function KindTotal(ts: seq<Transaction>, k: TransactionType): real {
    if ts == [] then 0.0 else KindTotal(ts[..|ts| - 1], k) + KindAmount(ts[|ts| - 1], k)
  }

  function IncomeTotal(ts: seq<Transaction>): real { KindTotal(ts, Income) }

  function ExpenseTotal(ts: seq<Transaction>): real { KindTotal(ts, Expense) }

  /** What `t` adds to the balance: its amount for income, minus its amount otherwise. */
  function SignedAmount(t: Transaction): real {
    if t.kind == Income then t.amount else -t.amount
  }

  /** `reduce(0) { $0 + (income ? amount : -amount) }`. */
  function BalanceOf(ts: seq<Transaction>): real {
    if ts == [] then 0.0 else BalanceOf(ts[..|ts| - 1]) + SignedAmount(ts[|ts| - 1])
  }

  /** Under exact arithmetic the balance is income minus expenses. */
  lemma {:induction false} BalanceIsIncomeMinusExpenses(ts: seq<Transaction>)
    ensures BalanceOf(ts) == IncomeTotal(ts) - ExpenseTotal(ts)
  {
    if ts != [] {
      BalanceIsIncomeMinusExpenses(ts[..|ts| - 1]);
    }
  }

  /** A total over two lists laid end to end is the sum of their totals. */
  lemma {:induction false} KindTotalAppend(a: seq<Transaction>, b: seq<Transaction>, k: TransactionType)
    ensures KindTotal(a + b, k) == KindTotal(a, k) + KindTotal(b, k)
    decreases |b|
  {
    if b == [] {
      assert a + b == a;
    } else {
      assert (a + b)[..|a + b| - 1] == a + b[..|b| - 1];
      KindTotalAppend(a, b[..|b| - 1], k);
    }
  }

  /** Removing the element at `i` takes exactly its contribution off the total. */
  lemma KindTotalRemove(ts: seq<Transaction>, i: nat, k: TransactionType)
    requires i < |ts|
    ensures KindTotal(ts[..i] + ts[i + 1..], k) == KindTotal(ts, k) - KindAmount(ts[i], k)
  {
    assert ts == ts[..i] + [ts[i]] + ts[i + 1..];
    KindTotalAppend(ts[..i] + [ts[i]], ts[i + 1..], k);
    KindTotalAppend(ts[..i], [ts[i]], k);
    KindTotalAppend(ts[..i], ts[i + 1..], k);
    assert KindTotal([ts[i]], k) == KindAmount(ts[i], k) by {
      assert [ts[i]][..0] == [];
    }
  }

  /** What `t` adds to the expenses of category `c`. */
  function CategoryAmount(t: Transaction, c: Category): real {
    if t.kind == Expense && t.category == c then t.amount else 0.0
  }

  /** `expenses(for: c)`: the amounts of expense transactions in category `c`, summed. */
  function CategoryTotal(ts: seq<Transaction>, c: Category): real {
    if ts == [] then 0.0 else CategoryTotal(ts[..|ts| - 1], c) + CategoryAmount(ts[|ts| - 1], c)
  }

  /** A category without expenses in the list has expenses 0. */
  lemma {:induction false} CategoryTotalWithoutExpenses(ts: seq<Transaction>, c: Category)
    requires !HasExpenseIn(ts, c)
    ensures CategoryTotal(ts, c) == 0.0
  {
    if ts != [] {
      CategoryTotalWithoutExpenses(ts[..|ts| - 1], c);
    }
  }

  /** Whether some expense of the list is in category `c`. */
  predicate HasExpenseIn(ts: seq<Transaction>, c: Category) {
    exists i :: 0 <= i < |ts| && ts[i].kind == Expense && ts[i].category == c
  }

  // ---------------------------------------------------------------- ordering

  /** Whether `s` is ordered non-increasingly by `key`. */
  predicate Descending<T>(s: seq<T>, key: T -> real) {
    forall i, j :: 0 <= i < j < |s| ==> key(s[i]) >= key(s[j])
  }

  /** Inserts `x` into a descending list, before the first element whose key is not larger. */
  function InsertDescending<T>(x: T, s: seq<T>, key: T -> real): (r: seq<T>)
    requires Descending(s, key)
    ensures Descending(r, key)
    ensures multiset(r) == multiset(s) + multiset{x}
  {
    if s == [] then [x]
    else if key(x) >= key(s[0]) then [x] + s
    else
      var rest := InsertDescending(x, s[1..], key);
      assert multiset(s) == multiset{s[0]} + multiset(s[1..]) by {
        assert s == [s[0]] + s[1..];
      }
      assert forall i :: 0 <= i < |rest| ==> key(s[0]) >= key(rest[i]) by {
        forall i | 0 <= i < |rest|
          ensures key(s[0]) >= key(rest[i])
        {
          assert rest[i] in multiset(rest);
        }
      }
      [s[0]] + rest
  }

  /** Swift's `sorted { key($0) > key($1) }`, as an insertion sort: descending, and a permutation. */
  function SortDescending<T>(s: seq<T>, key: T -> real): (r: seq<T>)
    ensures Descending(r, key)
    ensures multiset(r) == multiset(s)
  {
    if s == [] then []
    else
      assert s == [s[0]] + s[1..];
      InsertDescending(s[0], SortDescending(s[1..], key), key)
  }

  function DateKey(t: Transaction): real { t.date as real }

  /** `Array(sorted { $0.date > $1.date }.prefix(k))`: the `k` latest transactions, latest first. */
  function Latest(ts: seq<Transaction>, k: nat): seq<Transaction> {
    var sorted := SortDescending(ts, DateKey);
    if |sorted| <= k then sorted else sorted[..k]
  }

  /**
   * `Latest` keeps `min(k, |ts|)` transactions of the list, latest first, and
   * every transaction it leaves out is no later than any it keeps.
   */
  lemma LatestIsTop(ts: seq<Transaction>, k: nat)
    ensures var r := Latest(ts, k);
      && |r| == (if |ts| <= k then |ts| else k)
      && multiset(r) <= multiset(ts)
      && Descending(r, DateKey)
      && forall t, i :: t in multiset(ts) - multiset(r) && 0 <= i < |r| ==> t.date <= r[i].date
  {
    var sorted := SortDescending(ts, DateKey);
    var n := if |sorted| <= k then |sorted| else k;
    assert Latest(ts, k) == sorted[..n];
    PrefixOfDescending(sorted, n, DateKey);
  }

  /**
   * A prefix of a descending list is descending, is part of the list, and no
   * element of the rest has a larger key than an element of the prefix.
   */
  lemma PrefixOfDescending<T>(s: seq<T>, n: nat, key: T -> real)
    requires Descending(s, key) && n <= |s|
    ensures Descending(s[..n], key)
    ensures multiset(s[..n]) <= multiset(s)
    ensures forall t, i :: t in multiset(s) - multiset(s[..n]) && 0 <= i < n ==> key(t) <= key(s[i])
  {
    assert s == s[..n] + s[n..];
    assert multiset(s) - multiset(s[..n]) == multiset(s[n..]);
    forall t, i | t in multiset(s[n..]) && 0 <= i < n
      ensures key(t) <= key(s[i])
    {
      var j :| 0 <= j < |s[n..]| && s[n..][j] == t;
      assert s[n + j] == t;
    }
  }

  /** `recentTransactions`: the ten latest transactions. */
  function RecentTransactions(ts: seq<Transaction>): seq<Transaction> {
    Latest(ts, 10)
  }

  // ---------------------------------------------------------------- recent titles

  /** `filter { $0.category == c }`, order kept. */
  function InCategory(ts: seq<Transaction>, c: Category): (r: seq<Transaction>)
    ensures forall i :: 0 <= i < |r| ==> r[i].category == c
    ensures forall i :: 0 <= i < |ts| && ts[i].category == c ==> ts[i] in r
    ensures multiset(r) <= multiset(ts)
  {
    if ts == [] then []
    else
      var rest := InCategory(ts[..|ts| - 1], c);
      assert ts == ts[..|ts| - 1] + [ts[|ts| - 1]];
      if ts[|ts| - 1].category == c then rest + [ts[|ts| - 1]] else rest
  }

  /** The filter keeps each transaction of the category exactly as often as it occurs, and no other. */
  lemma {:induction false} InCategoryCounts(ts: seq<Transaction>, c: Category, t: Transaction)
    ensures multiset(InCategory(ts, c))[t] == if t.category == c then multiset(ts)[t] else 0
  {
    if ts != [] {
      var init := ts[..|ts| - 1];
      InCategoryCounts(init, c, t);
      assert ts == init + [ts[|ts| - 1]];
    }
  }

  function Titles(ts: seq<Transaction>): (r: seq<string>)
    ensures |r| == |ts| && forall i :: 0 <= i < |ts| ==> r[i] == ts[i].title
  {
    seq(|ts|, i requires 0 <= i < |ts| => ts[i].title)
  }

  /** `Array(Set(xs))`, with the array in first-occurrence order. */
  function Distinct(xs: seq<string>): seq<string> {
    if xs == [] then []
    else
      var r := Distinct(xs[..|xs| - 1]);
      if xs[|xs| - 1] in r then r else r + [xs[|xs| - 1]]
  }

  predicate NoDuplicates<T(==)>(xs: seq<T>) {
    forall i, j :: 0 <= i < j < |xs| ==> xs[i] != xs[j]
  }

  /** `Distinct` keeps every value exactly once and adds none. */
  lemma {:induction false} DistinctKeepsValues(xs: seq<string>)
    ensures NoDuplicates(Distinct(xs))
    ensures (set x | x in Distinct(xs)) == (set x | x in xs)
    ensures |Distinct(xs)| <= |xs|
  {
    if xs != [] {
      var init, last := xs[..|xs| - 1], xs[|xs| - 1];
      DistinctKeepsValues(init);
      assert xs == init + [last];
      assert (set x | x in xs) == (set x | x in init) + {last};
      var r := Distinct(init);
      if last !in r {
        assert (set x | x in r + [last]) == (set x | x in r) + {last};
      }
    }
  }

  /** `getRecentTitles(for: c)`: the distinct titles among the five latest transactions of category `c`. */
  function RecentTitles(ts: seq<Transaction>, c: Category): seq<string> {
    Distinct(Titles(Latest(InCategory(ts, c), 5)))
  }

  /**
   * The recent titles are pairwise distinct, at most five, and exactly the
   * titles of the five latest transactions of category `c`, each of which is
   * a transaction of the list in that category.
   */
  lemma RecentTitlesAreTopFive(ts: seq<Transaction>, c: Category)
    ensures var r := RecentTitles(ts, c);
      var window := Latest(InCategory(ts, c), 5);
      && NoDuplicates(r) && |r| <= 5
      && (set x | x in r) == (set i | 0 <= i < |window| :: window[i].title)
      && forall i :: 0 <= i < |window| ==> window[i] in ts && window[i].category == c
  {
    var filtered := InCategory(ts, c);
    var window := Latest(filtered, 5);
    LatestIsTop(filtered, 5);
    DistinctKeepsValues(Titles(window));
    TitlesAsSet(window);
    SubMultisetIn(window, filtered, ts, c);
  }

  lemma TitlesAsSet(w: seq<Transaction>)
    ensures (set x | x in Titles(w)) == (set i | 0 <= i < |w| :: w[i].title)
  {
    var titles := Titles(w);
    forall x | x in titles
      ensures x in (set i | 0 <= i < |w| :: w[i].title)
    {
      var i :| 0 <= i < |titles| && titles[i] == x;
    }
  }

  lemma SubMultisetIn(w: seq<Transaction>, f: seq<Transaction>, ts: seq<Transaction>, c: Category)
    requires multiset(w) <= multiset(f) && multiset(f) <= multiset(ts)
    requires forall i :: 0 <= i < |f| ==> f[i].category == c
    ensures forall i :: 0 <= i < |w| ==> w[i] in ts && w[i].category == c
  {
    forall i | 0 <= i < |w|
      ensures w[i] in ts && w[i].category == c
    {
      assert w[i] in multiset(w);
      assert w[i] in multiset(f);
      var j :| 0 <= j < |f| && f[j] == w[i];
      assert f[j] in multiset(ts);
    }
  }

  // ---------------------------------------------------------------- deleting by id

  /** `firstIndex(where: { $0.id == id })`. */
  function FirstIndexOf(ts: seq<Transaction>, id: string): (r: Option<nat>)
    ensures r.Some? ==> r.value < |ts| && ts[r.value].id == id
    ensures r.Some? ==> forall j :: 0 <= j < r.value ==> ts[j].id != id
    ensures r.None? <==> forall j :: 0 <= j < |ts| ==> ts[j].id != id
  {
    if ts == [] then None
    else if ts[0].id == id then Some(0)
    else
      match FirstIndexOf(ts[1..], id)
      case None => None
      case Some(i) => Some(i + 1)
  }

  /** `remove(at: i)`: the list without its element at `i`, order kept. */
  function RemoveAt<T>(ts: seq<T>, i: nat): (r: seq<T>)
    requires i < |ts|
  {
    ts[..i] + ts[i + 1..]
  }

  /** Removing one element keeps the others, in order, and takes exactly its contribution off every total. */
  lemma RemoveAtKeepsRest(ts: seq<Transaction>, i: nat)
    requires i < |ts|
    ensures |RemoveAt(ts, i)| == |ts| - 1
    ensures multiset(RemoveAt(ts, i)) + multiset{ts[i]} == multiset(ts)
    ensures forall j :: 0 <= j < |ts| - 1 ==> RemoveAt(ts, i)[j] == ts[if j < i then j else j + 1]
    ensures IncomeTotal(RemoveAt(ts, i)) == IncomeTotal(ts) - KindAmount(ts[i], Income)
    ensures ExpenseTotal(RemoveAt(ts, i)) == ExpenseTotal(ts) - KindAmount(ts[i], Expense)
  {
    assert ts == ts[..i] + [ts[i]] + ts[i + 1..];
    KindTotalRemove(ts, i, Income);
    KindTotalRemove(ts, i, Expense);
  }

  // ---------------------------------------------------------------- expenses by category

  /** One row of the per-category breakdown. */
  datatype CategoryExpense = CategoryExpense(category: Category, amount: real)

  function AmountKey(e: CategoryExpense): real { e.amount }

  function EntryCategories(es: seq<CategoryExpense>): (r: seq<Category>)
    ensures |r| == |es| && forall i :: 0 <= i < |es| ==> r[i] == es[i].category
  {
    seq(|es|, i requires 0 <= i < |es| => es[i].category)
  }

  /** The entry amounts, summed. */
  function EntriesTotal(es: seq<CategoryExpense>): real {
    if es == [] then 0.0 else es[0].amount + EntriesTotal(es[1..])
  }

  /**
   * What `updateCategoryExpenses` promises of `es` for the list `ts`: one
   * entry per category with an expense, none for any other, each carrying that
   * category's `expenses(for:)`, largest first, the amounts adding up to the
   * expense total.
   */
  ghost predicate IsBreakdown(es: seq<CategoryExpense>, ts: seq<Transaction>) {
    && Descending(es, AmountKey)
    && NoDuplicates(EntryCategories(es))
    && (forall i :: 0 <= i < |es| ==> es[i].amount == CategoryTotal(ts, es[i].category))
    && (forall c :: HasExpenseIn(ts, c) <==> c in EntryCategories(es))
    && EntriesTotal(es) == ExpenseTotal(ts)
  }

  /** `expenses(for: c)` summed over the categories of `cs`. */
  function CategoriesTotal(cs: seq<Category>, ts: seq<Transaction>): real {
    if cs == [] then 0.0 else CategoryTotal(ts, cs[0]) + CategoriesTotal(cs[1..], ts)
  }

  /** What one transaction adds to the expenses of the categories of `cs`, summed. */
  function CategoriesAmount(cs: seq<Category>, t: Transaction): real {
    if cs == [] then 0.0 else CategoryAmount(t, cs[0]) + CategoriesAmount(cs[1..], t)
  }

  /**
   * Entries with distinct categories, each carrying its category's expenses and
   * covering every category with an expense, add up to the expense total,
   * whatever their order.
   */
  lemma BreakdownTotal(es: seq<CategoryExpense>, ts: seq<Transaction>)
    requires NoDuplicates(EntryCategories(es))
    requires forall i :: 0 <= i < |es| ==> es[i].amount == CategoryTotal(ts, es[i].category)
    requires forall c :: HasExpenseIn(ts, c) ==> c in EntryCategories(es)
    ensures EntriesTotal(es) == ExpenseTotal(ts)
  {
    EntriesTotalOfCategories(es, ts);
    CategoriesTotalIsExpenseTotal(EntryCategories(es), ts);
  }

  lemma {:induction false} EntriesTotalOfCategories(es: seq<CategoryExpense>, ts: seq<Transaction>)
    requires forall i :: 0 <= i < |es| ==> es[i].amount == CategoryTotal(ts, es[i].category)
    ensures EntriesTotal(es) == CategoriesTotal(EntryCategories(es), ts)
  {
    if es != [] {
      EntriesTotalOfCategories(es[1..], ts);
      assert EntryCategories(es)[1..] == EntryCategories(es[1..]);
    }
  }

  lemma {:induction false} CategoriesTotalIsExpenseTotal(cs: seq<Category>, ts: seq<Transaction>)
    requires NoDuplicates(cs)
    requires forall c :: HasExpenseIn(ts, c) ==> c in cs
    ensures CategoriesTotal(cs, ts) == ExpenseTotal(ts)
  {
    if ts == [] {
      CategoriesTotalOfEmpty(cs);
    } else {
      var init, t := ts[..|ts| - 1], ts[|ts| - 1];
      forall c | HasExpenseIn(init, c)
        ensures c in cs
      {
        var i :| 0 <= i < |init| && init[i].kind == Expense && init[i].category == c;
        assert ts[i] == init[i];
      }
      CategoriesTotalIsExpenseTotal(cs, init);
      CategoriesTotalSnoc(cs, ts);
      if t.kind == Expense {
        assert HasExpenseIn(ts, t.category);
      }
      CategoriesAmountOfOne(cs, t);
    }
  }

  lemma {:induction false} CategoriesTotalOfEmpty(cs: seq<Category>)
    ensures CategoriesTotal(cs, []) == 0.0
  {
    if cs != [] {
      CategoriesTotalOfEmpty(cs[1..]);
    }
  }

  lemma {:induction false} CategoriesTotalSnoc(cs: seq<Category>, ts: seq<Transaction>)
    requires ts != []
    ensures CategoriesTotal(cs, ts) == CategoriesTotal(cs, ts[..|ts| - 1]) + CategoriesAmount(cs, ts[|ts| - 1])
  {
    if cs != [] {
      CategoriesTotalSnoc(cs[1..], ts);
    }
  }

  lemma {:induction false} CategoriesAmountOfOne(cs: seq<Category>, t: Transaction)
    requires NoDuplicates(cs)
    ensures CategoriesAmount(cs, t) == if t.kind == Expense && t.category in cs then t.amount else 0.0
  {
    if cs != [] {
      assert NoDuplicates(cs[1..]) by {
        forall i, j | 0 <= i < j < |cs[1..]|
          ensures cs[1..][i] != cs[1..][j]
        {
          assert cs[1..][i] == cs[i + 1] && cs[1..][j] == cs[j + 1];
        }
      }
      CategoriesAmountOfOne(cs[1..], t);
      if cs[0] == t.category {
        assert t.category !in cs[1..] by {
          forall j | 0 <= j < |cs[1..]|
            ensures cs[1..][j] != cs[0]
          {
            assert cs[1..][j] == cs[j + 1];
          }
        }
      }
      assert t.category in cs <==> t.category == cs[0] || t.category in cs[1..] by {
        assert cs == [cs[0]] + cs[1..];
      }
    }
  }
}
