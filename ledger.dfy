/**
 * The transaction ledger view-model: the in-memory list of transactions, the
 * lazily cached totals, the budgets and the per-category breakdown, each
 * operation stated against the functions of `LedgerSpec`.
 */
module Ledger {
  import opened Wrappers
  import opened Domain
  import opened Groups
  import opened LedgerSpec

  /**
   * The loop of `updateCategoryExpenses`: sums the expenses of each category
   * into a dictionary, turns its entries into rows and sorts them by amount,
   * largest first.
   */
  method CategoryBreakdown(ts: seq<Transaction>) returns (es: seq<CategoryExpense>)
    ensures IsBreakdown(es, ts)
  {
    var byCategory: map<Category, real> := map[];
    for i := 0 to |ts|
      invariant forall c :: c in byCategory <==> HasExpenseIn(ts[..i], c)
      invariant forall c :: c in byCategory ==> byCategory[c] == CategoryTotal(ts[..i], c)
    {
      var t := ts[i];
      assert ts[..i + 1] == ts[..i] + [t];
      HasExpenseInSnoc(ts[..i], t);
      if t.kind == Expense {
        var sofar := if t.category in byCategory then byCategory[t.category] else 0.0;
        if t.category !in byCategory {
          CategoryTotalWithoutExpenses(ts[..i], t.category);
        }
        byCategory := byCategory[t.category := sofar + t.amount];
      }
    }
    assert ts[..|ts|] == ts;

    var rows := Rows(byCategory);
    es := SortDescending(rows, AmountKey);
    BreakdownOfRows(rows, es, ts);
  }

  /** `expensesByCategory.map { CategoryExpense(category: $0, amount: $1) }`, in some order of the keys. */
  method Rows(byCategory: map<Category, real>) returns (rows: seq<CategoryExpense>)
    ensures NoDuplicates(EntryCategories(rows))
    ensures forall i :: 0 <= i < |rows| ==>
      rows[i].category in byCategory && rows[i].amount == byCategory[rows[i].category]
    ensures forall c :: c in byCategory <==> c in EntryCategories(rows)
  {
    rows := [];
    var rest := byCategory.Keys;
    while rest != {}
      invariant rest <= byCategory.Keys
      invariant NoDuplicates(EntryCategories(rows))
      invariant forall i :: 0 <= i < |rows| ==>
        rows[i].category in byCategory && rows[i].category !in rest &&
        rows[i].amount == byCategory[rows[i].category]
      invariant forall c :: c in byCategory ==> c in rest || c in EntryCategories(rows)
      decreases rest
    {
      var c :| c in rest;
      var next := rows + [CategoryExpense(c, byCategory[c])];
      assert EntryCategories(next) == EntryCategories(rows) + [c];
      rows, rest := next, rest - {c};
    }
  }

  /** An expense in the list is an expense in the list with one more transaction, and so is the new one. */
  lemma HasExpenseInSnoc(ts: seq<Transaction>, t: Transaction)
    ensures forall c :: HasExpenseIn(ts + [t], c) <==> HasExpenseIn(ts, c) || (t.kind == Expense && t.category == c)
  {
    forall c | HasExpenseIn(ts, c)
      ensures HasExpenseIn(ts + [t], c)
    {
      var i :| 0 <= i < |ts| && ts[i].kind == Expense && ts[i].category == c;
      assert (ts + [t])[i] == ts[i];
    }
    assert (ts + [t])[|ts|] == t;
  }

  /** Rows with distinct categories carrying their totals stay a breakdown once sorted. */
  lemma BreakdownOfRows(rows: seq<CategoryExpense>, es: seq<CategoryExpense>, ts: seq<Transaction>)
    requires multiset(es) == multiset(rows) && Descending(es, AmountKey)
    requires NoDuplicates(EntryCategories(rows))
    requires forall i :: 0 <= i < |rows| ==> rows[i].amount == CategoryTotal(ts, rows[i].category)
    requires forall c :: HasExpenseIn(ts, c) <==> c in EntryCategories(rows)
    ensures IsBreakdown(es, ts)
  {
    RowsWithDistinctCategoriesAreDistinct(rows);
    PermutationNoDuplicates(rows, es);
    SortedRowsKeepAmounts(rows, es, ts);
    SortedRowsKeepCategories(rows, es);
    assert NoDuplicates(EntryCategories(es)) by {
      forall i, j | 0 <= i < j < |es|
        ensures es[i].category != es[j].category
      {
        assert es[i] != es[j];
      }
    }
    BreakdownTotal(es, ts);
  }

  lemma RowsWithDistinctCategoriesAreDistinct(rows: seq<CategoryExpense>)
    requires NoDuplicates(EntryCategories(rows))
    ensures NoDuplicates(rows)
  {
    forall i, j | 0 <= i < j < |rows|
      ensures rows[i] != rows[j]
    {
      assert EntryCategories(rows)[i] != EntryCategories(rows)[j];
    }
  }

  lemma SortedRowsKeepAmounts(rows: seq<CategoryExpense>, es: seq<CategoryExpense>, ts: seq<Transaction>)
    requires multiset(es) == multiset(rows)
    requires forall i :: 0 <= i < |rows| ==> rows[i].amount == CategoryTotal(ts, rows[i].category)
    ensures forall i :: 0 <= i < |es| ==>
      es[i].amount == CategoryTotal(ts, es[i].category) && es[i].category in EntryCategories(rows)
  {
    forall i | 0 <= i < |es|
      ensures es[i].amount == CategoryTotal(ts, es[i].category) && es[i].category in EntryCategories(rows)
    {
      assert es[i] in multiset(rows);
      var j :| 0 <= j < |rows| && rows[j] == es[i];
      assert EntryCategories(rows)[j] == es[i].category;
    }
  }

  lemma SortedRowsKeepCategories(rows: seq<CategoryExpense>, es: seq<CategoryExpense>)
    requires multiset(es) == multiset(rows)
    ensures forall c :: c in EntryCategories(rows) ==> c in EntryCategories(es)
  {
    forall c | c in EntryCategories(rows)
      ensures c in EntryCategories(es)
    {
      var j :| 0 <= j < |rows| && EntryCategories(rows)[j] == c;
      assert rows[j] in multiset(es);
      var i :| 0 <= i < |es| && es[i] == rows[j];
      assert EntryCategories(es)[i] == c;
    }
  }

  /** A permutation of a list without duplicates has none. */
  lemma PermutationNoDuplicates<T>(a: seq<T>, b: seq<T>)
    requires multiset(a) == multiset(b) && NoDuplicates(a)
    ensures NoDuplicates(b)
  {
    NoDuplicatesCountsOne(a);
    forall i, j | 0 <= i < j < |b|
      ensures b[i] != b[j]
    {
      assert b == b[..i] + [b[i]] + b[i + 1..j] + [b[j]] + b[j + 1..];
      assert multiset(b)[b[i]] <= 1;
    }
  }

  lemma {:induction false} NoDuplicatesCountsOne<T>(a: seq<T>)
    requires NoDuplicates(a)
    ensures forall x :: multiset(a)[x] <= 1
  {
    if a != [] {
      assert NoDuplicates(a[1..]) by {
        forall i, j | 0 <= i < j < |a[1..]|
          ensures a[1..][i] != a[1..][j]
        {
          assert a[1..][i] == a[i + 1] && a[1..][j] == a[j + 1];
        }
      }
      NoDuplicatesCountsOne(a[1..]);
      assert a == [a[0]] + a[1..];
      assert a[0] !in a[1..] by {
        forall j | 0 <= j < |a[1..]|
          ensures a[1..][j] != a[0]
        {
          assert a[1..][j] == a[j + 1];
        }
      }
    }
  }

  /**
   * The view-model. Each cached total is nil until first read, then holds the
   * value computed from the transactions of that moment until invalidated.
   */
  class TransactionViewModel {
    var transactions: seq<Transaction>
    var budgets: map<Category, real>
    var categoryExpenses: seq<CategoryExpense>
    var cachedTotalIncome: Option<real>
    var cachedTotalExpenses: Option<real>
    var cachedBalance: Option<real>

    /** Whether every cached total that is present agrees with the current transactions. */
    predicate CachesAgree()
      reads this
    {
      && (cachedTotalIncome.Some? ==> cachedTotalIncome.value == IncomeTotal(transactions))
      && (cachedTotalExpenses.Some? ==> cachedTotalExpenses.value == ExpenseTotal(transactions))
      && (cachedBalance.Some? ==> cachedBalance.value == BalanceOf(transactions))
    }

    /** A fresh view-model: no transactions, no budgets, nothing cached. */
    constructor ()
      ensures transactions == [] && budgets == map[] && categoryExpenses == []
      ensures cachedTotalIncome == None && cachedTotalExpenses == None && cachedBalance == None
    {
      transactions := [];
      budgets := map[];
      categoryExpenses := [];
      cachedTotalIncome := None;
      cachedTotalExpenses := None;
      cachedBalance := None;
    }

    /** `totalIncome`: the cached value if any, else the income total, which is then cached. */
    method TotalIncome() returns (r: real)
      modifies this
      ensures old(cachedTotalIncome).Some? ==> r == old(cachedTotalIncome).value
      ensures old(cachedTotalIncome).None? ==> r == IncomeTotal(transactions)
      ensures old(CachesAgree()) ==> r == IncomeTotal(transactions) && CachesAgree()
      ensures cachedTotalIncome == Some(r)
      ensures transactions == old(transactions) && budgets == old(budgets)
      ensures categoryExpenses == old(categoryExpenses)
      ensures cachedTotalExpenses == old(cachedTotalExpenses) && cachedBalance == old(cachedBalance)
    {
      if cachedTotalIncome.None? {
        cachedTotalIncome := Some(IncomeTotal(transactions));
      }
      r := cachedTotalIncome.value;
    }

    /** `totalExpenses`: the cached value if any, else the expense total, which is then cached. */
    method TotalExpenses() returns (r: real)
      modifies this
      ensures old(cachedTotalExpenses).Some? ==> r == old(cachedTotalExpenses).value
      ensures old(cachedTotalExpenses).None? ==> r == ExpenseTotal(transactions)
      ensures old(CachesAgree()) ==> r == ExpenseTotal(transactions) && CachesAgree()
      ensures cachedTotalExpenses == Some(r)
      ensures transactions == old(transactions) && budgets == old(budgets)
      ensures categoryExpenses == old(categoryExpenses)
      ensures cachedTotalIncome == old(cachedTotalIncome) && cachedBalance == old(cachedBalance)
    {
      if cachedTotalExpenses.None? {
        cachedTotalExpenses := Some(ExpenseTotal(transactions));
      }
      r := cachedTotalExpenses.value;
    }

    /**
     * `balance`: the cached value if any, else the signed sum of the
     * transactions, which is then cached; when computed it is income minus
     * expenses.
     */
    method Balance() returns (r: real)
      modifies this
      ensures old(cachedBalance).Some? ==> r == old(cachedBalance).value
      ensures old(cachedBalance).None? ==> r == IncomeTotal(transactions) - ExpenseTotal(transactions)
      ensures old(CachesAgree()) ==> r == IncomeTotal(transactions) - ExpenseTotal(transactions) && CachesAgree()
      ensures cachedBalance == Some(r)
      ensures transactions == old(transactions) && budgets == old(budgets)
      ensures categoryExpenses == old(categoryExpenses)
      ensures cachedTotalIncome == old(cachedTotalIncome) && cachedTotalExpenses == old(cachedTotalExpenses)
    {
      if cachedBalance.None? {
        cachedBalance := Some(BalanceOf(transactions));
      }
      r := cachedBalance.value;
      BalanceIsIncomeMinusExpenses(transactions);
    }

    /** `invalidateCache()`: forgets all three cached totals. */
    method InvalidateCache()
      modifies this
      ensures cachedTotalIncome == None && cachedTotalExpenses == None && cachedBalance == None
      ensures CachesAgree()
      ensures transactions == old(transactions) && budgets == old(budgets)
      ensures categoryExpenses == old(categoryExpenses)
    {
      cachedTotalIncome := None;
      cachedTotalExpenses := None;
      cachedBalance := None;
    }

    /** `updateCategoryExpenses()`: recomputes the breakdown of the current transactions. */
    method UpdateCategoryExpenses()
      modifies this
      ensures IsBreakdown(categoryExpenses, transactions)
      ensures transactions == old(transactions) && budgets == old(budgets)
      ensures cachedTotalIncome == old(cachedTotalIncome) && cachedTotalExpenses == old(cachedTotalExpenses)
      ensures cachedBalance == old(cachedBalance)
    {
      categoryExpenses := CategoryBreakdown(transactions);
    }

    /**
     * `addTransaction(_:)`: without a selected group, or when the remote write
     * fails, nothing changes; otherwise the transaction is appended, the caches
     * are cleared and the breakdown is recomputed.
     */
    method AddTransaction(t: Transaction, selectedGroup: Option<Group>, remoteOk: bool)
      modifies this
      ensures selectedGroup.None? || !remoteOk ==>
        && transactions == old(transactions) && budgets == old(budgets)
        && categoryExpenses == old(categoryExpenses)
        && cachedTotalIncome == old(cachedTotalIncome) && cachedTotalExpenses == old(cachedTotalExpenses)
        && cachedBalance == old(cachedBalance)
      ensures selectedGroup.Some? && remoteOk ==>
        && transactions == old(transactions) + [t] && budgets == old(budgets)
        && cachedTotalIncome == None && cachedTotalExpenses == None && cachedBalance == None
        && IsBreakdown(categoryExpenses, transactions)
      ensures old(CachesAgree()) ==> CachesAgree()
    {
      if selectedGroup.None? {
        return;
      }
      if remoteOk {
        transactions := transactions + [t];
        InvalidateCache();
        UpdateCategoryExpenses();
      }
    }

    /**
     * `deleteTransaction(_:)`: removes the first transaction with the same id,
     * clears the caches and recomputes the breakdown; without such a
     * transaction nothing changes.
     */
    method DeleteTransaction(t: Transaction)
      modifies this
      ensures FirstIndexOf(old(transactions), t.id).None? ==>
        && transactions == old(transactions) && budgets == old(budgets)
        && categoryExpenses == old(categoryExpenses)
        && cachedTotalIncome == old(cachedTotalIncome) && cachedTotalExpenses == old(cachedTotalExpenses)
        && cachedBalance == old(cachedBalance)
      ensures FirstIndexOf(old(transactions), t.id).Some? ==>
        && transactions == RemoveAt(old(transactions), FirstIndexOf(old(transactions), t.id).value)
        && budgets == old(budgets)
        && cachedTotalIncome == None && cachedTotalExpenses == None && cachedBalance == None
        && IsBreakdown(categoryExpenses, transactions)
      ensures old(CachesAgree()) ==> CachesAgree()
    {
      match FirstIndexOf(transactions, t.id)
      case None =>
      case Some(i) =>
        transactions := RemoveAt(transactions, i);
        InvalidateCache();
        UpdateCategoryExpenses();
    }

    /** `budget(for:)`. */
    function Budget(c: Category): (r: Option<real>)
      reads this
      ensures r.Some? <==> c in budgets
      ensures r.Some? ==> budgets[c] == r.value
    {
      if c in budgets then Some(budgets[c]) else None
    }

    /** `setBudget(_:for:)`: the budget of `c` becomes `amount`; every other budget stays. */
    method SetBudget(amount: real, c: Category)
      modifies this
      ensures Budget(c) == Some(amount)
      ensures forall d :: d != c ==> Budget(d) == old(Budget(d))
      ensures transactions == old(transactions) && categoryExpenses == old(categoryExpenses)
      ensures cachedTotalIncome == old(cachedTotalIncome) && cachedTotalExpenses == old(cachedTotalExpenses)
      ensures cachedBalance == old(cachedBalance)
    {
      budgets := budgets[c := amount];
    }

    /**
     * `clearAllData()`: no transactions and no budgets remain. The caches and
     * the breakdown are left as they were, so totals read before the call are
     * still returned after it.
     */
    method ClearAllData()
      modifies this
      ensures transactions == [] && budgets == map[]
      ensures forall c :: Budget(c) == None
      ensures categoryExpenses == old(categoryExpenses)
      ensures cachedTotalIncome == old(cachedTotalIncome) && cachedTotalExpenses == old(cachedTotalExpenses)
      ensures cachedBalance == old(cachedBalance)
    {
      transactions := [];
      budgets := map[];
    }

    /**
     * `fetchTransactions()`: with a selected group and a successful fetch, the
     * list becomes the fetched transactions and the breakdown is recomputed;
     * the caches are left as they were. Otherwise nothing changes.
     */
    method FetchTransactions(selectedGroup: Option<Group>, fetched: Option<seq<Transaction>>)
      modifies this
      ensures selectedGroup.Some? && fetched.Some? ==>
        && transactions == fetched.value
        && IsBreakdown(categoryExpenses, transactions)
      ensures selectedGroup.None? || fetched.None? ==>
        transactions == old(transactions) && categoryExpenses == old(categoryExpenses)
      ensures budgets == old(budgets)
      ensures cachedTotalIncome == old(cachedTotalIncome) && cachedTotalExpenses == old(cachedTotalExpenses)
      ensures cachedBalance == old(cachedBalance)
    {
      if selectedGroup.None? {
        return;
      }
      if fetched.Some? {
        transactions := fetched.value;
        UpdateCategoryExpenses();
      }
    }
  }

  /**
   * Totals are not recomputed after `clearAllData()`: an income total read
   * before clearing is read again afterwards, although the list is empty.
   */
  method StaleIncomeAfterClear(g: Group, t: Transaction) returns (before: real, after: real)
    requires t.kind == Income && t.amount > 0.0
    ensures before == t.amount && after == t.amount
    ensures after != IncomeTotal([])
  {
    var vm := new TransactionViewModel();
    vm.AddTransaction(t, Some(g), true);
    assert [t][..0] == [];
    before := vm.TotalIncome();
    vm.ClearAllData();
    after := vm.TotalIncome();
  }
}
