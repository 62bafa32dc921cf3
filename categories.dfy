/**
 * The category list view-model: the default categories followed by the
 * custom categories of the selected group, with guarded add, delete and
 * update, and the filter that picks the categories for a transaction type.
 */
module Categories {
  import opened Wrappers
  import opened Domain
  import opened Groups
  import Keypad

  /** `contains(where: { $0.id == id })`. */
  predicate HasId(cs: seq<Category>, id: string) {
    exists i :: 0 <= i < |cs| && cs[i].id == id
  }

  /** Whether no two categories of the list share an id. */
  predicate UniqueIds(cs: seq<Category>) {
    forall i, j :: 0 <= i < j < |cs| ==> cs[i].id != cs[j].id
  }

  /** `extra` appended to `base` one by one, each only when its id is not yet present. */
  function MergeById(base: seq<Category>, extra: seq<Category>): seq<Category> {
    if extra == [] then base
    else
      var m := MergeById(base, extra[..|extra| - 1]);
      var c := extra[|extra| - 1];
      if HasId(m, c.id) then m else m + [c]
  }

  /**
   * Merging keeps `base` as an unchanged prefix, adds only categories of
   * `extra`, leaves every id of `extra` present, and adds no duplicate id.
   */
  lemma {:induction false} MergeById_Properties(base: seq<Category>, extra: seq<Category>)
    ensures var r := MergeById(base, extra);
      && |base| <= |r| <= |base| + |extra|
      && r[..|base|] == base
      && (forall i :: |base| <= i < |r| ==> r[i] in extra)
      && (forall i :: 0 <= i < |extra| ==> HasId(r, extra[i].id))
      && (UniqueIds(base) ==> UniqueIds(r))
  {
    if extra != [] {
      var init, c := extra[..|extra| - 1], extra[|extra| - 1];
      MergeById_Properties(base, init);
      var m := MergeById(base, init);
      var r := MergeById(base, extra);
      forall i | 0 <= i < |extra|
        ensures HasId(r, extra[i].id)
      {
        if i < |extra| - 1 {
          assert init[i] == extra[i];
          var j :| 0 <= j < |m| && m[j].id == extra[i].id;
          assert r[j] == m[j];
        } else if !HasId(m, c.id) {
          assert r[|m|] == c;
        }
      }
      forall i | |base| <= i < |r|
        ensures r[i] in extra
      {
        if i < |m| {
          assert r[i] == m[i] && m[i] in init;
        } else {
          assert r[i] == c;
        }
      }
      if !HasId(m, c.id) {
        assert r == m + [c];
      }
    }
  }

  /** `removeAll { $0.id == id }`: the categories with another id, order kept. */
  function WithoutId(cs: seq<Category>, id: string): seq<Category> {
    if cs == [] then []
    else
      var rest := WithoutId(cs[..|cs| - 1], id);
      if cs[|cs| - 1].id == id then rest else rest + [cs[|cs| - 1]]
  }

  /** No category with the removed id is left. */
  lemma {:induction false} WithoutIdDropsId(cs: seq<Category>, id: string)
    ensures !HasId(WithoutId(cs, id), id)
  {
    if cs != [] {
      WithoutIdDropsId(cs[..|cs| - 1], id);
    }
  }

  /** Every category with another id is kept. */
  lemma {:induction false} WithoutIdKeepsOthers(cs: seq<Category>, id: string)
    ensures forall i :: 0 <= i < |cs| && cs[i].id != id ==> cs[i] in WithoutId(cs, id)
  {
    if cs != [] {
      var init := cs[..|cs| - 1];
      WithoutIdKeepsOthers(init, id);
      forall i | 0 <= i < |cs| - 1 && cs[i].id != id
        ensures cs[i] in WithoutId(cs, id)
      {
        assert cs[i] == init[i];
      }
    }
  }

  /** Removal only drops entries. */
  lemma {:induction false} WithoutIdSubMultiset(cs: seq<Category>, id: string)
    ensures multiset(WithoutId(cs, id)) <= multiset(cs)
  {
    if cs != [] {
      var init := cs[..|cs| - 1];
      WithoutIdSubMultiset(init, id);
      assert cs == init + [cs[|cs| - 1]];
    }
  }

  /** Removal drops every copy of a category with the id and keeps every other one as often as it occurs. */
  lemma {:induction false} WithoutIdCounts(cs: seq<Category>, id: string, c: Category)
    ensures multiset(WithoutId(cs, id))[c] == if c.id == id then 0 else multiset(cs)[c]
  {
    if cs != [] {
      var init := cs[..|cs| - 1];
      WithoutIdCounts(init, id, c);
      assert cs == init + [cs[|cs| - 1]];
    }
  }

  /** Removing an id that is not present changes nothing. */
  lemma {:induction false} WithoutAbsentId(cs: seq<Category>, id: string)
    requires !HasId(cs, id)
    ensures WithoutId(cs, id) == cs
  {
    if cs != [] {
      var init := cs[..|cs| - 1];
      assert !HasId(init, id) by {
        forall i | 0 <= i < |init|
          ensures init[i].id != id
        {
          assert init[i] == cs[i];
        }
      }
      WithoutAbsentId(init, id);
      assert cs == init + [cs[|cs| - 1]];
    }
  }

  /** `firstIndex(where: { $0.id == id })`. */
  function FirstIdIndex(cs: seq<Category>, id: string): (r: Option<nat>)
    ensures r.Some? ==> r.value < |cs| && cs[r.value].id == id
    ensures r.Some? ==> forall j :: 0 <= j < r.value ==> cs[j].id != id
    ensures r.None? <==> !HasId(cs, id)
  {
    if cs == [] then None
    else if cs[0].id == id then Some(0)
    else
      match FirstIdIndex(cs[1..], id)
      case None =>
        assert forall j :: 0 <= j < |cs| && cs[j].id == id ==> j > 0 && cs[1..][j - 1].id == id;
        None
      case Some(i) => Some(i + 1)
  }

  /**
   * `categoriesForType(_:)`: salary, investment and other for income; all but
   * salary and investment for expense.
   */
  function ForType(cs: seq<Category>, kind: TransactionType): seq<Category> {
    if cs == [] then []
    else
      var rest := ForType(cs[..|cs| - 1], kind);
      var c := cs[|cs| - 1];
      var keep := match kind
        case Income => c == Salary || c == Investment || c == Other
        case Expense => c != Salary && c != Investment;
      if keep then rest + [c] else rest
  }

  /** Both filters keep `other`, and every category lands in at least one of them. */
  lemma {:induction false} ForTypeCovers(cs: seq<Category>)
    ensures forall c :: c in cs ==> c in ForType(cs, Income) || c in ForType(cs, Expense)
    ensures Other in cs ==> Other in ForType(cs, Income) && Other in ForType(cs, Expense)
    ensures Salary !in ForType(cs, Expense) && Investment !in ForType(cs, Expense)
    ensures forall c :: c in ForType(cs, Income) ==> c in cs && (c == Salary || c == Investment || c == Other)
  {
    if cs != [] {
      var init := cs[..|cs| - 1];
      ForTypeCovers(init);
      assert cs == init + [cs[|cs| - 1]];
    }
  }

  /** On the defaults, the filter offers exactly what the category picker of the form offers. */
  lemma PickerMatchesFilter(kind: TransactionType)
    ensures ForType(DefaultCategories, kind) == Keypad.PickerCategories(kind)
  {
    match kind
    case Expense => ExpenseFilterOfDefaults();
    case Income => IncomeFilterOfDefaults();
  }

  lemma ExpenseFilterOfDefaults()
    ensures ForType(DefaultCategories, Expense) == [Food, Transport, Entertainment, Shopping, Other]
  {
    var d := DefaultCategories;
    var s := [Food, Transport, Entertainment, Shopping];
    assert ForType(d[..4], Expense) == s by {
      ForTypeKeepsAll(d[..4], Expense);
    }
    assert ForType(d[..5], Expense) == s by {
      assert d[..5][..4] == d[..4];
      assert d[4] == Salary;
    }
    assert ForType(d[..6], Expense) == s by {
      assert d[..6][..5] == d[..5];
      assert d[5] == Investment;
    }
    assert d[..7][..6] == d[..6] && d[..7] == d;
  }

  lemma IncomeFilterOfDefaults()
    ensures ForType(DefaultCategories, Income) == [Salary, Investment, Other]
  {
    var d := DefaultCategories;
    assert ForType(d[..4], Income) == [] by {
      ForTypeDropsAll(d[..4], Income);
    }
    assert ForType(d[..5], Income) == [Salary] by {
      assert d[..5][..4] == d[..4];
    }
    assert ForType(d[..6], Income) == [Salary, Investment] by {
      assert d[..6][..5] == d[..5];
    }
    assert d[..7][..6] == d[..6] && d[..7] == d;
  }

  /** A filter over categories it all keeps is the identity. */
  lemma {:induction false} ForTypeKeepsAll(cs: seq<Category>, kind: TransactionType)
    requires kind == Expense
    requires forall i :: 0 <= i < |cs| ==> cs[i].id != Salary.id && cs[i].id != Investment.id
    ensures ForType(cs, kind) == cs
  {
    if cs != [] {
      ForTypeKeepsAll(cs[..|cs| - 1], kind);
    }
  }

  /** A filter over categories it all drops is empty. */
  lemma {:induction false} ForTypeDropsAll(cs: seq<Category>, kind: TransactionType)
    requires kind == Income
    requires forall i :: 0 <= i < |cs| ==> cs[i].id != Salary.id && cs[i].id != Investment.id && cs[i].id != Other.id
    ensures ForType(cs, kind) == []
  {
    if cs != [] {
      ForTypeDropsAll(cs[..|cs| - 1], kind);
    }
  }

  class CategoryViewModel {
    var categories: seq<Category>

    /** The view-model after its initial `loadCategories()`, here with no group selected. */
    constructor ()
      ensures categories == DefaultCategories
    {
      categories := DefaultCategories;
    }

    /**
     * `loadCategories()`: the list becomes the defaults; with a selected group
     * whose categories were fetched, each fetched category whose id is not yet
     * present is appended.
     */
    method LoadCategories(selectedGroup: Option<Group>, fetched: Option<seq<Category>>)
      modifies this
      ensures selectedGroup.None? || fetched.None? ==> categories == DefaultCategories
      ensures selectedGroup.Some? && fetched.Some? ==> categories == MergeById(DefaultCategories, fetched.value)
    {
      categories := DefaultCategories;
      if selectedGroup.None? {
        return;
      }
      if fetched.None? {
        return;
      }
      var customCategories := fetched.value;
      for i := 0 to |customCategories|
        invariant categories == MergeById(DefaultCategories, customCategories[..i])
      {
        var customCategory := customCategories[i];
        assert customCategories[..i + 1][..i] == customCategories[..i];
        var present := HasIdLoop(categories, customCategory.id);
        if !present {
          categories := categories + [customCategory];
        }
      }
      assert customCategories[..|customCategories|] == customCategories;
    }

    /**
     * `addCategory(_:)`: without a selected group nothing changes; otherwise
     * the category, tagged with the group's id, is appended after a successful
     * remote write unless its id is already present.
     */
    method AddCategory(category: Category, selectedGroup: Option<Group>, remoteOk: bool)
      modifies this
      ensures selectedGroup.None? || !remoteOk ==> categories == old(categories)
      ensures selectedGroup.Some? && remoteOk ==>
        var tagged := category.(groupId := Some(selectedGroup.value.id));
        categories == if HasId(old(categories), category.id) then old(categories) else old(categories) + [tagged]
    {
      if selectedGroup.None? {
        return;
      }
      var newCategory := category.(groupId := Some(selectedGroup.value.id));
      if remoteOk {
        var present := HasIdLoop(categories, newCategory.id);
        if !present {
          categories := categories + [newCategory];
        }
      }
    }

    /**
     * `deleteCategory(_:)`: a default id, a category without a group or of
     * another group than the selected one is refused; otherwise, after a
     * successful remote delete, every category with that id is removed.
     */
    method DeleteCategory(category: Category, selectedGroup: Option<Group>, remoteOk: bool)
      modifies this
      ensures !MayEdit(category, selectedGroup) || !remoteOk ==> categories == old(categories)
      ensures MayEdit(category, selectedGroup) && remoteOk ==> categories == WithoutId(old(categories), category.id)
    {
      var isDefault := IsDefaultIdLoop(category.id);
      if isDefault {
        return;
      }
      if category.groupId.None? || selectedGroup.None? || selectedGroup.value.id != category.groupId.value {
        return;
      }
      if remoteOk {
        categories := WithoutId(categories, category.id);
      }
    }

    /**
     * `updateCategory(_:)`: the same guards as deleting; otherwise, after a
     * successful remote write, the first category with that id is replaced.
     */
    method UpdateCategory(category: Category, selectedGroup: Option<Group>, remoteOk: bool)
      modifies this
      ensures !MayEdit(category, selectedGroup) || !remoteOk ==> categories == old(categories)
      ensures MayEdit(category, selectedGroup) && remoteOk ==>
        match FirstIdIndex(old(categories), category.id)
        case None => categories == old(categories)
        case Some(i) => categories == old(categories)[i := category]
    {
      var isDefault := IsDefaultIdLoop(category.id);
      if isDefault {
        return;
      }
      if category.groupId.None? || selectedGroup.None? || selectedGroup.value.id != category.groupId.value {
        return;
      }
      if remoteOk {
        match FirstIdIndex(categories, category.id)
        case None =>
        case Some(index) =>
          categories := categories[index := category];
      }
    }

    /** `categoriesForType(_:)` on the current list. */
    function CategoriesForType(kind: TransactionType): (r: seq<Category>)
      reads this
      ensures forall c :: c in r ==> c in categories
    {
      ForTypeCovers(categories);
      ForTypeSubset(categories, kind);
      ForType(categories, kind)
    }
  }

  /** A loaded list starts with the defaults, in order, and carries no duplicate id. */
  lemma LoadedListStartsWithDefaults(fetched: seq<Category>)
    ensures var r := MergeById(DefaultCategories, fetched);
      |r| >= |DefaultCategories| && r[..|DefaultCategories|] == DefaultCategories && UniqueIds(r)
  {
    DefaultCategoriesDistinct();
    MergeById_Properties(DefaultCategories, fetched);
  }

  /** Appending a category whose id is absent, as adding does, keeps ids unique. */
  lemma AddKeepsUniqueIds(cs: seq<Category>, c: Category)
    requires UniqueIds(cs) && !HasId(cs, c.id)
    ensures UniqueIds(cs + [c])
  {
    assert forall i :: 0 <= i < |cs| ==> (cs + [c])[i] == cs[i];
  }

  /** Replacing the first category with a given id, as updating does, keeps ids unique. */
  lemma UpdateKeepsUniqueIds(cs: seq<Category>, c: Category)
    requires UniqueIds(cs)
    ensures FirstIdIndex(cs, c.id).Some? ==> UniqueIds(cs[FirstIdIndex(cs, c.id).value := c])
  {
  }

  /**
   * Deleting a category that is not a default keeps every default category,
   * and removes all copies of the deleted id.
   */
  lemma DeleteKeepsDefaults(cs: seq<Category>, category: Category, selectedGroup: Option<Group>)
    requires MayEdit(category, selectedGroup)
    ensures forall i :: 0 <= i < |cs| && cs[i] in DefaultCategories ==> cs[i] in WithoutId(cs, category.id)
    ensures !HasId(WithoutId(cs, category.id), category.id)
  {
    WithoutIdKeepsOthers(cs, category.id);
    WithoutIdDropsId(cs, category.id);
    forall i | 0 <= i < |cs| && cs[i] in DefaultCategories
      ensures cs[i].id != category.id
    {
      var j :| 0 <= j < |DefaultCategories| && DefaultCategories[j] == cs[i];
      assert DefaultCategories[j].id == cs[i].id;
    }
  }

  /** Every category the filter keeps comes from the list. */
  lemma {:induction false} ForTypeSubset(cs: seq<Category>, kind: TransactionType)
    ensures forall c :: c in ForType(cs, kind) ==> c in cs
  {
    if cs != [] {
      ForTypeSubset(cs[..|cs| - 1], kind);
      assert cs == cs[..|cs| - 1] + [cs[|cs| - 1]];
    }
  }

  /** The guard shared by delete and update: not a default, and tagged with the selected group's id. */
  predicate MayEdit(category: Category, selectedGroup: Option<Group>) {
    && !IsDefaultId(category.id)
    && category.groupId.Some? && selectedGroup.Some? && selectedGroup.value.id == category.groupId.value
  }

  /** `contains(where:)` as the linear scan it is. */
  method HasIdLoop(cs: seq<Category>, id: string) returns (found: bool)
    ensures found <==> HasId(cs, id)
  {
    found := false;
    for i := 0 to |cs|
      invariant found <==> HasId(cs[..i], id)
    {
      if cs[i].id == id {
        found := true;
      }
      assert cs[..i + 1][i] == cs[i];
      assert forall j :: 0 <= j < i ==> cs[..i + 1][j] == cs[..i][j];
    }
    assert cs[..|cs|] == cs;
  }

  /** `Category.defaultCategories.contains(where: { $0.id == id })`. */
  method IsDefaultIdLoop(id: string) returns (found: bool)
    ensures found <==> IsDefaultId(id)
  {
    found := HasIdLoop(DefaultCategories, id);
  }
}
