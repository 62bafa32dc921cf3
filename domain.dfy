/**
 * The records the app keeps in memory and stores in documents: transactions,
 * their type, categories and their colours, and the dynamically typed field
 * values of a stored document.
 */
module Domain {
  import opened Wrappers

  /** A point in time. Only the order of dates matters to the model. */
  type Date = int

  /** Whether a transaction adds to or takes from the balance. */
  datatype TransactionType = Income | Expense

  /** The stored spelling of a transaction type (its Swift raw value). */
  function TypeRawValue(t: TransactionType): string {
    match t
    case Income => "收入"
    case Expense => "支出"
  }

  /** `TransactionType(rawValue:)`: nil for any string that is not a raw value. */
  function TypeFromRawValue(s: string): (r: Option<TransactionType>)
    ensures r.Some? ==> TypeRawValue(r.value) == s
    ensures (exists t :: TypeRawValue(t) == s) ==> r.Some?
  {
    if s == TypeRawValue(Income) then Some(Income)
    else if s == TypeRawValue(Expense) then Some(Expense)
    else None
  }

  /** Decoding the stored spelling of a type gives that type back. */
  lemma TypeRawValueRoundTrip(t: TransactionType)
    ensures TypeFromRawValue(TypeRawValue(t)) == Some(t)
  {
  }

  /**
   * A colour, seen through the component list the platform reports for it
   * (`UIColor(color).cgColor.components`): absent when the platform has none.
   */
  datatype Color = Color(components: Option<seq<real>>)

  /** A category label; custom categories carry the id of their group. */
  datatype Category = Category(id: string, name: string, icon: string, color: Color, groupId: Option<string>)

  /** The built-in categories, in the order of the enum's cases. */
  const Food := Category("food", "食物", "🍽️", Color(None), None)
  const Transport := Category("transport", "交通", "🚗", Color(None), None)
  const Entertainment := Category("entertainment", "娛樂", "🎮", Color(None), None)
  const Shopping := Category("shopping", "購物", "🛍️", Color(None), None)
  const Salary := Category("salary", "薪資", "💰", Color(None), None)
  const Investment := Category("investment", "投資", "📈", Color(None), None)
  const Other := Category("other", "其他", "📦", Color(None), None)

  const DefaultCategories: seq<Category> :=
    [Food, Transport, Entertainment, Shopping, Salary, Investment, Other]

  /** Whether some default category has the id `id`. */
  predicate IsDefaultId(id: string) {
    exists i :: 0 <= i < |DefaultCategories| && DefaultCategories[i].id == id
  }

  /** Defaults have pairwise distinct ids and pairwise distinct names. */
  lemma DefaultCategoriesDistinct()
    ensures forall i, j :: 0 <= i < j < |DefaultCategories| ==>
      DefaultCategories[i].id != DefaultCategories[j].id &&
      DefaultCategories[i].name != DefaultCategories[j].name
  {
  }

  /** One income or expense record. `kind` says whether the amount counts as income or as expense; the sign of the amount itself is not checked. */
  datatype Transaction = Transaction(
    id: string,
    title: string,
    amount: real,
    date: Date,
    category: Category,
    kind: TransactionType,
    note: Option<string>)

  /** A field value of a stored document or record, as the SDK hands it back. */
  datatype Value =
    | Str(s: string)
    | Number(x: real)
    | Stamp(date: Date)
    | List(items: seq<Value>)
    | ServerTimestamp

  /** A stored document's fields by name. */
  type Fields = map<string, Value>

  /** `data[key] as? String`. */
  function StringField(data: Fields, key: string): (r: Option<string>)
    ensures r.Some? <==> key in data && data[key].Str?
    ensures r.Some? ==> data[key] == Str(r.value)
  {
    if key in data && data[key].Str? then Some(data[key].s) else None
  }

  /** `data[key] as? Double`. */
  function NumberField(data: Fields, key: string): (r: Option<real>)
    ensures r.Some? <==> key in data && data[key].Number?
    ensures r.Some? ==> data[key] == Number(r.value)
  {
    if key in data && data[key].Number? then Some(data[key].x) else None
  }

  /** `(data[key] as? Timestamp)?.dateValue()`. */
  function DateField(data: Fields, key: string): (r: Option<Date>)
    ensures r.Some? <==> key in data && data[key].Stamp?
    ensures r.Some? ==> data[key] == Stamp(r.value)
  {
    if key in data && data[key].Stamp? then Some(data[key].date) else None
  }

  /** Whether every item of a list is a string. */
  predicate AllStrings(items: seq<Value>) {
    forall i :: 0 <= i < |items| ==> items[i].Str?
  }

  /** The strings of a list whose items are all strings. */
  function Strings(items: seq<Value>): (r: seq<string>)
    requires AllStrings(items)
    ensures |r| == |items|
    ensures forall i :: 0 <= i < |items| ==> items[i] == Str(r[i])
  {
    if items == [] then [] else [items[0].s] + Strings(items[1..])
  }

  /** A string list stored as a list value. */
  function StringList(xs: seq<string>): (r: Value)
    ensures r.List? && |r.items| == |xs|
    ensures forall i :: 0 <= i < |xs| ==> r.items[i] == Str(xs[i])
  {
    List(seq(|xs|, i requires 0 <= i < |xs| => Str(xs[i])))
  }

  /** `data[key] as? [String]`: only a list whose every item is a string. */
  function StringArrayField(data: Fields, key: string): (r: Option<seq<string>>)
    ensures r.Some? <==> key in data && data[key].List? && AllStrings(data[key].items)
    ensures r.Some? ==> data[key] == StringList(r.value)
  {
    if key in data && data[key].List? && AllStrings(data[key].items) then
      var xs := Strings(data[key].items);
      assert data[key].items == StringList(xs).items;
      Some(xs)
    else None
  }

  /** Reading back a stored string list gives the list. */
  lemma {:induction false} StringListRoundTrip(xs: seq<string>, data: Fields, key: string)
    requires key in data && data[key] == StringList(xs)
    ensures StringArrayField(data, key) == Some(xs)
  {
    var r := StringArrayField(data, key);
    assert r.Some?;
    assert |r.value| == |xs|;
    assert forall i :: 0 <= i < |xs| ==> Str(r.value[i]) == Str(xs[i]);
    assert r.value == xs;
  }
}
