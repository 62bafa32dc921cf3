/**
 * The pure parts of the Firestore-backed service: the sign-in nonce's
 * character mapping, and the translation between stored documents and
 * groups, transactions and custom categories.
 */
module FirebaseCodec {
  import opened Wrappers
  import opened Domain
  import opened Groups
  import opened HexColor
  import HexColorRoundTrip

  // ---------------------------------------------------------------- nonce

  /** `n` consecutive characters starting at `first`. */
  function CharRun(first: char, n: nat): (s: string)
    requires first as int + n <= 0xD800
    ensures |s| == n && forall i :: 0 <= i < n ==> s[i] as int == first as int + i
  {
    seq(n, i requires 0 <= i < n => (first as int + i) as char)
  }

  /** The nonce alphabet: `0-9`, `A-V`, `X-Z` (no `W`), `a-z`, then `-._`. */
  const NonceCharset: string :=
    CharRun('0', 10) + CharRun('A', 22) + CharRun('X', 3) + CharRun('a', 26) + "-._"

  /**
   * `randomNonceString(length:)` with the random bytes as input: each byte
   * picks the alphabet character at its value modulo the alphabet's size.
   */
  function RandomNonceString(bytes: seq<bv8>): (r: string)
    requires |bytes| > 0
    ensures |r| == |bytes|
    ensures forall i :: 0 <= i < |r| ==> r[i] in NonceCharset && r[i] != 'W'
  {
    NonceCharsetShape();
    seq(|bytes|, i requires 0 <= i < |bytes| => NonceCharset[bytes[i] as int % |NonceCharset|])
  }

  /** Where a character sits in the nonce alphabet. */
  function NonceIndex(c: char): int {
    if '0' <= c <= '9' then c as int - '0' as int
    else if 'A' <= c <= 'V' then 10 + (c as int - 'A' as int)
    else if 'X' <= c <= 'Z' then 32 + (c as int - 'X' as int)
    else if 'a' <= c <= 'z' then 35 + (c as int - 'a' as int)
    else if c == '-' then 61
    else if c == '.' then 62
    else 63
  }

  /** The alphabet has 64 pairwise distinct characters and no `W`. */
  lemma NonceCharsetShape()
    ensures |NonceCharset| == 64
    ensures forall i :: 0 <= i < 64 ==> NonceIndex(NonceCharset[i]) == i
    ensures 'W' !in NonceCharset
  {
    forall i | 0 <= i < 64
      ensures NonceIndex(NonceCharset[i]) == i && NonceCharset[i] != 'W'
    {
    }
  }

  /**
   * Two nonces agree exactly when their bytes agree modulo 64: the mapping
   * loses the top two bits of each byte and nothing else.
   */
  lemma NonceDeterminesResidues(a: seq<bv8>, b: seq<bv8>)
    requires |a| > 0 && |b| > 0
    ensures RandomNonceString(a) == RandomNonceString(b) <==>
      |a| == |b| && forall i :: 0 <= i < |a| ==> a[i] as int % 64 == b[i] as int % 64
  {
    NonceCharsetShape();
    var x, y := RandomNonceString(a), RandomNonceString(b);
    if x == y {
      forall i | 0 <= i < |a|
        ensures a[i] as int % 64 == b[i] as int % 64
      {
        assert NonceIndex(x[i]) == a[i] as int % 64;
        assert NonceIndex(y[i]) == b[i] as int % 64;
      }
    }
  }

  // ---------------------------------------------------------------- documents

  /** A stored document: its id and its fields. */
  datatype Document = Document(id: string, data: Fields)

  /** `compactMap`: the present results of `f` over `xs`, in order. */
  function CompactMap<A, B>(xs: seq<A>, f: A -> Option<B>): seq<B> {
    if xs == [] then []
    else
      var rest := CompactMap(xs[..|xs| - 1], f);
      match f(xs[|xs| - 1])
      case None => rest
      case Some(y) => rest + [y]
  }

  /** `compactMap` over a concatenation is the concatenation of the two. */
  lemma {:induction false} CompactMapAppend<A, B>(xs: seq<A>, ys: seq<A>, f: A -> Option<B>)
    ensures CompactMap(xs + ys, f) == CompactMap(xs, f) + CompactMap(ys, f)
    decreases |ys|
  {
    if ys == [] {
      assert xs + ys == xs;
    } else {
      var ys' := ys[..|ys| - 1];
      assert (xs + ys)[..|xs + ys| - 1] == xs + ys';
      CompactMapAppend(xs, ys', f);
    }
  }

  /**
   * Every result of `compactMap` is the present result of some input, and
   * every input with a present result contributes it.
   */
  lemma {:induction false} CompactMapMembers<A, B>(xs: seq<A>, f: A -> Option<B>)
    ensures |CompactMap(xs, f)| <= |xs|
    ensures forall y :: y in CompactMap(xs, f) ==> exists x :: x in xs && f(x) == Some(y)
    ensures forall x :: x in xs && f(x).Some? ==> f(x).value in CompactMap(xs, f)
  {
    if xs != [] {
      var init, last := xs[..|xs| - 1], xs[|xs| - 1];
      CompactMapMembers(init, f);
      assert xs == init + [last];
    }
  }

  /** When every input has a result, `compactMap` is a plain `map`. */
  lemma {:induction false} CompactMapAllPresent<A, B>(xs: seq<A>, f: A -> Option<B>)
    requires forall i :: 0 <= i < |xs| ==> f(xs[i]).Some?
    ensures |CompactMap(xs, f)| == |xs|
    ensures forall i :: 0 <= i < |xs| ==> CompactMap(xs, f)[i] == f(xs[i]).value
  {
    if xs != [] {
      var init := xs[..|xs| - 1];
      CompactMapAllPresent(init, f);
      assert forall i :: 0 <= i < |init| ==> init[i] == xs[i];
    }
  }

  // ---------------------------------------------------------------- groups

  /** One group document: a string `name` and `owner` and a string-array `members` are required. */
  function DecodeGroup(doc: Document, now: Date): (r: Option<Group>)
    ensures r.Some? <==>
      StringField(doc.data, "name").Some? && StringField(doc.data, "owner").Some? &&
      StringArrayField(doc.data, "members").Some?
    ensures r.Some? ==>
      && r.value.id == doc.id && r.value.createdAt == now
      && doc.data["name"] == Str(r.value.name)
      && doc.data["owner"] == Str(r.value.owner)
      && doc.data["members"] == StringList(r.value.members)
  {
    match (StringField(doc.data, "name"), StringField(doc.data, "owner"), StringArrayField(doc.data, "members"))
    case (Some(name), Some(owner), Some(members)) => Some(MakeGroup(doc.id, name, owner, now, members))
    case _ => None
  }

  /** `fetchGroups()`'s decoding: the well-formed group documents, in order. */
  function DecodeGroups(docs: seq<Document>, now: Date): seq<Group> {
    CompactMap(docs, d => DecodeGroup(d, now))
  }

  /** The fields `createGroup(name:)` writes for a new group. */
  function GroupData(name: string, owner: string): (data: Fields)
    ensures data.Keys == {"name", "owner", "members", "createdAt"}
  {
    map["name" := Str(name), "owner" := Str(owner), "members" := StringList([owner]),
        "createdAt" := ServerTimestamp]
  }

  /** A group document as `createGroup` writes it reads back as the group it appended locally. */
  lemma CreatedGroupReadsBack(id: string, name: string, owner: string, now: Date)
    ensures DecodeGroup(Document(id, GroupData(name, owner)), now) == Some(MakeGroup(id, name, owner, now, [owner]))
  {
    StringListRoundTrip([owner], GroupData(name, owner), "members");
  }

  /** Decoding keeps each well-formed document's id, and a fetched list is no longer than the snapshot. */
  lemma DecodedGroupsComeFromDocuments(docs: seq<Document>, now: Date)
    ensures |DecodeGroups(docs, now)| <= |docs|
    ensures forall g :: g in DecodeGroups(docs, now) ==> exists d :: d in docs && d.id == g.id
  {
    CompactMapMembers(docs, d => DecodeGroup(d, now));
  }

  // ---------------------------------------------------------------- transactions

  /** `Category.defaultCategories.first(where: { $0.name == name })`. */
  function DefaultNamed(name: string): (r: Option<Category>)
    ensures r.Some? ==> r.value in DefaultCategories && r.value.name == name
    ensures r.None? <==> forall i :: 0 <= i < |DefaultCategories| ==> DefaultCategories[i].name != name
  {
    FirstNamed(DefaultCategories, name)
  }

  function FirstNamed(cs: seq<Category>, name: string): (r: Option<Category>)
    ensures r.Some? ==> r.value in cs && r.value.name == name
    ensures r.None? <==> forall i :: 0 <= i < |cs| ==> cs[i].name != name
  {
    if cs == [] then None
    else if cs[0].name == name then Some(cs[0])
    else
      var r := FirstNamed(cs[1..], name);
      assert forall i :: 1 <= i < |cs| ==> cs[i] == cs[1..][i - 1];
      r
  }

  /**
   * The category of a transaction document: the four new-format fields if all
   * are strings (an unreadable colour becomes `gray`), else the default
   * category named by the legacy `category` string, else `other`.
   */
  function ResolveCategory(data: Fields, gray: Color): (c: Category)
    ensures HasNewFormat(data) ==>
      && data["categoryId"] == Str(c.id) && data["categoryName"] == Str(c.name)
      && data["categoryIcon"] == Str(c.icon) && c.groupId == None
      && c.color == ColorFromHex(data["categoryColorHex"].s).GetOr(gray)
    ensures !HasNewFormat(data) && LegacyName(data).Some? && DefaultNamed(LegacyName(data).value).Some? ==>
      c in DefaultCategories && Str(c.name) == data["category"]
    ensures !HasNewFormat(data) && (LegacyName(data).None? || DefaultNamed(LegacyName(data).value).None?) ==>
      c == Other
  {
    if HasNewFormat(data) then
      var hex := data["categoryColorHex"].s;
      Category(data["categoryId"].s, data["categoryName"].s, data["categoryIcon"].s,
               ColorFromHex(hex).GetOr(gray), None)
    else
      match LegacyName(data)
      case Some(name) => DefaultNamed(name).GetOr(Other)
      case None => Other
  }

  /** Whether `categoryId`, `categoryName`, `categoryIcon` and `categoryColorHex` are all strings. */
  predicate HasNewFormat(data: Fields) {
    && StringField(data, "categoryId").Some? && StringField(data, "categoryName").Some?
    && StringField(data, "categoryIcon").Some? && StringField(data, "categoryColorHex").Some?
  }

  /** The legacy `category` string. */
  function LegacyName(data: Fields): Option<string> {
    StringField(data, "category")
  }

  /**
   * One transaction document: a string title, a number amount, a timestamp
   * date and a string type that names a transaction type are required; the
   * note is whatever string is stored, if any.
   */
  function DecodeTransaction(doc: Document, gray: Color): (r: Option<Transaction>)
    ensures r.Some? <==>
      && StringField(doc.data, "title").Some? && NumberField(doc.data, "amount").Some?
      && DateField(doc.data, "date").Some? && StringField(doc.data, "type").Some?
      && TypeFromRawValue(doc.data["type"].s).Some?
    ensures r.Some? ==>
      && r.value.id == doc.id
      && doc.data["title"] == Str(r.value.title)
      && doc.data["amount"] == Number(r.value.amount)
      && doc.data["date"] == Stamp(r.value.date)
      && doc.data["type"] == Str(TypeRawValue(r.value.kind))
      && r.value.category == ResolveCategory(doc.data, gray)
      && r.value.note == StringField(doc.data, "note")
  {
    match (StringField(doc.data, "title"), NumberField(doc.data, "amount"), DateField(doc.data, "date"),
           StringField(doc.data, "type"))
    case (Some(title), Some(amount), Some(date), Some(typeString)) =>
      (match TypeFromRawValue(typeString)
       case None => None
       case Some(kind) =>
         Some(Transaction(doc.id, title, amount, date, ResolveCategory(doc.data, gray), kind,
                          StringField(doc.data, "note"))))
    case _ => None
  }

  /** `fetchTransactions(groupID:)`'s decoding: the well-formed documents, in order. */
  function DecodeTransactions(docs: seq<Document>, gray: Color): seq<Transaction> {
    CompactMap(docs, d => DecodeTransaction(d, gray))
  }

  /** Which server timestamp a transaction write carries. */
  datatype WriteKind = Create | Update

  function StampKey(kind: WriteKind): string {
    match kind
    case Create => "createdAt"
    case Update => "updatedAt"
  }

  /** The colour hex written for a category: `toHex()`, or `#808080` when there is none. */
  function StoredHex(color: Color): string {
    ToHex(color).GetOr("#808080")
  }

  /**
   * The fields `addTransaction` (with a new document id) and
   * `updateTransaction` (with the transaction's own id) write.
   */
  function EncodeTransaction(t: Transaction, id: string, kind: WriteKind): (data: Fields)
    ensures data.Keys == {"id", "title", "amount", "date", "categoryId", "categoryName",
                          "categoryIcon", "categoryColorHex", "type", "note", StampKey(kind)}
  {
    map["id" := Str(id), "title" := Str(t.title), "amount" := Number(t.amount),
        "date" := Stamp(t.date), "categoryId" := Str(t.category.id),
        "categoryName" := Str(t.category.name), "categoryIcon" := Str(t.category.icon),
        "categoryColorHex" := Str(StoredHex(t.category.color)),
        "type" := Str(TypeRawValue(t.kind)), "note" := Str(t.note.GetOr("")),
        StampKey(kind) := ServerTimestamp]
  }

  /**
   * A written transaction reads back with the document's id, every scalar
   * field, the category's id, name and icon, no group, the colour its hex
   * parses to, and a note that is present (empty when there was none).
   */
  lemma {:induction false} TransactionReadsBack(t: Transaction, id: string, kind: WriteKind, gray: Color)
    ensures DecodeTransaction(Document(id, EncodeTransaction(t, id, kind)), gray) ==
      Some(Transaction(id, t.title, t.amount, t.date,
                       t.category.(color := ColorFromHex(StoredHex(t.category.color)).GetOr(gray), groupId := None),
                       t.kind, Some(t.note.GetOr(""))))
  {
    var data := EncodeTransaction(t, id, kind);
    EncodedFields(t, id, kind);
    TypeRawValueRoundTrip(t.kind);
    assert HasNewFormat(data);
  }

  /** What each field of a written transaction holds. */
  lemma EncodedFields(t: Transaction, id: string, kind: WriteKind)
    ensures var data := EncodeTransaction(t, id, kind);
      && data["id"] == Str(id)
      && data["title"] == Str(t.title) && data["amount"] == Number(t.amount)
      && data["date"] == Stamp(t.date) && data["type"] == Str(TypeRawValue(t.kind))
      && data["categoryId"] == Str(t.category.id) && data["categoryName"] == Str(t.category.name)
      && data["categoryIcon"] == Str(t.category.icon)
      && data["categoryColorHex"] == Str(StoredHex(t.category.color))
      && data["note"] == Str(t.note.GetOr(""))
  {
  }

  /**
   * A transaction with a note, a group-less category and a colour made of
   * three channel bytes survives a write and a read unchanged.
   */
  lemma TransactionRoundTrip(t: Transaction, rgb: Rgb, kind: WriteKind, gray: Color)
    requires IsByte(rgb.red) && IsByte(rgb.green) && IsByte(rgb.blue)
    requires t.category.color == ColorOf(rgb) && t.category.groupId == None && t.note.Some?
    ensures DecodeTransaction(Document(t.id, EncodeTransaction(t, t.id, kind)), gray) == Some(t)
  {
    TransactionReadsBack(t, t.id, kind, gray);
    HexColorRoundTrip.ColorHexRoundTrip(rgb);
  }

  /** A transaction without a note reads back with an empty note, not without one. */
  lemma MissingNoteReadsBackEmpty(t: Transaction, id: string, kind: WriteKind, gray: Color)
    requires t.note.None?
    ensures DecodeTransaction(Document(id, EncodeTransaction(t, id, kind)), gray).value.note == Some("")
  {
    TransactionReadsBack(t, id, kind, gray);
  }

  /** A category colour without components is stored as `#808080` and reads back as that mid grey. */
  lemma MissingColorReadsBackGrey(t: Transaction, id: string, kind: WriteKind, gray: Color)
    requires t.category.color.components.None?
    ensures DecodeTransaction(Document(id, EncodeTransaction(t, id, kind)), gray).value.category.color ==
      ColorOf(Rgb(0x80, 0x80, 0x80))
  {
    TransactionReadsBack(t, id, kind, gray);
    assert StoredHex(t.category.color) == "#808080";
    GreyHexParses();
  }

  /** `#808080` parses to the colour with three channels of 0x80. */
  lemma GreyHexParses()
    ensures ColorFromHex("#808080") == Some(ColorOf(Rgb(0x80, 0x80, 0x80)))
  {
    var grey := Rgb(0x80, 0x80, 0x80);
    assert HexByte(0x80) == "80" by {
      assert UpperHexDigit(8) == '8' && UpperHexDigit(0) == '0';
    }
    assert HexString(grey) == "#808080";
    HexColorRoundTrip.HexStringRoundTrip(grey);
  }

  // ---------------------------------------------------------------- categories

  /**
   * One custom-category document of a group: a string `name`, `icon` and
   * `colorHex` are required; an unreadable colour becomes `gray`.
   */
  function DecodeCategory(doc: Document, groupId: string, gray: Color): (r: Option<Category>)
    ensures r.Some? <==>
      StringField(doc.data, "name").Some? && StringField(doc.data, "icon").Some? &&
      StringField(doc.data, "colorHex").Some?
    ensures r.Some? ==>
      && r.value.id == doc.id && r.value.groupId == Some(groupId)
      && doc.data["name"] == Str(r.value.name) && doc.data["icon"] == Str(r.value.icon)
      && r.value.color == ColorFromHex(doc.data["colorHex"].s).GetOr(gray)
  {
    match (StringField(doc.data, "name"), StringField(doc.data, "icon"), StringField(doc.data, "colorHex"))
    case (Some(name), Some(icon), Some(colorHex)) =>
      Some(Category(doc.id, name, icon, ColorFromHex(colorHex).GetOr(gray), Some(groupId)))
    case _ => None
  }

  /** `fetchCategories(groupID:)`'s result: the well-formed category documents, in order. */
  function DecodeCategories(docs: seq<Document>, groupId: string, gray: Color): seq<Category> {
    CompactMap(docs, d => DecodeCategory(d, groupId, gray))
  }

  /** Every fetched category belongs to the group it was fetched for and has a document's id. */
  lemma FetchedCategoriesBelongToGroup(docs: seq<Document>, groupId: string, gray: Color)
    ensures forall c :: c in DecodeCategories(docs, groupId, gray) ==>
      c.groupId == Some(groupId) && exists d :: d in docs && d.id == c.id
  {
    CompactMapMembers(docs, d => DecodeCategory(d, groupId, gray));
  }
}
