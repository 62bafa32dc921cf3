# nomis — a verified model of the bookkeeping core

nomis is an iOS expense tracker. A user signs in and creates or joins a *group*,
a shared ledger. The members of a group record income and expense
*transactions* against *categories*, which are the seven built-in ones plus the
group's custom categories. The app keeps these in Firestore and shows totals,
budgets and a breakdown of spending by category.

This project models the parts of the app that decide what the user's data is:

- **`Ledger.TransactionViewModel`** (ledger.dfy, with its reference functions
  in ledger_spec.dfy). This is the in-memory ledger.
  - Income, expense and balance totals are cached. The caches are dropped on
    add and delete.
  - The per-category expense breakdown is sorted by amount, largest first.
  - Budgets are kept per category.
  - The view model also provides the ten latest transactions, the spending in
    one category, and the distinct titles among a category's five latest
    entries.
  - `clearAllData` resets the transactions and budgets but not the caches.
    `Ledger.StaleIncomeAfterClear` shows that a cached income total survives
    a clear, which is what the app does.
- **`Keypad.AddTransactionForm`** (keypad.dfy). This is the add-transaction
  screen.
  - The calculator keypad edits the amount string. `Keypad.Press` is its
    transition function.
  - `=` evaluates a `a op b` expression and writes the result back with two
    decimals.
  - Saving checks the title and amount and hands the new transaction to the
    ledger.
- **`Categories.CategoryViewModel`** (categories.dfy). This is the category
  list.
  - The built-in categories are merged with the group's custom ones by id.
  - Adding, deleting and updating are guarded: built-in categories and other
    groups' categories cannot be changed.
  - The list can be filtered for income or for expense.
- **`Firebase.FirebaseService`** (firebase.dfy) is the service's local
  bookkeeping of groups:
  - creating, fetching and selecting groups;
  - adding members;
  - deleting groups, which only the owner may do.

  It also models the shape of every transaction write the service sends, and
  the read permission checked before fetching.
- **`FirebaseCodec`** (firebase_codec.dfy) covers how documents are read and
  written:
  - Groups and transactions are encoded to and decoded from Firestore
    documents.
  - A category is resolved in three tiers: new-format fields, then a legacy
    name, then `other`.
  - Custom categories are decoded.
  - The sign-in nonce maps random bytes onto a 64-character alphabet.
- **`HexColor`** and **`HexColorRoundTrip`** (color_hex.dfy,
  color_hex_round_trip.dfy) cover the colour extension:
  - `Color(hex:)` trims whitespace, drops `#`, scans a 64-bit hex number and
    takes its low three bytes.
  - `toHex()` truncates each component times 255 and formats it as `%02lX`.
  - Both directions are proved to be inverse on byte colours.
- **`Groups`** (group.dfy) is the `Group` value type: its initialiser,
  identity by id, and its CloudKit record conversion with the proved round
  trip.

Shared types live in `Domain` (domain.dfy): transactions, categories, colours
and stored field values. `Wrappers` (wrappers.dfy) holds `Option` and
`Outcome`.

Effects outside the app become inputs:

- The result of a remote call is a `remoteOk: bool` or an `Option` snapshot.
- Document ids, UUIDs, the current time and the platform's grey colour are
  parameters.
- The random bytes of the nonce are an input.

## Model

| member | source | states |
|---|---|---|
| Domain.TypeFromRawValue | nomis/Models/Category.swift:25-28 | a stored type string decodes exactly when it is the raw value of a transaction type |
| Domain.TypeRawValueRoundTrip | nomis/Models/Category.swift:25-28 | decoding the raw value of a type gives that type back |
| Domain.DefaultCategoriesDistinct | nomis/Models/Category.swift:3-22 | the seven built-in categories have pairwise distinct ids and names |
| Domain.StringField | nomis/Services/FirebaseService.swift:165-166 | `data[key] as? String` succeeds exactly when the key holds a string, and returns that string |
| Domain.NumberField | nomis/Services/FirebaseService.swift:252-253 | `data["amount"] as? Double` succeeds exactly when the key holds a number |
| Domain.DateField | nomis/Services/FirebaseService.swift:254 | `(data["date"] as? Timestamp)?.dateValue()` succeeds exactly when the key holds a timestamp |
| Domain.StringArrayField | nomis/Services/FirebaseService.swift:167 | `as? [String]` succeeds exactly when the key holds a list of strings, and returns it |
| Domain.StringListRoundTrip | nomis/Services/FirebaseService.swift:136-167 | a string list that was written reads back unchanged |
| Groups.MakeGroup | nomis/Models/Group.swift:11-17 | the initialiser stores every argument as given |
| Groups.MakeGroupDefaultsMembers | nomis/Models/Group.swift:11 | a group made without members has none |
| Groups.SameGroupIsIdEquality | nomis/Models/Group.swift:42-44 | group equality is an equivalence that compares ids only and ignores every other field |
| Groups.FromRecord | nomis/Models/Group.swift:20-31 | a record converts exactly when name and owner are strings; the id is the record name, members default to none and the date to now |
| Groups.ToRecord | nomis/Models/Group.swift:33-39 | a "Group" record with exactly the name, owner and members fields |
| Groups.RecordRoundTrip | nomis/Models/Group.swift:20-39 | converting a group to a record and back keeps name, owner and members, and takes the id from the record name |
| Groups.RecordRoundTripSameGroup | nomis/Models/Group.swift:20-44 | the group read back equals the original exactly when the record is named by the group's id |
| HexColor.UpperHexDigit | nomis/Extensions/ColorExtension.swift:56 | each value below 16 gets an upper-case hex digit of that value |
| HexColor.TrimStartIsSuffix | nomis/Extensions/ColorExtension.swift:30 | leading trimming leaves a suffix that does not start with whitespace, and removes only whitespace |
| HexColor.TrimEndIsPrefix | nomis/Extensions/ColorExtension.swift:30 | trailing trimming leaves a prefix that does not end with whitespace, and removes only whitespace |
| HexColor.TrimIsInfix | nomis/Extensions/ColorExtension.swift:30 | trimming returns an infix with whitespace only around it and none at either end |
| HexColor.RemoveHashesKeepsOthers | nomis/Extensions/ColorExtension.swift:31 | removing `#` leaves no `#` and keeps every other character, with its count |
| HexColor.HexDigitsPrefix | nomis/Extensions/ColorExtension.swift:35 | the longest prefix made of hex digits |
| HexColor.ScanHexInt64 | nomis/Extensions/ColorExtension.swift:35 | the scan fails exactly when the first non-blank character is not a hex digit, and its value fits in 64 bits |
| HexColor.Channels | nomis/Extensions/ColorExtension.swift:39-41 | masking and shifting gives three byte values |
| HexColor.ChannelsIgnoreHighBits | nomis/Extensions/ColorExtension.swift:39-41 | bits above the low 24 do not change the colour |
| HexColor.ChannelsOfBytes | nomis/Extensions/ColorExtension.swift:39-41 | packing three bytes and unpacking them gives the same bytes |
| HexColor.ParseHexColorFails | nomis/Extensions/ColorExtension.swift:29-44 | `Color(hex:)` is nil exactly when the sanitised string starts with no hex digit; otherwise its channels are bytes |
| HexColor.ColorFromHex | nomis/Extensions/ColorExtension.swift:29-44 | a colour is built exactly when the hex string parses |
| HexColor.UpperHex | nomis/Extensions/ColorExtension.swift:56-59 | `%lX` prints upper-case hex digits whose value is the number; one digit below 16, two below 256 |
| HexColor.HexByte | nomis/Extensions/ColorExtension.swift:56-59 | a byte prints as exactly two upper-case hex digits of its value |
| HexColor.Format02lXOfByte | nomis/Extensions/ColorExtension.swift:56-59 | `%02lX` of a byte is its two-digit form |
| HexColor.TruncateToInt | nomis/Extensions/ColorExtension.swift:57-59 | `Int(x)` truncates toward zero |
| HexColor.ComponentBytes | nomis/Extensions/ColorExtension.swift:52-59 | missing components count as 0, and each one is scaled by 255 and truncated |
| HexColor.ToHex | nomis/Extensions/ColorExtension.swift:47-60 | `toHex()` is nil exactly when the colour has no components; otherwise it starts with `#` |
| HexColor.HexStringShape | nomis/Extensions/ColorExtension.swift:56-59 | a byte colour prints as `#` followed by six upper-case hex digits |
| HexColor.UnitComponentIsByte | nomis/Extensions/ColorExtension.swift:57-59 | a component in [0, 1] scales to a byte |
| HexColor.ToHexOfUnitComponents | nomis/Extensions/ColorExtension.swift:47-60 | a colour with components in [0, 1] prints the `#RRGGBB` of its scaled bytes |
| HexColorRoundTrip.SanitizeHexString | nomis/Extensions/ColorExtension.swift:30-31 | sanitising `#RRGGBB` leaves its six digits |
| HexColorRoundTrip.ScanHexString | nomis/Extensions/ColorExtension.swift:35 | scanning a printed colour reads back its packed 24-bit value |
| HexColorRoundTrip.HexDigitsValue | nomis/Extensions/ColorExtension.swift:56-59 | the six printed digits have the packed value of the three bytes |
| HexColorRoundTrip.HexStringRoundTrip | nomis/Extensions/ColorExtension.swift:29-60 | parsing the hex string of a byte colour gives that colour back |
| HexColorRoundTrip.ColorHexRoundTrip | nomis/Extensions/ColorExtension.swift:29-60 | `Color(hex:)` inverts `toHex()` on byte colours and `toHex()` inverts `Color(hex:)` |
| HexColorRoundTrip.ByteScalesBack | nomis/Extensions/ColorExtension.swift:39-41 | dividing a byte by 255 and then multiplying and truncating gives the byte back |
| LedgerSpec.BalanceIsIncomeMinusExpenses | nomis/ViewModels/TransactionViewModel.swift:23-44 | the signed-sum balance equals total income minus total expenses |
| LedgerSpec.KindTotalAppend | nomis/ViewModels/TransactionViewModel.swift:23-35 | a total over two lists is the sum of their totals |
| LedgerSpec.KindTotalRemove | nomis/ViewModels/TransactionViewModel.swift:82-88 | removing one transaction lowers its kind's total by its amount |
| LedgerSpec.CategoryTotalWithoutExpenses | nomis/ViewModels/TransactionViewModel.swift:110-114 | a category with no expense has spending 0 |
| LedgerSpec.InsertDescending | nomis/ViewModels/TransactionViewModel.swift:186 | inserting into a descending list keeps it descending and adds exactly that element |
| LedgerSpec.SortDescending | nomis/ViewModels/TransactionViewModel.swift:53 | the sort is descending and a permutation of its input |
| LedgerSpec.LatestIsTop | nomis/ViewModels/TransactionViewModel.swift:52-54 | the latest-k list has min(k, n) entries drawn from the ledger, newest first, and nothing left out is newer than anything kept |
| LedgerSpec.PrefixOfDescending | nomis/ViewModels/TransactionViewModel.swift:53 | a prefix of a descending list holds its largest keys |
| LedgerSpec.InCategory | nomis/ViewModels/TransactionViewModel.swift:170-171 | the filter keeps exactly the transactions of the category, as a sub-multiset |
| LedgerSpec.InCategoryCounts | nomis/ViewModels/TransactionViewModel.swift:170-171 | the category filter keeps each transaction of the category exactly as often as it occurs, and no other |
| LedgerSpec.DistinctKeepsValues | nomis/ViewModels/TransactionViewModel.swift:174 | deduplicating keeps the same set of titles without repeats |
| LedgerSpec.RecentTitlesAreTopFive | nomis/ViewModels/TransactionViewModel.swift:169-175 | recent titles are at most five distinct titles; as a set they are the titles of the category's five latest transactions |
| LedgerSpec.FirstIndexOf | nomis/ViewModels/TransactionViewModel.swift:83 | `firstIndex(where:)`: the first position with that id, None exactly when no transaction has it |
| LedgerSpec.RemoveAtKeepsRest | nomis/ViewModels/TransactionViewModel.swift:84 | `remove(at:)` drops exactly that element, keeps the order of the rest, and lowers its kind's total |
| LedgerSpec.BreakdownTotal | nomis/ViewModels/TransactionViewModel.swift:177-187 | the breakdown's amounts add up to total expenses |
| LedgerSpec.CategoriesTotalIsExpenseTotal | nomis/ViewModels/TransactionViewModel.swift:180-182 | summing the category totals over all spent categories gives total expenses |
| Ledger.CategoryBreakdown | nomis/ViewModels/TransactionViewModel.swift:177-187 | the breakdown has one row per category with an expense, holding that category's spending, sorted largest first |
| Ledger.Rows | nomis/ViewModels/TransactionViewModel.swift:184-185 | mapping the dictionary gives one row per key, with that key's amount |
| Ledger.BreakdownOfRows | nomis/ViewModels/TransactionViewModel.swift:184-186 | sorting the rows keeps them a valid breakdown |
| Ledger.TransactionViewModel.constructor | nomis/ViewModels/TransactionViewModel.swift:7-17 | an empty ledger with no budgets, no breakdown and no cached totals |
| Ledger.TransactionViewModel.TotalIncome | nomis/ViewModels/TransactionViewModel.swift:23-28 | returns the cached total if there is one, otherwise computes the income total and caches it; with agreeing caches the result is the income total |
| Ledger.TransactionViewModel.TotalExpenses | nomis/ViewModels/TransactionViewModel.swift:30-35 | the same for expenses |
| Ledger.TransactionViewModel.Balance | nomis/ViewModels/TransactionViewModel.swift:37-44 | the same for the balance, which is income minus expenses |
| Ledger.TransactionViewModel.InvalidateCache | nomis/ViewModels/TransactionViewModel.swift:56-60 | clears all three caches, so the caches agree with the ledger |
| Ledger.TransactionViewModel.UpdateCategoryExpenses | nomis/ViewModels/TransactionViewModel.swift:177-187 | the breakdown becomes the breakdown of the current transactions; nothing else changes |
| Ledger.TransactionViewModel.AddTransaction | nomis/ViewModels/TransactionViewModel.swift:62-80 | without a selected group or when the remote write fails nothing changes; otherwise the transaction is appended, caches are cleared and the breakdown recomputed |
| Ledger.TransactionViewModel.DeleteTransaction | nomis/ViewModels/TransactionViewModel.swift:82-88 | removes the first transaction with that id, clears the caches and recomputes the breakdown; unknown ids change nothing |
| Ledger.TransactionViewModel.Budget | nomis/ViewModels/TransactionViewModel.swift:116-118 | a category's budget is present exactly when one was set |
| Ledger.TransactionViewModel.SetBudget | nomis/ViewModels/TransactionViewModel.swift:120-123 | sets that category's budget and leaves every other budget as it was |
| Ledger.TransactionViewModel.ClearAllData | nomis/ViewModels/TransactionViewModel.swift:125-130 | no transactions and no budgets remain; breakdown and caches are left untouched |
| Ledger.TransactionViewModel.FetchTransactions | nomis/ViewModels/TransactionViewModel.swift:189-202 | with a group and a successful fetch the ledger becomes the fetched list and the breakdown is recomputed; otherwise nothing changes |
| Ledger.StaleIncomeAfterClear | nomis/ViewModels/TransactionViewModel.swift:23-28 | after clearing, the cached income still reports the cleared transaction's amount, not the total of the empty ledger |
| Keypad.SplitOnSnoc | nomis/Views/AddTransactionView.swift:527 | splitting on spaces after one more character either opens a new component or extends the last one |
| Keypad.NatToStringValue | nomis/Views/AddTransactionView.swift:554 | the decimal numeral of n reads back as n |
| Keypad.TwoDigitsValue | nomis/Views/AddTransactionView.swift:554 | the two-digit field of m reads back as m |
| Keypad.Format2RoundTrip | nomis/Views/AddTransactionView.swift:554 | `%.2f` output parses back to the value rounded to hundredths, which is within 0.005 of the input; it has no space and exactly one dot |
| Keypad.HundredthsNumeral | nomis/Views/AddTransactionView.swift:554 | the numeral `q.rr` of n hundredths parses to n/100 |
| Keypad.UnsignedNumeral | nomis/Views/AddTransactionView.swift:539-540 | `ip.fp` parses to the value of its digits |
| Keypad.CalculateTyped | nomis/Views/AddTransactionView.swift:536-556 | `a op b` evaluates to the operator applied to the parsed numbers; division by zero gives 0 |
| Keypad.CalculateNeedsThreeComponents | nomis/Views/AddTransactionView.swift:537-543 | an amount that does not split into three parts does not evaluate |
| Keypad.BackspaceUndoesDigit | nomis/Views/AddTransactionView.swift:514-517 | backspace undoes a typed digit, removes the last character, and does nothing on an empty amount |
| Keypad.OperatorGuard | nomis/Views/AddTransactionView.swift:521-525 | an operator key changes the entry exactly when the amount is non-empty and does not already end in that operator; it saves the old amount as the expression; pressing it twice is the same as once |
| Keypad.DigitAppendsClearResets | nomis/Views/AddTransactionView.swift:518-520 | digits are appended; `C` empties amount and expression and turns the enter key back to ↵ |
| Keypad.DotGuard | nomis/Views/AddTransactionView.swift:526-530 | a dot press changes the entry exactly when the last number has no dot, and then it appends `.` to the amount; a second dot press changes nothing |
| Keypad.KeyKeepsOneDotPerNumber | nomis/Views/AddTransactionView.swift:504-534 | every keypad key keeps at most one dot in each space-separated number |
| Keypad.OperatorAppend | nomis/Views/AddTransactionView.swift:524 | appending ` op ` adds the operator and an empty number as components |
| Keypad.EnterKeyLabel | nomis/Views/AddTransactionView.swift:152-157 | the enter key shows `=` exactly when the amount holds an operator, and ↵ otherwise |
| Keypad.ValidAmount | nomis/Views/AddTransactionView.swift:559-565 | the save is accepted exactly when the title is non-empty and the first number parses to a positive value |
| Keypad.NoteOf | nomis/Views/AddTransactionView.swift:573 | an empty note is stored as absent, any other note as itself |
| Keypad.PickerCategories | nomis/Views/AddTransactionView.swift:267-276 | the picker always offers `other`; it offers salary exactly for income and food exactly for expense |
| Keypad.AddTransactionForm.constructor | nomis/Views/AddTransactionView.swift:434-443 | a blank form for the given type with food preselected |
| Keypad.AddTransactionForm.CalculateResult | nomis/Views/AddTransactionView.swift:536-556 | on a valid expression the amount becomes the result with two decimals and the expression is cleared; otherwise nothing changes |
| Keypad.AddTransactionForm.HandleKeyPress | nomis/Views/AddTransactionView.swift:504-534 | amount and expression follow the keypad transition; ↵ and = close the keypad |
| Keypad.AddTransactionForm.SaveTransaction | nomis/Views/AddTransactionView.swift:558-577 | an invalid title or amount raises the alert and leaves the ledger alone; otherwise the transaction built from the form goes to the ledger's add. When the add goes through it is appended, the caches are cleared and the breakdown is recomputed; otherwise the ledger is unchanged. Budgets are never touched, and caches that agreed with the ledger still agree |
| Categories.MergeById_Properties | nomis/ViewModels/CategoryViewModel.swift:41-45 | merging keeps the defaults as a prefix, adds only fetched categories, includes every fetched id and keeps ids unique |
| Categories.WithoutIdDropsId | nomis/ViewModels/CategoryViewModel.swift:101 | `removeAll` leaves no category with that id |
| Categories.WithoutIdKeepsOthers | nomis/ViewModels/CategoryViewModel.swift:101 | `removeAll` keeps every category with another id |
| Categories.WithoutIdSubMultiset | nomis/ViewModels/CategoryViewModel.swift:101 | `removeAll` adds nothing |
| Categories.WithoutIdCounts | nomis/ViewModels/CategoryViewModel.swift:101 | `removeAll` keeps every category with another id exactly as often as it occurs, and none with the id |
| Categories.WithoutAbsentId | nomis/ViewModels/CategoryViewModel.swift:101 | removing an id nobody has changes nothing |
| Categories.FirstIdIndex | nomis/ViewModels/CategoryViewModel.swift:130-132 | the first position with that id; None exactly when no category has it |
| Categories.ForTypeCovers | nomis/ViewModels/CategoryViewModel.swift:141-148 | every category is offered for income or expense; `other` for both; salary and investment never for expense; income offers only salary, investment and other |
| Categories.ForTypeSubset | nomis/ViewModels/CategoryViewModel.swift:141-148 | filtering only keeps listed categories |
| Categories.PickerMatchesFilter | nomis/ViewModels/CategoryViewModel.swift:141-148 | on the built-in list the view model's filter gives exactly the picker's list, for both types |
| Categories.CategoryViewModel.constructor | nomis/ViewModels/CategoryViewModel.swift:11-27 | a fresh list holds the built-in categories |
| Categories.CategoryViewModel.LoadCategories | nomis/ViewModels/CategoryViewModel.swift:25-51 | without a group or on a failed fetch the list is the defaults; otherwise it is the defaults merged with the fetched ones by id |
| Categories.CategoryViewModel.AddCategory | nomis/ViewModels/CategoryViewModel.swift:54-78 | with a group and a successful write the category, tagged with the group's id, is appended unless its id is present; otherwise nothing changes |
| Categories.CategoryViewModel.DeleteCategory | nomis/ViewModels/CategoryViewModel.swift:81-107 | a custom category of the selected group is removed by id once the write succeeds; built-in and foreign ones are kept |
| Categories.CategoryViewModel.UpdateCategory | nomis/ViewModels/CategoryViewModel.swift:110-138 | an editable category replaces the first entry with its id; nothing else changes |
| Categories.CategoryViewModel.CategoriesForType | nomis/ViewModels/CategoryViewModel.swift:141-148 | the filtered list only holds categories from the list |
| Categories.LoadedListStartsWithDefaults | nomis/ViewModels/CategoryViewModel.swift:27-45 | a loaded list starts with the seven defaults and has unique ids |
| Categories.AddKeepsUniqueIds | nomis/ViewModels/CategoryViewModel.swift:70-73 | appending a category with a new id keeps ids unique |
| Categories.UpdateKeepsUniqueIds | nomis/ViewModels/CategoryViewModel.swift:130-132 | replacing the entry with the same id keeps ids unique |
| Categories.DeleteKeepsDefaults | nomis/ViewModels/CategoryViewModel.swift:83-101 | an allowed delete keeps every built-in category and removes the deleted id |
| Categories.HasIdLoop | nomis/ViewModels/CategoryViewModel.swift:42 | the `contains(where:)` scan finds the id exactly when some category has it |
| Categories.IsDefaultIdLoop | nomis/ViewModels/CategoryViewModel.swift:83 | the scan over the defaults finds the id exactly when it is built in |
| FirebaseCodec.RandomNonceString | nomis/Services/FirebaseService.swift:35-51 | one character per random byte, each drawn from the 64-character alphabet, which has no `W` |
| FirebaseCodec.NonceCharsetShape | nomis/Services/FirebaseService.swift:43-44 | the alphabet has 64 distinct characters, omits `W`, and each character's index recovers its position |
| FirebaseCodec.NonceDeterminesResidues | nomis/Services/FirebaseService.swift:35-51 | two byte strings give the same nonce exactly when they agree byte by byte modulo 64 |
| FirebaseCodec.CompactMapAppend | nomis/Services/FirebaseService.swift:161 | `compactMap` over a concatenation concatenates |
| FirebaseCodec.CompactMapMembers | nomis/Services/FirebaseService.swift:249 | `compactMap` keeps exactly the decoded elements and is no longer than its input |
| FirebaseCodec.CompactMapAllPresent | nomis/Services/FirebaseService.swift:249 | when every element decodes, `compactMap` maps them all in order |
| FirebaseCodec.DecodeGroup | nomis/Services/FirebaseService.swift:161-173 | a group document decodes exactly when name, owner and members are present with the right types, and keeps them with the document's id |
| FirebaseCodec.GroupData | nomis/Services/FirebaseService.swift:136-141 | a created group's document holds name, owner, members and createdAt |
| FirebaseCodec.CreatedGroupReadsBack | nomis/Services/FirebaseService.swift:128-173 | a created group's document decodes to the group with its creator as only member |
| FirebaseCodec.DecodedGroupsComeFromDocuments | nomis/Services/FirebaseService.swift:161-173 | every fetched group comes from a document with its id |
| FirebaseCodec.DefaultNamed | nomis/Services/FirebaseService.swift:269-273 | the built-in category with that name, None exactly when there is none |
| FirebaseCodec.FirstNamed | nomis/Services/FirebaseService.swift:269-273 | the first category with that name, None exactly when there is none |
| FirebaseCodec.ResolveCategory | nomis/Services/FirebaseService.swift:261-277 | new-format fields build the category; else a legacy name picks the built-in category; else `other` |
| FirebaseCodec.DecodeTransaction | nomis/Services/FirebaseService.swift:249-288 | a transaction decodes exactly when title, amount, date and a known type are present, and keeps them; the note is the note field if it is a string |
| FirebaseCodec.EncodeTransaction | nomis/Services/FirebaseService.swift:212-224 | the written document has exactly the transaction fields plus createdAt or updatedAt |
| FirebaseCodec.EncodedFields | nomis/Services/FirebaseService.swift:212-224 | each field holds the matching transaction value; the colour falls back to #808080 and the note to "" |
| FirebaseCodec.TransactionReadsBack | nomis/Services/FirebaseService.swift:209-288 | reading a written transaction gives it back, with the colour passed through its hex string, no group tag, and an absent note read as "" |
| FirebaseCodec.TransactionRoundTrip | nomis/Services/FirebaseService.swift:209-288 | a transaction with a byte colour, no group tag and a note reads back unchanged |
| FirebaseCodec.MissingNoteReadsBackEmpty | nomis/Services/FirebaseService.swift:222 | a transaction without a note reads back with the empty note |
| FirebaseCodec.MissingColorReadsBackGrey | nomis/Services/FirebaseService.swift:220 | a category without colour components reads back as #808080 grey |
| FirebaseCodec.DecodeCategory | nomis/Services/FirebaseService.swift:389-409 | a custom category decodes exactly when name, icon and colorHex are strings; it carries the document id and the group id |
| FirebaseCodec.FetchedCategoriesBelongToGroup | nomis/Services/FirebaseService.swift:389-409 | every fetched category is tagged with the group and comes from a document with its id |
| Firebase.FirstGroupIndex | nomis/Services/FirebaseService.swift:198-201 | the first group with that id, None exactly when there is none |
| Firebase.GroupsWithoutIdSpec | nomis/Services/FirebaseService.swift:328-329 | deleting a group keeps exactly the groups with other ids |
| Firebase.GroupsWithoutIdCounts | nomis/Services/FirebaseService.swift:328 | deleting a group keeps every group with another id exactly as often as it occurs, and none with the id |
| Firebase.WithMemberAtSpec | nomis/Services/FirebaseService.swift:198-203 | adding a member changes only that group, keeps its identity and old members, and adds the user |
| Firebase.FirebaseService.constructor | nomis/Services/FirebaseService.swift:26-33 | no groups and no selection, with the signed-in user |
| Firebase.FirebaseService.CreateGroup | nomis/Services/FirebaseService.swift:128-145 | succeeds exactly when signed in and the write succeeds; the new group, owned by the user with the user as only member, is appended and selected |
| Firebase.FirebaseService.FetchGroups | nomis/Services/FirebaseService.swift:147-176 | signed out it does nothing; fails on a failed query; otherwise the groups become the decoded documents |
| Firebase.FirebaseService.AddMemberToGroup | nomis/Services/FirebaseService.swift:178-205 | succeeds exactly with a selection, a found user and a successful write; the user is added to that group in the list and the selection follows |
| Firebase.FirebaseService.SelectGroup | nomis/Services/FirebaseService.swift:302-306 | the given group becomes the selection |
| Firebase.FirebaseService.DeleteGroup | nomis/Services/FirebaseService.swift:308-335 | only the owner can delete; the group leaves the list and is deselected if it was selected |
| Firebase.FirebaseService.FetchTransactions | nomis/Services/FirebaseService.swift:229-289 | the fetch succeeds exactly when the user may read the group and the query answers; each result comes from a document with its id |
| Firebase.FirebaseService.DeleteTransaction | nomis/Services/FirebaseService.swift:291-300 | deletes the transaction's document under the selected group; fails without a selection |
| Firebase.FirebaseService.UpdateTransaction | nomis/Services/FirebaseService.swift:337-360 | writes the encoded transaction, stamped updatedAt, to its path under the selected group |
| Firebase.FirebaseService.AddTransaction | nomis/Services/FirebaseService.swift:209-227 | writes the encoded transaction, stamped createdAt, to a new document of the given group |
| Firebase.FirebaseService.FetchCategories | nomis/Services/FirebaseService.swift:389-409 | the loop collects exactly the decodable category documents, in order |
| Firebase.CreatorMayDeleteAndRead | nomis/Services/FirebaseService.swift:128-145 | a group's creator owns it and may read its transactions |

## Left out

- Floating point. Amounts and colour components are exact `real`s. `%.2f` is modelled as exact rounding to hundredths with ties away from zero.
- Keypad.ParseDecimal: `Double(_:)` is modelled only on unsigned, `+`- and `-`-signed decimal numerals, the alphabet the keypad can type. Exponents, `inf`, `nan` and hexadecimal floats are not accepted.
- HexColor.ScanHexInt64: Foundation's `Scanner` is modelled as skipping leading whitespace and an optional `0x`/`0X`, then reading the longest run of hex digits. A value too large for 64 bits saturates.
- The platform colour `.gray` is a parameter. UIKit's conversion of a colour to CoreGraphics components is taken to be its component list.
- Asynchrony, `Task`, `MainActor` and the notifications that reload groups and categories are left out.
  - Each remote call's result is an input: `remoteOk`, or an `Option` snapshot.
  - `TransactionViewModel.addTransaction` appends synchronously once the write succeeds.
- Clocks, UUIDs and Firestore document ids are parameters.
- The server-side parts of the queries are taken as the snapshot that is passed in: the `members arrayContains` filter and the ordering by date.
- Firebase.FirebaseService.UpdateTransaction: the write is stated as its path and field set. The merge with the stored document (`merge: true`) is left to the store.
- Firebase.FirebaseService.DeleteGroup: the deletion of each of the group's transactions, and a partial failure of it, is not modelled. Only the local list and the selection are.
- The service's remote category writes (`addCategory`, `updateCategory`, `deleteCategory`) are modelled only as their outcome, seen from `CategoryViewModel`. The writes to the user document are not modelled.
- Sign-in with Apple, `sha256`, `saveUserToFirestore`, `createUser`, `getUser` and `signInAnonymously` are left out. They are SDK and cryptography calls.
- `SecRandomCopyBytes` is left out: the random bytes are an input of the nonce.
- `TransactionViewModel`:
  - Persistence to `UserDefaults` and `exportData` are left out.
  - `filterTransactions` and `selectedPeriod` are left out, because they depend on the calendar.
- The DEBUG preview data and all view layout are left out.
- Category is modelled as one record type: id, name, icon, colour and optional group id. The built-in categories take their names and icons from the enum. Their ids are the case names, and they have no colour. So a transaction in a built-in category is written with the fallback colour `#808080` and reads back grey. FirebaseCodec.TransactionRoundTrip is therefore about categories that have a colour, i.e. custom ones.
- Swift's `sorted` is not stable, and the order of `Set` and `Dictionary` is unspecified.
  - The model uses a stable insertion sort and first-occurrence order.
  - The contracts of RecentTitlesAreTopFive and CategoryBreakdown state only what holds for every order.
- Keypad.Format2RoundTrip: IEEE negative zero is not modelled. Reals have no `-0.0`, so a result that is exactly negative zero in Swift (`-3 × 0`) prints `-0.00` there and `0.00` in the model. A negative result that rounds to zero does print `-0.00` in both.
