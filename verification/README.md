# Order tracking state model

A Dafny model of the order-tracking logic of the OrderTracking dashboard
(`src/App.js`). The dashboard has two parallel order boards. **Sales
orders** go through order → packing → bagged → delivery → done. **Purchase
orders** go through order → received. Each board has the same parts:

- a **store**: the ordered list of records;
- a **draft**: the record being created or edited, with its **origin**.
  The source encodes the origin as `null` (list view), `-1` (new record) or
  the index of the edited record. Here it is `Idle | Creating | Editing(i)`;
- the **field update**: `updateTempSalesOrder` / `updateTempPurchaseOrder`.
  The identifier is stored as typed and every other field is capitalised.
  Choosing a status also adjusts the dependent fields: the bag fields and
  the completion time;
- the **validator**: `validateSalesForm` / `validatePurchaseForm`;
- the **commit**: `saveSalesOrder` / `savePurchaseOrder`, and deletion by index;
- the **projection**: case-insensitive search, the completion-aware sort,
  the status columns and the progress-bar index.

Files:

| file | module | contents |
|---|---|---|
| `wrappers.dfy` | `Wrappers` | `Option` |
| `text.dfy` | `Text` | case mapping, `capitalize`, `trim`, `includes`, four-digit rendering |
| `seqs.dfy` | `Seqs` | `filter`, removal by index, slot replacement, subsequences |
| `ordering.dfy` | `Ordering` | the list comparator and the stable sort |
| `origin.dfy` | `DraftOrigin` | `Idle \| Creating \| Editing(i)` |
| `sales.dfy` | `Sales` | sales record, statuses, update, validator, commit, projection |
| `sales_editor.dfy` | `SalesEditor` | the sales board as a reducer over the UI's intents, and its invariant |
| `purchase.dfy` | `Purchase` | the same for purchase orders |
| `purchase_editor.dfy` | `PurchaseEditor` | the purchase board as a reducer, and its invariant |

Statuses are stored as text, exactly as the source stores them. A chosen
status is capitalised like any other field, so "done" is stored as "Done".
Every reading of a status lower-cases it first, so the model reads it
through `ParseStatus`, which gives an enum or "unknown". Times are integers
(milliseconds). The current time `now` and the random four-digit identifier
number are parameters.

Three behaviours of the code worth knowing:

- **Sort direction.** The comparator returns -1 when only `b` has a
  completion time (`src/App.js:470`, `:696`). So open orders (newest created
  first) come before completed orders (most recently completed first).
  `Sales.SortOpenOrderFirst` pins this down on three records.
- **Purchase order numbers are never checked for uniqueness.** Only the
  sales save checks the identifier. `PurchaseEditor.OrderNumbersMayRepeat`
  shows a save that stores two records with one order number.
- **The read-only slip number is enforced by the input handler**
  (`src/App.js:1028`), not by `updateTempSalesOrder`. The model keeps the
  guard in `SalesEditor.TypeSlipNo`. The purchase order-number input has no
  handler, so no purchase intent writes that field.

## Model

| member | source | states |
|---|---|---|
| `Text.CapitalizeShape` | src/App.js:21-24 | `capitalize` maps "" to ""; otherwise the first character is upper-cased and every later character lower-cased, with the length unchanged |
| `Text.Capitalize` | src/App.js:21-24 | `capitalize` keeps the length of its input |
| `Text.Lower` | src/App.js:188 | `toLowerCase` keeps the length and lower-cases each character on its own |
| `Text.CapitalizeIdempotent` | src/App.js:21-24 | capitalising an already capitalised value changes nothing |
| `Text.LowerCapitalize` | src/App.js:182-188 | a capitalised value equals the original ignoring case, so a capitalised status is still recognised |
| `Text.BlankIffAllSpace` | src/App.js:225-240 | `!s.trim()` holds exactly when every character of `s` is whitespace |
| `Text.TrimStart` | src/App.js:225 | leading trim removes a whitespace-only prefix and leaves a suffix that is empty or starts with non-whitespace |
| `Text.TrimEnd` | src/App.js:240 | trailing trim removes a whitespace-only suffix and leaves a prefix that is empty or ends with non-whitespace |
| `Text.ContainsIffOccurs` | src/App.js:479-481 | `includes` holds exactly when the query occurs at some position of the text |
| `Text.ContainsEmpty` | src/App.js:479-481 | every text includes the empty query |
| `Text.Decimal4` | src/App.js:85-91 | the drawn number in [1000, 9999] renders as exactly four digit characters |
| `Text.Decimal4RoundTrip` | src/App.js:85-91 | the four-digit rendering of a number in [1000, 9999] reads back as that number |
| `Seqs.RemoveAt` | src/App.js:172 | filtering out index `i` splices out exactly element `i`; an index outside the list removes nothing |
| `Seqs.RemoveAtShifts` | src/App.js:172 | removal shortens the list by one; earlier elements stay and later ones move down one place |
| `Seqs.RemoveAtIsSubsequence` | src/App.js:172 | what remains after a removal keeps its relative order |
| `Seqs.Filter` | src/App.js:476-497 | `filter` returns no more elements than it was given, each of which passes the test |
| `Seqs.FilterMembership` | src/App.js:476-497 | an element survives `filter` exactly when it was present and passes the test |
| `Seqs.FilterCount` | src/App.js:476-497 | `filter` keeps every copy of an element that passes the test and no copy of one that fails |
| `Seqs.FilterIsSubsequence` | src/App.js:476-497 | `filter` keeps the relative order of what it keeps |
| `Ordering.Compare` | src/App.js:466-473 | an open record goes before a completed one and a completed one after an open one; two completed records go newest completion first, two open ones newest creation first, and tie exactly on equal times |
| `Seqs.ReplaceAt` | src/App.js:254-255 | writing slot `i` of a copy changes slot `i` and nothing else, and keeps the length |
| `Ordering.CompareAntisymmetric` | src/App.js:466-473 | swapping the comparator's arguments negates its result |
| `Ordering.PrecedesTransitive` | src/App.js:466-473 | the comparator is transitive, so it is a consistent order for `sort` |
| `Ordering.TiesEquivalence` | src/App.js:466-473 | records tying with a third record tie with each other |
| `Ordering.SortedIffDisplayOrder` | src/App.js:466-473 | sorted under the comparator means: open records before completed ones, open by creation time newest first, completed by completion time newest first |
| `Ordering.SortSorted` | src/App.js:465-474 | the sort's output is in comparator order |
| `Ordering.InsertSorted` | src/App.js:465-474 | inserting into a sorted list keeps it sorted |
| `Ordering.SortPermutes` | src/App.js:465-474 | the sort's output is a permutation of its input |
| `Ordering.Sort` | src/App.js:465-474 | the sorted copy has the length of its input |
| `Ordering.SortThree` | src/App.js:466-473 | with `a` allowed before `c` and `b` not allowed before `c`, sorting `[a, b, c]` gives `[a, c, b]` |
| `Ordering.SortStable` | src/App.js:465-474 | records the comparator cannot tell apart keep their input order |
| `Ordering.InsertTieClass` | src/App.js:465-474 | an inserted element goes ahead of every element tying with it |
| `Ordering.FilterSorted` | src/App.js:484-497 | filtering a sorted list leaves it sorted |
| `Sales.ParseStatusIff` | src/App.js:188 | a text reads as a sales status exactly when it equals that status's name ignoring case |
| `Sales.ParseCapitalized` | src/App.js:184-188 | the stored, capitalised status reads as the status that was chosen |
| `Sales.StatusIndex` | src/App.js:293-302 | the progress index is below 5, an unknown status gives 0, and a known status gives its place on the progress bar |
| `Sales.StatusIndexOfSteps` | src/App.js:293-302 | each step's button value, and its capitalised stored form, maps to that step's position 0..4 |
| `Sales.SlipNumberInjective` | src/App.js:85-87 | two generated slip numbers are equal ignoring case only when the drawn numbers are equal |
| `Sales.NewSalesOrderShape` | src/App.js:150-161 | a new sales record has status order (index 0), creation time `now`, no completion time, a non-blank slip number, and meets the completion invariant |
| `Sales.Put` | src/App.js:182-185 | the spread-and-set writes the named field and leaves every other field, the bag flag and both times as they were |
| `Sales.UpdateSalesOrder` | src/App.js:178-210 | the slip number is stored raw and other fields capitalised; no other field changes unless status is set; choosing bagged sets bagged to "yes" and keeps bag number and amount; choosing order or packing sets it to "no" and clears bag number and amount; other statuses keep them; done stamps `now` only when there is no completion time; leaving done removes it |
| `Sales.Bagging` | src/App.js:190-199 | bagged sets the bag flag to "yes" and keeps bag number and amount; order or packing set it to "no" and clear both; any other status leaves the record as it is; nothing but the three bag fields changes |
| `Sales.NextCompletion` | src/App.js:200-206 | choosing done stamps `now` when there is no completion time and keeps an existing one; leaving done removes it; any other change keeps it |
| `Sales.UpdateStatusReadsBack` | src/App.js:184-188 | after choosing a status, the stored status reads as the chosen one |
| `Sales.UpdatePreservesCompletion` | src/App.js:200-206 | every edit keeps "a completion time is present exactly while the status is done" |
| `Sales.UpdateIdempotent` | src/App.js:182-206 | repeating an edit at any later time changes nothing; re-selecting done keeps the first completion time |
| `Sales.ReopenThenFinish` | src/App.js:200-206 | moving a done order to another status removes its completion time; choosing done again stamps the new time |
| `Sales.SlipInUseFrom` | src/App.js:227-237 | the `.some` scan finds a record, other than the edited one, whose slip number matches ignoring case, exactly when one exists from the scan position on |
| `Sales.SlipInUse` | src/App.js:227-237 | the scan over the whole store agrees with the existence of a clashing record |
| `Sales.ValidateSales` | src/App.js:222-247 | blank name, blank slip number and a clash (for a non-blank slip number only, skipping the edited record) are flagged independently; the form passes exactly when none holds |
| `Sales.CommitSales` | src/App.js:252-272 | editing replaces exactly slot `i`; otherwise the draft is appended, unless its slip number matches a stored one ignoring case, in which case the store is unchanged |
| `Sales.CommitKeepsCompletions` | src/App.js:252-272 | committing a consistent draft into a consistent store leaves every record with a completion time exactly while it is done |
| `Sales.CommitAfterValidation` | src/App.js:249-272 | after validation passes, the commit-time re-check never fires on a new record, and slip numbers stay unique ignoring case |
| `Sales.LookupFindsUnique` | src/App.js:227-237 | in a store with unique slip numbers, looking up a record's slip number finds that record |
| `Sales.SearchSales` | src/App.js:476-482 | the search returns no more records than the store holds, each of which has the query in its name or slip number ignoring case |
| `Sales.SearchSalesSpec` | src/App.js:476-482 | the search keeps exactly the records whose name or slip number contains the query ignoring case, every copy of each, in store order; an empty query keeps everything |
| `Sales.SortSalesSpec` | src/App.js:465-474 | the sales sort is a stable permutation in display order: open orders newest created first, then completed orders most recently completed first |
| `Sales.SortOpenOrderFirst` | src/App.js:469-471 | an open order is listed before completed ones, which follow newest completion first |
| `Sales.FilteredSales` | src/App.js:476-482 | the listed records are exactly the stored ones matching the query, each as many times as it is stored, in display order |
| `Sales.Column` | src/App.js:484-497 | a column holds no more records than the list it is taken from, each of them belonging to that column |
| `Sales.InColumnIff` | src/App.js:484-497 | a record is in a column exactly when its status is known and belongs to that column; bagged and delivery share one |
| `Sales.ColumnsPartition` | src/App.js:484-497 | the four columns together hold every record with a known status exactly once, and nothing else |
| `Sales.ColumnsDisjointAndCover` | src/App.js:484-497 | no record is in two columns, and a record with a known status is in its status's column |
| `Sales.ColumnInDisplayOrder` | src/App.js:476-497 | each displayed column is in display order |
| `SalesEditor.AddNewSalesOrder` | src/App.js:150-169 | creating opens exactly the fresh record for the drawn number and time `now` (slip number from that number, created `now`) as the draft, with origin Creating and cleared flags, and leaves the store alone |
| `SalesEditor.OpenSalesOrder` | src/App.js:590-593 | opening record `i` makes a copy of it the draft, with origin Editing(i) and cleared flags |
| `SalesEditor.UpdateTempSalesOrder` | src/App.js:178-220 | the store and origin never change; without a draft nothing is edited; with one, the field update applies; editing the slip number lowers the uniqueness flag and keeps the other flags, and editing any other field keeps every flag |
| `SalesEditor.TypeName` | src/App.js:997-999 | the name input applies the field update to the draft (so the name is stored capitalised), lowers the name flag, keeps the other flags, and leaves store and origin alone; without a draft the draft stays absent |
| `SalesEditor.TypeSlipNo` | src/App.js:1027-1035 | the slip-number input changes nothing unless a new record is being created; then it applies the field update to the draft (the value stored raw), lowers both slip flags, keeps the name flag, and leaves store and origin alone |
| `SalesEditor.SaveSalesOrder` | src/App.js:249-281 | without a draft nothing happens; a failing draft stays open with the flags set; a passing draft replaces its slot or is appended, and the editor returns to the list with cleared flags |
| `SalesEditor.CancelSalesEdit` | src/App.js:283-291 | cancelling drops the draft and leaves the store alone |
| `SalesEditor.DeleteSalesOrder` | src/App.js:171-176 | deleting splices out record `i`, or nothing for an index outside the store, and drops any draft |
| `SalesEditor.Step` | src/App.js:150-291 | every intent keeps the draft and its origin consistent |
| `SalesEditor.SaveKeepsInv` | src/App.js:249-281 | a save keeps slip numbers unique, completion times consistent and an opened record's identity fixed |
| `SalesEditor.DeleteKeepsInv` | src/App.js:171-176 | a deletion keeps the invariant |
| `SalesEditor.StepKeepsInv` | src/App.js:150-291 | every intent keeps these: slip numbers unique ignoring case; completion time present exactly while done; an opened record's slip number and creation time unchanged |
| `SalesEditor.SaveThenLookup` | src/App.js:249-281 | after a successful save, looking up the draft's slip number returns the draft |
| `SalesEditor.SaveKeepsIdentity` | src/App.js:1027-1046 | saving an edited record keeps its slip number and creation time |
| `SalesEditor.SaveRefusesCaseDuplicate` | src/App.js:227-246 | a new draft whose slip number differs from a stored one only in case is refused with the uniqueness flag and stays open |
| `SalesEditor.DeleteRemovesIdentity` | src/App.js:171-176 | after deleting `i` from a store with unique slip numbers, the list is one shorter and keeps its order, and no record carries the deleted slip number |
| `Purchase.ParseStatusIff` | src/App.js:338 | a text reads as a purchase status exactly when it equals that status's name ignoring case |
| `Purchase.ParseCapitalized` | src/App.js:334-338 | the stored, capitalised status reads as the status that was chosen |
| `Purchase.StatusIndex` | src/App.js:395-401 | the progress index is 0 or 1, an unknown status gives 0, and a known status gives its place |
| `Purchase.StatusIndexOfSteps` | src/App.js:395-401 | order maps to 0 and received to 1, before and after capitalisation |
| `Purchase.OrderNumberInjective` | src/App.js:89-91 | two generated order numbers are equal ignoring case only when the drawn numbers are equal |
| `Purchase.NewPurchaseOrderShape` | src/App.js:305-312 | a new purchase record has status order, creation time `now`, no completion time and blank item and category |
| `Purchase.Put` | src/App.js:332-335 | the spread-and-set writes the named field and leaves every other field and both times as they were |
| `Purchase.UpdatePurchaseOrder` | src/App.js:328-348 | the order number is stored raw and other fields capitalised; nothing else changes; received stamps `now` only when there is no completion time; leaving received removes it |
| `Purchase.NextCompletion` | src/App.js:337-345 | choosing received stamps `now` when there is no completion time and keeps an existing one; leaving received removes it; any other change keeps it |
| `Purchase.UpdatePreservesCompletion` | src/App.js:337-345 | every edit keeps "a completion time is present exactly while the status is received" |
| `Purchase.UpdateIdempotent` | src/App.js:332-345 | repeating an edit at any later time changes nothing |
| `Purchase.ValidatePurchase` | src/App.js:353-363 | blank item and blank category are flagged independently, and nothing else is checked |
| `Purchase.CommitPurchase` | src/App.js:368-376 | editing replaces exactly slot `i`; otherwise the draft is always appended |
| `Purchase.SearchPurchasesSpec` | src/App.js:702-708 | the search keeps exactly the records whose item or order number contains the query ignoring case, every copy of each, in store order; an empty query keeps everything |
| `Purchase.SearchPurchases` | src/App.js:702-708 | the search returns no more records than the store holds, each of which has the query in its item or order number ignoring case |
| `Purchase.FilteredPurchases` | src/App.js:702-708 | the listed records are exactly the stored ones matching the query, each as many times as it is stored, in display order |
| `Purchase.SortPurchasesSpec` | src/App.js:691-700 | the purchase sort is a stable permutation in display order |
| `Purchase.Column` | src/App.js:710-715 | a column holds no more records than the list it is taken from, each of them belonging to that column |
| `Purchase.InColumnIff` | src/App.js:710-715 | a record is in a column exactly when its status is known and belongs to that column |
| `Purchase.ColumnsPartition` | src/App.js:710-715 | the two columns together hold every record with a known status exactly once, and nothing else |
| `Purchase.ColumnsDisjointAndCover` | src/App.js:710-715 | no record is in both columns, and a record with a known status is in its status's column |
| `Purchase.ColumnInDisplayOrder` | src/App.js:702-715 | each displayed column is in display order |
| `PurchaseEditor.AddNewPurchaseOrder` | src/App.js:305-319 | creating opens exactly the fresh record for the drawn number and time `now` (order number from that number, created `now`) as the draft, with origin Creating, and leaves the store alone |
| `PurchaseEditor.OpenPurchaseOrder` | src/App.js:789-791 | opening record `i` makes a copy of it the draft, with origin Editing(i) and cleared flags |
| `PurchaseEditor.UpdateTempPurchaseOrder` | src/App.js:328-351 | without a draft nothing is edited; with one, the field update applies |
| `PurchaseEditor.TypeItem` | src/App.js:1370-1373 | the item input applies the field update to the draft (so the item is stored capitalised), lowers the item flag, keeps the category flag, and leaves store and origin alone; without a draft the draft stays absent |
| `PurchaseEditor.TypeCategory` | src/App.js:1395-1398 | the category input applies the field update to the draft (so the category is stored capitalised), lowers the category flag, keeps the item flag, and leaves store and origin alone; without a draft the draft stays absent |
| `PurchaseEditor.SavePurchaseOrder` | src/App.js:365-384 | without a draft nothing happens; a failing draft stays open with the flags set; a passing draft replaces its slot or is appended, and the editor returns to the list |
| `PurchaseEditor.CancelPurchaseEdit` | src/App.js:386-393 | cancelling drops the draft and leaves the store alone |
| `PurchaseEditor.DeletePurchaseOrder` | src/App.js:321-326 | deleting splices out record `i`, or nothing for an index outside the store, and drops any draft |
| `PurchaseEditor.Step` | src/App.js:305-393 | every intent keeps the draft and its origin consistent |
| `PurchaseEditor.StepKeepsInv` | src/App.js:305-393 | every intent keeps completion times consistent and an opened record's order number and creation time unchanged |
| `PurchaseEditor.SaveKeepsIdentity` | src/App.js:1417-1422 | saving an edited record keeps its order number and creation time |
| `PurchaseEditor.OrderNumbersMayRepeat` | src/App.js:365-376 | a new draft that drew a stored record's number is appended beside it, so two records share an order number |
| `PurchaseEditor.DeleteKeepsOrder` | src/App.js:321-326 | deleting `i` shortens the list by one and keeps the rest in order |

## Left out

- Persistence: reading local storage and the 500 ms debounced write of all six collections (`src/App.js:11-19`, `:113-125`) are I/O and timers. The store is a plain value here.
- Identifier generation (`src/App.js:85-91`) draws a random number. The model takes that number, in [1000, 9999], as a parameter.
- `formatDate` (`src/App.js:26-36`) depends on the locale library.
- Dates are not parsed. Timestamps are integers, so a malformed stored date (which gives `NaN` in the comparator) is not modelled.
- The tracking-key counters (`src/App.js:50-51`, `:219`, `:350`) only restart animations.
- Rendering, dark mode, slides, auto-advance and keyboard navigation are UI state. So is the slide switch that also drops both drafts (`src/App.js:1788-1795`).
- The reminder, outstanding and payment lists (`src/App.js:1511-1607`) are generic list editing with no business rules.
- `src/Anolog.js`, the `src/components/ui/` wrappers and `tailwind.config.js` are rendering and build configuration.
- React's state batching is not modelled. Each handler's updates are applied in order and at once.
- Opening a card passes `salesOrders.indexOf(order)`. That is the card's own index, so the model passes the index directly.
- Records loaded from storage are taken as they come. The invariants are stated for boards whose store already meets them, because they are not recomputed on load.
- `Text.Lower`: maps ASCII letters only. JavaScript's `toLowerCase`/`toUpperCase` also map other Unicode letters, and can change a string's length.
- `Sales.StatusIndex`: an unknown status gives 0. The source looks the lower-cased status up in an object literal, so the key `constructor` or `__proto__` would return an inherited non-number. The model treats these as unknown.
- `Purchase.StatusIndex`: the same inherited-key simplification as for sales.
- `SalesEditor.SaveSalesOrder`: does not raise the uniqueness flag that the commit-time re-check sets (`src/App.js:264-267`). By `Sales.CommitAfterValidation`, that branch cannot fire after validation has passed in this sequential model.
- `Ordering.Sort`: an insertion sort stands in for the browser's `Array.prototype.sort`. Both are stable and the comparator is a consistent total preorder, so the stable result is the same. Its own contract states only the length; permutation, order and stability are `Ordering.SortPermutes`, `Ordering.SortSorted` and `Ordering.SortStable`.
- `Text.Capitalize`: its own contract states only that the length is kept. The character-by-character shape is stated by `Text.CapitalizeShape`.
- `Text.Decimal4`: its own contract states only that four digits come out. That they spell the drawn number is `Text.Decimal4RoundTrip`.
- `Seqs.Filter`: its own contract states only the bound and the test. Membership, copies and order are `Seqs.FilterMembership`, `Seqs.FilterCount` and `Seqs.FilterIsSubsequence`.
- `Sales.SearchSales`: its own contract states one direction. The converse, store order and the empty query are `Sales.SearchSalesSpec`.
- `Sales.Column`: its own contract states one direction. That every record of the column's status is present, once, is `Sales.ColumnsPartition`.
- `Purchase.SearchPurchases`: its own contract states one direction. The rest is `Purchase.SearchPurchasesSpec`.
- `Purchase.Column`: its own contract states one direction. The rest is `Purchase.ColumnsPartition`.
