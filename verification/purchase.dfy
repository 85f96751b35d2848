/** Purchase orders: the record, its two statuses, the draft field update
    (`updateTempPurchaseOrder`), the form validator
    (`validatePurchaseForm`), the store commit (`savePurchaseOrder`'s
    updater) and the list projection. */
module Purchase {
  import opened Wrappers
  import opened Text
  import opened Seqs
  import opened Ordering
  import opened DraftOrigin

  // ---------------------------------------------------------------------
  // Statuses
  // ---------------------------------------------------------------------

  datatype PurchaseStatus = Ordered | Received

  function StatusName(s: PurchaseStatus): string {
    match s
    case Ordered => "order"
    case Received => "received"
  }

  /** A stored status read case-insensitively; anything else is unknown. */
  function ParseStatus(text: string): Option<PurchaseStatus> {
    var l := Lower(text);
    if l == "order" then Some(Ordered)
    else if l == "received" then Some(Received)
    else None
  }

  /** A string is read as status `s` exactly when it equals the status name
      ignoring case. */
  lemma ParseStatusIff(text: string, s: PurchaseStatus)
    ensures ParseStatus(text) == Some(s) <==> EqualsIgnoreCase(text, StatusName(s))
  {
    LowerKeepsNonUpper(StatusName(s));
  }

  /** The capitalised stored status reads as the chosen one. */
  lemma ParseCapitalized(text: string)
    ensures ParseStatus(Capitalize(text)) == ParseStatus(text)
  {
    LowerCapitalize(text);
  }

  const Progression: seq<PurchaseStatus> := [Ordered, Received]

  /** `getPurchaseStatusIndex`: the step on the progress bar; an unknown
      status counts as the first step. */
  function StatusIndex(text: string): (r: nat)
    ensures r < |Progression|
    ensures ParseStatus(text).None? ==> r == 0
    ensures ParseStatus(text).Some? ==> Progression[r] == ParseStatus(text).value
  {
    match ParseStatus(text)
    case None => 0
    case Some(Ordered) => 0
    case Some(Received) => 1
  }

  /** The index reads each step's button value, and its stored capitalised
      form, as that step's position. */
  lemma StatusIndexOfSteps(i: nat)
    requires i < |Progression|
    ensures StatusIndex(StatusName(Progression[i])) == i
    ensures StatusIndex(Capitalize(StatusName(Progression[i]))) == i
  {
    var s := Progression[i];
    ParseStatusIff(StatusName(s), s);
    ParseCapitalized(StatusName(s));
  }

  // ---------------------------------------------------------------------
  // The record
  // ---------------------------------------------------------------------

  /** A purchase order. Times are milliseconds; `completedDate` is absent
      until the order is received. */
  datatype PurchaseOrder = PurchaseOrder(
    item: string,
    category: string,
    orderNo: string,
    status: string,
    date: int,
    completedDate: Option<int>)

  datatype PurchaseField = ItemField | CategoryField | OrderNoField | StatusField

  function Get(o: PurchaseOrder, f: PurchaseField): string {
    match f
    case ItemField => o.item
    case CategoryField => o.category
    case OrderNoField => o.orderNo
    case StatusField => o.status
  }

  /** `{ ...o, [f]: v }` */
  function Put(o: PurchaseOrder, f: PurchaseField, v: string): (r: PurchaseOrder)
    ensures Get(r, f) == v
    ensures forall g :: g != f ==> Get(r, g) == Get(o, g)
    ensures r.date == o.date && r.completedDate == o.completedDate
  {
    match f
    case ItemField => o.(item := v)
    case CategoryField => o.(category := v)
    case OrderNoField => o.(orderNo := v)
    case StatusField => o.(status := v)
  }

  /** `PO-` followed by the drawn four-digit number. */
  function OrderNumber(n: int): string
    requires 1000 <= n <= 9999
  {
    "PO-" + Decimal4(n)
  }

  /** Two generated order numbers are equal, even ignoring case, only when
      the drawn numbers are equal. */
  lemma OrderNumberInjective(n: int, m: int)
    requires 1000 <= n <= 9999 && 1000 <= m <= 9999
    ensures EqualsIgnoreCase(OrderNumber(n), OrderNumber(m)) <==> n == m
  {
    if EqualsIgnoreCase(OrderNumber(n), OrderNumber(m)) {
      var a, b := Decimal4(n), Decimal4(m);
      LowerKeepsNonUpper(a);
      LowerKeepsNonUpper(b);
      assert Lower(OrderNumber(n))[3..] == Lower(a);
      assert Lower(OrderNumber(m))[3..] == Lower(b);
      Decimal4RoundTrip(n);
      Decimal4RoundTrip(m);
    }
  }

  /** `addNewPurchaseOrder`'s record. */
  function NewPurchaseOrder(n: int, now: int): PurchaseOrder
    requires 1000 <= n <= 9999
  {
    PurchaseOrder("", "", OrderNumber(n), "order", now, None)
  }

  /** A record carries a completion time exactly while its status reads as
      received. */
  predicate CompletionTracksStatus(o: PurchaseOrder) {
    o.completedDate.Some? <==> ParseStatus(o.status) == Some(Received)
  }

  /** A fresh record is open, timestamped `now`, consistent, and its item
      and category are still blank. */
  lemma NewPurchaseOrderShape(n: int, now: int)
    requires 1000 <= n <= 9999
    ensures var o := NewPurchaseOrder(n, now);
      && ParseStatus(o.status) == Some(Ordered) && StatusIndex(o.status) == 0
      && o.date == now && o.completedDate.None? && CompletionTracksStatus(o)
      && AllSpace(o.item) && AllSpace(o.category)
  {
    var o := NewPurchaseOrder(n, now);
    ParseStatusIff(o.status, Ordered);
  }

  // ---------------------------------------------------------------------
  // Field update and status transition (updateTempPurchaseOrder)
  // ---------------------------------------------------------------------

  /** One form edit applied to the draft `prev` at time `now`. The order
      number is stored as given, every other field capitalised; choosing a
      status also adjusts the completion time. */
  function UpdatePurchaseOrder(prev: PurchaseOrder, field: PurchaseField, value: string, now: int): (r: PurchaseOrder)
    ensures field == OrderNoField ==> r.orderNo == value
    ensures field != OrderNoField ==> Get(r, field) == Capitalize(value)
    ensures forall g :: g != field ==> Get(r, g) == Get(prev, g)
    ensures r.date == prev.date
    ensures field != StatusField ==> r.completedDate == prev.completedDate
    ensures field == StatusField && ParseStatus(value) == Some(Received) && prev.completedDate.None? ==>
              r.completedDate == Some(now)
    ensures field == StatusField && ParseStatus(value) == Some(Received) && prev.completedDate.Some? ==>
              r.completedDate == prev.completedDate
    ensures field == StatusField && ParseStatus(value) != Some(Received) && ParseStatus(prev.status) == Some(Received) ==>
              r.completedDate.None?
    ensures field == StatusField && ParseStatus(value) != Some(Received) && ParseStatus(prev.status) != Some(Received) ==>
              r.completedDate == prev.completedDate
  {
    var o := Put(prev, field, if field == OrderNoField then value else Capitalize(value));
    if field != StatusField then o
    else o.(completedDate := NextCompletion(prev, ParseStatus(value), now))
  }

  /** The completion time once `status` is chosen for `prev`: stamped on
      reaching received unless already present, removed on leaving it. */
  function NextCompletion(prev: PurchaseOrder, status: Option<PurchaseStatus>, now: int): (r: Option<int>)
    ensures status == Some(Received) && prev.completedDate.None? ==> r == Some(now)
    ensures status == Some(Received) && prev.completedDate.Some? ==> r == prev.completedDate
    ensures status != Some(Received) && ParseStatus(prev.status) == Some(Received) ==> r.None?
    ensures status != Some(Received) && ParseStatus(prev.status) != Some(Received) ==> r == prev.completedDate
  {
    var stamped := if status == Some(Received) && prev.completedDate.None? then Some(now) else prev.completedDate;
    if ParseStatus(prev.status) == Some(Received) && status != Some(Received) then None else stamped
  }

  /** Every edit keeps "completion time present iff received". */
  lemma UpdatePreservesCompletion(prev: PurchaseOrder, field: PurchaseField, value: string, now: int)
    requires CompletionTracksStatus(prev)
    ensures CompletionTracksStatus(UpdatePurchaseOrder(prev, field, value, now))
  {
    if field == StatusField {
      ParseCapitalized(value);
    }
  }

  /** Repeating an edit, at any later time, changes nothing: re-selecting
      received keeps the first completion time. */
  lemma UpdateIdempotent(prev: PurchaseOrder, field: PurchaseField, value: string, now: int, later: int)
    ensures var once := UpdatePurchaseOrder(prev, field, value, now);
            UpdatePurchaseOrder(once, field, value, later) == once
  {
    CapitalizeIdempotent(value);
    ParseCapitalized(value);
  }

  // ---------------------------------------------------------------------
  // Validation (validatePurchaseForm)
  // ---------------------------------------------------------------------

  datatype PurchaseErrors = PurchaseErrors(item: bool, category: bool) {
    predicate Clear() { !item && !category }
  }

  const NoPurchaseErrors := PurchaseErrors(false, false)

  /** Blank item and blank category are flagged independently; nothing else
      is checked. */
  function ValidatePurchase(draft: PurchaseOrder): (r: PurchaseErrors)
    ensures r.item <==> AllSpace(draft.item)
    ensures r.category <==> AllSpace(draft.category)
    ensures r.Clear() <==> !AllSpace(draft.item) && !AllSpace(draft.category)
  {
    BlankIffAllSpace(draft.item);
    BlankIffAllSpace(draft.category);
    PurchaseErrors(Blank(draft.item), Blank(draft.category))
  }

  // ---------------------------------------------------------------------
  // Commit (savePurchaseOrder's store updater)
  // ---------------------------------------------------------------------

  /** An edited record replaces its slot; otherwise the draft is appended,
      with no check of its order number. */
  function CommitPurchase(store: seq<PurchaseOrder>, draft: PurchaseOrder, origin: Origin): (r: seq<PurchaseOrder>)
    requires origin.Editing? ==> origin.index < |store|
    ensures origin.Editing? ==>
              && |r| == |store| && r[origin.index] == draft
              && forall j :: 0 <= j < |store| && j != origin.index ==> r[j] == store[j]
    ensures !origin.Editing? ==> |r| == |store| + 1 && r[..|store|] == store && r[|store|] == draft
  {
    if origin.Editing? then ReplaceAt(store, origin.index, draft) else store + [draft]
  }

  // ---------------------------------------------------------------------
  // Projection: search, sort, columns
  // ---------------------------------------------------------------------

  /** The search box matches the item or the order number, ignoring case, as
      a substring. */
  predicate MatchesQuery(o: PurchaseOrder, query: string) {
    Contains(Lower(o.item), Lower(query)) || Contains(Lower(o.orderNo), Lower(query))
  }

  function SearchPurchases(store: seq<PurchaseOrder>, query: string): (r: seq<PurchaseOrder>)
    ensures |r| <= |store|
    ensures forall i :: 0 <= i < |r| ==> MatchesQuery(r[i], query)
  {
    Filter(store, o => MatchesQuery(o, query))
  }

  /** The search result keeps exactly the matching records, in store order,
      and an empty query keeps everything. */
  lemma SearchPurchasesSpec(store: seq<PurchaseOrder>, query: string)
    ensures forall o :: o in SearchPurchases(store, query) <==> o in store && MatchesQuery(o, query)
    ensures forall o :: multiset(SearchPurchases(store, query))[o] == if MatchesQuery(o, query) then multiset(store)[o] else 0
    ensures IsSubsequence(SearchPurchases(store, query), store)
    ensures query == "" ==> SearchPurchases(store, query) == store
  {
    forall o
      ensures o in SearchPurchases(store, query) <==> o in store && MatchesQuery(o, query)
    {
      FilterMembership(store, o => MatchesQuery(o, query), o);
    }
    forall o
      ensures multiset(SearchPurchases(store, query))[o] == if MatchesQuery(o, query) then multiset(store)[o] else 0
    {
      FilterCount(store, o => MatchesQuery(o, query), o);
    }
    FilterIsSubsequence(store, o => MatchesQuery(o, query));
    if query == "" {
      forall i | 0 <= i < |store|
        ensures MatchesQuery(store[i], query)
      {
        ContainsEmpty(Lower(store[i].item));
      }
      FilterKeepsAll(store, o => MatchesQuery(o, query));
    }
  }

  function PurchaseStamp(o: PurchaseOrder): Stamp {
    Stamp(o.completedDate, o.date)
  }

  /** `sortPurchaseOrders` */
  function SortPurchases(orders: seq<PurchaseOrder>): seq<PurchaseOrder> {
    Sort(orders, PurchaseStamp)
  }

  /** The sorted list is a permutation of its input in display order: open
      orders first, newest created first, then received orders, most
      recently received first; ties keep their input order. */
  lemma SortPurchasesSpec(orders: seq<PurchaseOrder>, k: Stamp)
    ensures multiset(SortPurchases(orders)) == multiset(orders)
    ensures DisplayOrder(SortPurchases(orders), PurchaseStamp)
    ensures TieClass(SortPurchases(orders), PurchaseStamp, k) == TieClass(orders, PurchaseStamp, k)
  {
    SortPermutes(orders, PurchaseStamp);
    SortSorted(orders, PurchaseStamp);
    SortedIffDisplayOrder(SortPurchases(orders), PurchaseStamp);
    SortStable(orders, PurchaseStamp, k);
  }

  /** `filteredPurchaseOrders` */
  function FilteredPurchases(store: seq<PurchaseOrder>, query: string): (r: seq<PurchaseOrder>)
    ensures forall o :: o in r <==> o in store && MatchesQuery(o, query)
    ensures forall o :: multiset(r)[o] == if MatchesQuery(o, query) then multiset(store)[o] else 0
    ensures |r| <= |store|
    ensures DisplayOrder(r, PurchaseStamp)
  {
    var found := SearchPurchases(store, query);
    SearchPurchasesSpec(store, query);
    SortPermutes(found, PurchaseStamp);
    SameMembers(SortPurchases(found), found);
    SortSorted(found, PurchaseStamp);
    SortedIffDisplayOrder(SortPurchases(found), PurchaseStamp);
    SortPurchases(found)
  }

  datatype PurchaseColumn = PlacedColumn | ReceivedColumn

  function ColumnOf(s: PurchaseStatus): PurchaseColumn {
    match s
    case Ordered => PlacedColumn
    case Received => ReceivedColumn
  }

  /** The column tests as written, on the lower-cased stored status. */
  predicate InColumn(o: PurchaseOrder, c: PurchaseColumn) {
    var l := Lower(o.status);
    match c
    case PlacedColumn => l == "order"
    case ReceivedColumn => l == "received"
  }

  function Column(orders: seq<PurchaseOrder>, c: PurchaseColumn): (r: seq<PurchaseOrder>)
    ensures |r| <= |orders|
    ensures forall i :: 0 <= i < |r| ==> InColumn(r[i], c)
  {
    Filter(orders, o => InColumn(o, c))
  }

  lemma InColumnIff(o: PurchaseOrder, c: PurchaseColumn)
    ensures InColumn(o, c) <==> ParseStatus(o.status).Some? && ColumnOf(ParseStatus(o.status).value) == c
  {
  }

  predicate KnownStatus(o: PurchaseOrder) {
    ParseStatus(o.status).Some?
  }

  /** The two columns together hold every record with a known status exactly
      once, and nothing else. */
  lemma {:induction false} ColumnsPartition(orders: seq<PurchaseOrder>)
    ensures multiset(Column(orders, PlacedColumn)) + multiset(Column(orders, ReceivedColumn))
            == multiset(Filter(orders, KnownStatus))
  {
    if |orders| > 0 {
      ColumnsPartition(orders[1..]);
      InColumnIff(orders[0], PlacedColumn);
      InColumnIff(orders[0], ReceivedColumn);
    }
  }

  /** No record is in both columns, and every record with a known status is
      in the column of its status. */
  lemma ColumnsDisjointAndCover(orders: seq<PurchaseOrder>, o: PurchaseOrder)
    ensures !(o in Column(orders, PlacedColumn) && o in Column(orders, ReceivedColumn))
    ensures o in orders && KnownStatus(o) ==> o in Column(orders, ColumnOf(ParseStatus(o.status).value))
  {
    FilterMembership(orders, o => InColumn(o, PlacedColumn), o);
    FilterMembership(orders, o => InColumn(o, ReceivedColumn), o);
  }

  /** Each displayed column is itself in display order. */
  lemma ColumnInDisplayOrder(store: seq<PurchaseOrder>, query: string, c: PurchaseColumn)
    ensures DisplayOrder(Column(FilteredPurchases(store, query), c), PurchaseStamp)
  {
    var sorted := FilteredPurchases(store, query);
    SortSorted(SearchPurchases(store, query), PurchaseStamp);
    FilterSorted(sorted, PurchaseStamp, o => InColumn(o, c));
    SortedIffDisplayOrder(Column(sorted, c), PurchaseStamp);
  }
}
