/** Sales orders: the record, its status vocabulary, the draft field update
    with its status transition rules (`updateTempSalesOrder`), the form
    validator (`validateSalesForm`), the store commit (`saveSalesOrder`'s
    updater) and the list projection (search filter, sort, status columns,
    progress index). */
module Sales {
  import opened Wrappers
  import opened Text
  import opened Seqs
  import opened Ordering
  import opened DraftOrigin

  // ---------------------------------------------------------------------
  // Statuses
  // ---------------------------------------------------------------------

  datatype SalesStatus = Ordered | Packing | Bagged | Delivery | Done

  /** The spelling the status buttons pass to the update. */
  function StatusName(s: SalesStatus): string {
    match s
    case Ordered => "order"
    case Packing => "packing"
    case Bagged => "bagged"
    case Delivery => "delivery"
    case Done => "done"
  }

  /** Every comparison in the source lower-cases the stored status first;
      a string matching none of the five names is an unknown status. */
  function ParseStatus(text: string): Option<SalesStatus> {
    var l := Lower(text);
    if l == "order" then Some(Ordered)
    else if l == "packing" then Some(Packing)
    else if l == "bagged" then Some(Bagged)
    else if l == "delivery" then Some(Delivery)
    else if l == "done" then Some(Done)
    else None
  }

  /** A string is read as status `s` exactly when it equals the status name
      ignoring case. */
  lemma ParseStatusIff(text: string, s: SalesStatus)
    ensures ParseStatus(text) == Some(s) <==> EqualsIgnoreCase(text, StatusName(s))
  {
    LowerKeepsNonUpper(StatusName(s));
  }

  /** Capitalising a string never changes the status it is read as, so the
      stored "Done" still reads as done. */
  lemma ParseCapitalized(text: string)
    ensures ParseStatus(Capitalize(text)) == ParseStatus(text)
  {
    LowerCapitalize(text);
  }

  /** The progress bar steps, in order. */
  const Progression: seq<SalesStatus> := [Ordered, Packing, Bagged, Delivery, Done]

  /** `getSalesStatusIndex`: the position of the status on the progress bar;
      an unknown status counts as the first step. */
  function StatusIndex(text: string): (r: nat)
    ensures r < |Progression|
    ensures ParseStatus(text).None? ==> r == 0
    ensures ParseStatus(text).Some? ==> Progression[r] == ParseStatus(text).value
  {
    match ParseStatus(text)
    case None => 0
    case Some(s) =>
      match s
      case Ordered => 0
      case Packing => 1
      case Bagged => 2
      case Delivery => 3
      case Done => 4
  }

  /** The index reads each step's button value, and its stored capitalised
      form, as that step's position. */
  lemma StatusIndexOfSteps(i: nat)
    requires i < |Progression|
    ensures StatusIndex(StatusName(Progression[i])) == i
    ensures StatusIndex(Capitalize(StatusName(Progression[i]))) == i
  {
    var s := Progression[i];
    ParseStatusIff(StatusName(s), s);
    ParseCapitalized(StatusName(s));
  }

  // ---------------------------------------------------------------------
  // The record
  // ---------------------------------------------------------------------

  /** A sales order. Times are milliseconds; `completedDate` is absent until
      the order is marked done. */
  datatype SalesOrder = SalesOrder(
    name: string,
    slipNo: string,
    source: string,
    status: string,
    bagged: string,
    delivery: string,
    bagNumber: string,
    bagAmount: string,
    date: int,
    completedDate: Option<int>)

  /** The fields the form writes through `updateTempSalesOrder`. */
  datatype SalesField =
    NameField | SlipNoField | SourceField | StatusField | DeliveryField | BagNumberField | BagAmountField

  function Get(o: SalesOrder, f: SalesField): string {
    match f
    case NameField => o.name
    case SlipNoField => o.slipNo
    case SourceField => o.source
    case StatusField => o.status
    case DeliveryField => o.delivery
    case BagNumberField => o.bagNumber
    case BagAmountField => o.bagAmount
  }

  /** `{ ...o, [f]: v }` */
  function Put(o: SalesOrder, f: SalesField, v: string): (r: SalesOrder)
    ensures Get(r, f) == v
    ensures forall g :: g != f ==> Get(r, g) == Get(o, g)
    ensures r.bagged == o.bagged && r.date == o.date && r.completedDate == o.completedDate
  {
    match f
    case NameField => o.(name := v)
    case SlipNoField => o.(slipNo := v)
    case SourceField => o.(source := v)
    case StatusField => o.(status := v)
    case DeliveryField => o.(delivery := v)
    case BagNumberField => o.(bagNumber := v)
    case BagAmountField => o.(bagAmount := v)
  }

  /** `SL-` followed by the drawn four-digit number. */
  function SlipNumber(n: int): string
    requires 1000 <= n <= 9999
  {
    "SL-" + Decimal4(n)
  }

  /** Two generated slip numbers are equal, even ignoring case, only when
      the drawn numbers are equal. */
  lemma SlipNumberInjective(n: int, m: int)
    requires 1000 <= n <= 9999 && 1000 <= m <= 9999
    ensures EqualsIgnoreCase(SlipNumber(n), SlipNumber(m)) <==> n == m
  {
    if EqualsIgnoreCase(SlipNumber(n), SlipNumber(m)) {
      var a, b := Decimal4(n), Decimal4(m);
      LowerKeepsNonUpper(a);
      LowerKeepsNonUpper(b);
      assert Lower(SlipNumber(n))[3..] == Lower(a);
      assert Lower(SlipNumber(m))[3..] == Lower(b);
      Decimal4RoundTrip(n);
      Decimal4RoundTrip(m);
    }
  }

  /** `addNewSalesOrder`'s record: the drawn slip number, the defaults and
      the creation time `now`. */
  function NewSalesOrder(n: int, now: int): SalesOrder
    requires 1000 <= n <= 9999
  {
    SalesOrder("", SlipNumber(n), "whatsapp", "order", "no", "takeaway", "", "", now, None)
  }

  /** A record carries a completion time exactly while its status reads as
      done. */
  predicate CompletionTracksStatus(o: SalesOrder) {
    o.completedDate.Some? <==> ParseStatus(o.status) == Some(Done)
  }

  /** A fresh record is open, unbagged, timestamped `now` and consistent. */
  lemma NewSalesOrderShape(n: int, now: int)
    requires 1000 <= n <= 9999
    ensures var o := NewSalesOrder(n, now);
      && ParseStatus(o.status) == Some(Ordered) && StatusIndex(o.status) == 0
      && o.date == now && o.completedDate.None?
      && !Blank(o.slipNo) && CompletionTracksStatus(o)
  {
    var o := NewSalesOrder(n, now);
    assert o.status == StatusName(Ordered);
    ParseStatusIff(o.status, Ordered);
    assert ParseStatus(o.status) == Some(Ordered);
    var slip := SlipNumber(n);
    assert o.slipNo == slip && slip[0] == 'S';
    BlankIffAllSpace(slip);
  }

  // ---------------------------------------------------------------------
  // Field update and status transition (updateTempSalesOrder)
  // ---------------------------------------------------------------------

  /** One form edit applied to the draft `prev` at time `now`. The slip
      number is stored as typed, every other field capitalised; choosing a
      status also adjusts the bag fields and the completion time. */
  function UpdateSalesOrder(prev: SalesOrder, field: SalesField, value: string, now: int): (r: SalesOrder)
    ensures field == SlipNoField ==> r.slipNo == value
    ensures field != SlipNoField ==> Get(r, field) == Capitalize(value)
    ensures forall g :: g != field && !(field == StatusField && (g == BagNumberField || g == BagAmountField)) ==>
                            Get(r, g) == Get(prev, g)
    ensures r.date == prev.date
    ensures field != StatusField ==> r.bagged == prev.bagged && r.completedDate == prev.completedDate
    // bagging
    ensures field == StatusField && ParseStatus(value) == Some(Bagged) ==>
                  r.bagged == "yes" && r.bagNumber == prev.bagNumber && r.bagAmount == prev.bagAmount
    ensures field == StatusField && ParseStatus(value) in {Some(Ordered), Some(Packing)} ==>
                  r.bagged == "no" && r.bagNumber == "" && r.bagAmount == ""
    ensures field == StatusField && ParseStatus(value) !in {Some(Ordered), Some(Packing), Some(Bagged)} ==>
                  r.bagged == prev.bagged && r.bagNumber == prev.bagNumber && r.bagAmount == prev.bagAmount
    // completion time
    ensures field == StatusField && ParseStatus(value) == Some(Done) && prev.completedDate.None? ==>
                  r.completedDate == Some(now)
    ensures field == StatusField && ParseStatus(value) == Some(Done) && prev.completedDate.Some? ==>
                  r.completedDate == prev.completedDate
    ensures field == StatusField && ParseStatus(value) != Some(Done) && ParseStatus(prev.status) == Some(Done) ==>
                  r.completedDate.None?
    ensures field == StatusField && ParseStatus(value) != Some(Done) && ParseStatus(prev.status) != Some(Done) ==>
                  r.completedDate == prev.completedDate
  {
    var o := Put(prev, field, if field == SlipNoField then value else Capitalize(value));
    if field != StatusField then o
    else
      var status := ParseStatus(value);
      Bagging(o, status).(completedDate := NextCompletion(prev, status, now))
  }

  /** The bag fields once `status` is chosen: bagged sets the flag, order
      and packing clear the flag and the bag details, any other status
      leaves them. */
  function Bagging(o: SalesOrder, status: Option<SalesStatus>): (r: SalesOrder)
    ensures r.(bagged := o.bagged, bagNumber := o.bagNumber, bagAmount := o.bagAmount) == o
    ensures status == Some(Bagged) ==> r.bagged == "yes" && r.bagNumber == o.bagNumber && r.bagAmount == o.bagAmount
    ensures status in {Some(Ordered), Some(Packing)} ==> r.bagged == "no" && r.bagNumber == "" && r.bagAmount == ""
    ensures status !in {Some(Ordered), Some(Packing), Some(Bagged)} ==> r == o
  {
    if status == Some(Bagged) then o.(bagged := "yes")
    else if status == Some(Ordered) || status == Some(Packing) then o.(bagged := "no", bagNumber := "", bagAmount := "")
    else o
  }

  /** The completion time once `status` is chosen for `prev`: stamped on
      reaching done unless already present, removed on leaving it. */
  function NextCompletion(prev: SalesOrder, status: Option<SalesStatus>, now: int): (r: Option<int>)
    ensures status == Some(Done) && prev.completedDate.None? ==> r == Some(now)
    ensures status == Some(Done) && prev.completedDate.Some? ==> r == prev.completedDate
    ensures status != Some(Done) && ParseStatus(prev.status) == Some(Done) ==> r.None?
    ensures status != Some(Done) && ParseStatus(prev.status) != Some(Done) ==> r == prev.completedDate
  {
    var stamped := if status == Some(Done) && prev.completedDate.None? then Some(now) else prev.completedDate;
    if ParseStatus(prev.status) == Some(Done) && status != Some(Done) then None else stamped
  }

  /** The stored status reads as the status that was chosen. */
  lemma UpdateStatusReadsBack(prev: SalesOrder, value: string, now: int)
    ensures ParseStatus(UpdateSalesOrder(prev, StatusField, value, now).status) == ParseStatus(value)
  {
    ParseCapitalized(value);
  }

  /** Every edit keeps "completion time present iff done". */
  lemma UpdatePreservesCompletion(prev: SalesOrder, field: SalesField, value: string, now: int)
    requires CompletionTracksStatus(prev)
    ensures CompletionTracksStatus(UpdateSalesOrder(prev, field, value, now))
  {
    if field == StatusField {
      UpdateStatusReadsBack(prev, value, now);
    }
  }

  /** Repeating an edit, at any later time, changes nothing: in particular
      re-selecting done keeps the first completion time. */
  lemma UpdateIdempotent(prev: SalesOrder, field: SalesField, value: string, now: int, later: int)
    ensures var once := UpdateSalesOrder(prev, field, value, now);
            UpdateSalesOrder(once, field, value, later) == once
  {
    CapitalizeIdempotent(value);
    if field == StatusField {
      UpdateStatusReadsBack(prev, value, now);
    }
  }

  /** Moving a done order back and then to done again stamps it afresh with
      the time of the second choice. */
  lemma ReopenThenFinish(prev: SalesOrder, back: string, t1: int, t2: int)
    requires ParseStatus(prev.status) == Some(Done) && ParseStatus(back) != Some(Done)
    ensures var reopened := UpdateSalesOrder(prev, StatusField, back, t1);
            && reopened.completedDate.None?
            && UpdateSalesOrder(reopened, StatusField, "done", t2).completedDate == Some(t2)
  {
    var reopened := UpdateSalesOrder(prev, StatusField, back, t1);
    assert reopened.completedDate.None?;
    ParseStatusIff("done", Done);
    assert ParseStatus("done") == Some(Done);
  }

  // ---------------------------------------------------------------------
  // Validation (validateSalesForm)
  // ---------------------------------------------------------------------

  /** The three error flags of the form, all reported together. */
  datatype SalesErrors = SalesErrors(name: bool, slipNo: bool, slipNoUnique: bool) {
    predicate Clear() { !name && !slipNo && !slipNoUnique }
  }

  const NoSalesErrors := SalesErrors(false, false, false)

  /** Another record, other than the one being edited, already uses `slip`
      ignoring case. */
  ghost predicate DuplicateSlip(store: seq<SalesOrder>, slip: string, origin: Origin) {
    exists j :: 0 <= j < |store| && origin != Editing(j) && EqualsIgnoreCase(store[j].slipNo, slip)
  }

  /** The `.some(...)` scan over the store from index `k` on; the record at
      the edited index is skipped. */
  function SlipInUseFrom(store: seq<SalesOrder>, slip: string, origin: Origin, k: nat): (r: bool)
    ensures r <==> exists j :: k <= j < |store| && origin != Editing(j) && EqualsIgnoreCase(store[j].slipNo, slip)
    decreases |store| - k
  {
    if k >= |store| then false
    else (origin != Editing(k) && Lower(store[k].slipNo) == Lower(slip)) || SlipInUseFrom(store, slip, origin, k + 1)
  }

  function SlipInUse(store: seq<SalesOrder>, slip: string, origin: Origin): (r: bool)
    ensures r <==> DuplicateSlip(store, slip, origin)
  {
    SlipInUseFrom(store, slip, origin, 0)
  }

  /** `validateSalesForm` on a present draft: a blank name, a blank slip
      number and (for a non-blank slip number) a clash with another record
      are flagged independently; the form passes when no flag is set. */
  function ValidateSales(draft: SalesOrder, store: seq<SalesOrder>, origin: Origin): (r: SalesErrors)
    ensures r.name <==> AllSpace(draft.name)
    ensures r.slipNo <==> AllSpace(draft.slipNo)
    ensures r.slipNoUnique <==> !AllSpace(draft.slipNo) && DuplicateSlip(store, draft.slipNo, origin)
    ensures r.Clear() <==>
              !AllSpace(draft.name) && !AllSpace(draft.slipNo) && !DuplicateSlip(store, draft.slipNo, origin)
  {
    BlankIffAllSpace(draft.name);
    BlankIffAllSpace(draft.slipNo);
    var slipEmpty := Blank(draft.slipNo);
    var unique := !SlipInUse(store, draft.slipNo, origin);
    SalesErrors(Blank(draft.name), slipEmpty, !unique && !slipEmpty)
  }

  // ---------------------------------------------------------------------
  // Commit (saveSalesOrder's store updater)
  // ---------------------------------------------------------------------

  /** Writes the draft into the store: an edited record replaces its slot;
      otherwise the draft is appended, unless its slip number is already in
      use ignoring case, in which case the store is returned unchanged. */
  function CommitSales(store: seq<SalesOrder>, draft: SalesOrder, origin: Origin): (r: seq<SalesOrder>)
    requires origin.Editing? ==> origin.index < |store|
    ensures origin.Editing? ==>
              && |r| == |store| && r[origin.index] == draft
              && forall j :: 0 <= j < |store| && j != origin.index ==> r[j] == store[j]
    ensures !origin.Editing? && DuplicateSlip(store, draft.slipNo, Creating) ==> r == store
    ensures !origin.Editing? && !DuplicateSlip(store, draft.slipNo, Creating) ==> r == store + [draft]
  {
    if origin.Editing? then ReplaceAt(store, origin.index, draft)
    else if SlipInUse(store, draft.slipNo, Creating) then store
    else store + [draft]
  }

  /** A commit of a consistent draft into a consistent store leaves every
      record consistent. */
  lemma CommitKeepsCompletions(store: seq<SalesOrder>, draft: SalesOrder, origin: Origin)
    requires origin.Editing? ==> origin.index < |store|
    requires forall j :: 0 <= j < |store| ==> CompletionTracksStatus(store[j])
    requires CompletionTracksStatus(draft)
    ensures forall j :: 0 <= j < |CommitSales(store, draft, origin)| ==>
              CompletionTracksStatus(CommitSales(store, draft, origin)[j])
  {
    var r := CommitSales(store, draft, origin);
    forall j | 0 <= j < |r|
      ensures CompletionTracksStatus(r[j])
    {
      if j >= |store| || (origin.Editing? && j == origin.index) {
        assert r[j] == draft;
      } else {
        assert r[j] == store[j];
      }
    }
  }

  /** No two records of the store share a slip number, ignoring case. */
  predicate SlipsUnique(store: seq<SalesOrder>) {
    forall i, j :: 0 <= i < j < |store| ==> !EqualsIgnoreCase(store[i].slipNo, store[j].slipNo)
  }

  /** A draft that passed validation commits without a clash and keeps the
      store's slip numbers unique; on a new record the commit-time re-check
      therefore never fires. */
  lemma CommitAfterValidation(store: seq<SalesOrder>, draft: SalesOrder, origin: Origin)
    requires origin.Editing? ==> origin.index < |store|
    requires SlipsUnique(store)
    requires ValidateSales(draft, store, origin).Clear()
    ensures !origin.Editing? ==> CommitSales(store, draft, origin) == store + [draft]
    ensures SlipsUnique(CommitSales(store, draft, origin))
  {
    var r := CommitSales(store, draft, origin);
    if !origin.Editing? {
      assert !DuplicateSlip(store, draft.slipNo, Creating);
    }
    forall i, j | 0 <= i < j < |r|
      ensures !EqualsIgnoreCase(r[i].slipNo, r[j].slipNo)
    {
      if origin.Editing? && j == origin.index {
        assert origin != Editing(i);
      } else if origin.Editing? && i == origin.index {
        assert origin != Editing(j);
      } else if !origin.Editing? && j == |store| {
        assert origin != Editing(i);
      }
    }
  }

  /** The first record whose slip number matches `slip` ignoring case. */
  function LookupSlip(store: seq<SalesOrder>, slip: string): (r: Option<SalesOrder>)
    ensures r.Some? ==> r.value in store && EqualsIgnoreCase(r.value.slipNo, slip)
    ensures r.None? ==> forall j :: 0 <= j < |store| ==> !EqualsIgnoreCase(store[j].slipNo, slip)
  {
    if |store| == 0 then None
    else if Lower(store[0].slipNo) == Lower(slip) then Some(store[0])
    else LookupSlip(store[1..], slip)
  }

  /** In a store with unique slip numbers, looking up a record's slip number
      finds that record. */
  lemma {:induction false} LookupFindsUnique(store: seq<SalesOrder>, i: nat)
    requires SlipsUnique(store) && i < |store|
    ensures LookupSlip(store, store[i].slipNo) == Some(store[i])
  {
    if i > 0 {
      assert !EqualsIgnoreCase(store[0].slipNo, store[i].slipNo);
      assert SlipsUnique(store[1..]) by {
        forall a, b | 0 <= a < b < |store[1..]|
          ensures !EqualsIgnoreCase(store[1..][a].slipNo, store[1..][b].slipNo)
        {
          assert store[1..][a] == store[a + 1] && store[1..][b] == store[b + 1];
        }
      }
      LookupFindsUnique(store[1..], i - 1);
    }
  }

  // ---------------------------------------------------------------------
  // Projection: search, sort, columns
  // ---------------------------------------------------------------------

  /** The search box matches the customer name or the slip number, ignoring
      case, as a substring. */
  predicate MatchesQuery(o: SalesOrder, query: string) {
    Contains(Lower(o.name), Lower(query)) || Contains(Lower(o.slipNo), Lower(query))
  }

  function SearchSales(store: seq<SalesOrder>, query: string): (r: seq<SalesOrder>)
    ensures |r| <= |store|
    ensures forall i :: 0 <= i < |r| ==> MatchesQuery(r[i], query)
  {
    Filter(store, o => MatchesQuery(o, query))
  }

  /** The search result keeps exactly the matching records, in store order,
      and an empty query keeps everything. */
  lemma SearchSalesSpec(store: seq<SalesOrder>, query: string)
    ensures forall o :: o in SearchSales(store, query) <==> o in store && MatchesQuery(o, query)
    ensures forall o :: multiset(SearchSales(store, query))[o] == if MatchesQuery(o, query) then multiset(store)[o] else 0
    ensures IsSubsequence(SearchSales(store, query), store)
    ensures query == "" ==> SearchSales(store, query) == store
  {
    forall o
      ensures o in SearchSales(store, query) <==> o in store && MatchesQuery(o, query)
    {
      FilterMembership(store, o => MatchesQuery(o, query), o);
    }
    forall o
      ensures multiset(SearchSales(store, query))[o] == if MatchesQuery(o, query) then multiset(store)[o] else 0
    {
      FilterCount(store, o => MatchesQuery(o, query), o);
    }
    FilterIsSubsequence(store, o => MatchesQuery(o, query));
    if query == "" {
      forall i | 0 <= i < |store|
        ensures MatchesQuery(store[i], query)
      {
        ContainsEmpty(Lower(store[i].name));
      }
      FilterKeepsAll(store, o => MatchesQuery(o, query));
    }
  }

  function SalesStamp(o: SalesOrder): Stamp {
    Stamp(o.completedDate, o.date)
  }

  /** `sortSalesOrders` */
  function SortSales(orders: seq<SalesOrder>): seq<SalesOrder> {
    Sort(orders, SalesStamp)
  }

  /** The sorted list is a permutation of its input in display order: open
      orders first, newest created first, then completed orders, most
      recently completed first; orders the comparator cannot tell apart keep
      their input order. */
  lemma SortSalesSpec(orders: seq<SalesOrder>, k: Stamp)
    ensures multiset(SortSales(orders)) == multiset(orders)
    ensures DisplayOrder(SortSales(orders), SalesStamp)
    ensures TieClass(SortSales(orders), SalesStamp, k) == TieClass(orders, SalesStamp, k)
  {
    SortPermutes(orders, SalesStamp);
    SortSorted(orders, SalesStamp);
    SortedIffDisplayOrder(SortSales(orders), SalesStamp);
    SortStable(orders, SalesStamp, k);
  }

  /** Three orders, one open and two completed at times 1 and 2: the open
      order is listed first, then the later completion, then the earlier
      one, whatever the creation times. */
  lemma SortOpenOrderFirst(a: SalesOrder, b: SalesOrder, c: SalesOrder)
    requires a.completedDate.None? && b.completedDate == Some(1) && c.completedDate == Some(2)
    ensures SortSales([a, b, c]) == [a, c, b]
  {
    SortThree(a, b, c, SalesStamp);
  }

  /** `filteredSalesOrders` */
  function FilteredSales(store: seq<SalesOrder>, query: string): (r: seq<SalesOrder>)
    ensures forall o :: o in r <==> o in store && MatchesQuery(o, query)
    ensures forall o :: multiset(r)[o] == if MatchesQuery(o, query) then multiset(store)[o] else 0
    ensures |r| <= |store|
    ensures DisplayOrder(r, SalesStamp)
  {
    var found := SearchSales(store, query);
    SearchSalesSpec(store, query);
    SortPermutes(found, SalesStamp);
    SameMembers(SortSales(found), found);
    SortSorted(found, SalesStamp);
    SortedIffDisplayOrder(SortSales(found), SalesStamp);
    SortSales(found)
  }

  /** The four status columns of the sales board. */
  datatype SalesColumn = PlacedColumn | PackingColumn | BaggedColumn | DoneColumn

  /** Which column a status belongs to; bagged and delivery share one. */
  function ColumnOf(s: SalesStatus): SalesColumn {
    match s
    case Ordered => PlacedColumn
    case Packing => PackingColumn
    case Bagged => BaggedColumn
    case Delivery => BaggedColumn
    case Done => DoneColumn
  }

  /** The column tests as written, on the lower-cased stored status. */
  predicate InColumn(o: SalesOrder, c: SalesColumn) {
    var l := Lower(o.status);
    match c
    case PlacedColumn => l == "order"
    case PackingColumn => l == "packing"
    case BaggedColumn => l == "bagged" || l == "delivery"
    case DoneColumn => l == "done"
  }

  function Column(orders: seq<SalesOrder>, c: SalesColumn): (r: seq<SalesOrder>)
    ensures |r| <= |orders|
    ensures forall i :: 0 <= i < |r| ==> InColumn(r[i], c)
  {
    Filter(orders, o => InColumn(o, c))
  }

  /** A record is in a column exactly when its status is known and belongs
      to that column. */
  lemma InColumnIff(o: SalesOrder, c: SalesColumn)
    ensures InColumn(o, c) <==> ParseStatus(o.status).Some? && ColumnOf(ParseStatus(o.status).value) == c
  {
  }

  predicate KnownStatus(o: SalesOrder) {
    ParseStatus(o.status).Some?
  }

  /** A column's contents, one record at a time. */
  lemma ColumnHead(orders: seq<SalesOrder>, c: SalesColumn)
    requires |orders| > 0
    ensures multiset(Column(orders, c)) ==
              (if InColumn(orders[0], c) then multiset{orders[0]} else multiset{}) + multiset(Column(orders[1..], c))
  {
    if InColumn(orders[0], c) {
      assert Column(orders, c) == [orders[0]] + Column(orders[1..], c);
    }
  }

  /** The four columns together hold every record with a known status
      exactly once, and nothing else. */
  lemma {:induction false} ColumnsPartition(orders: seq<SalesOrder>)
    ensures multiset(Column(orders, PlacedColumn)) + multiset(Column(orders, PackingColumn))
            + multiset(Column(orders, BaggedColumn)) + multiset(Column(orders, DoneColumn))
            == multiset(Filter(orders, KnownStatus))
  {
    if |orders| > 0 {
      ColumnsPartition(orders[1..]);
      var o := orders[0];
      InColumnIff(o, PlacedColumn);
      InColumnIff(o, PackingColumn);
      InColumnIff(o, BaggedColumn);
      InColumnIff(o, DoneColumn);
      ColumnHead(orders, PlacedColumn);
      ColumnHead(orders, PackingColumn);
      ColumnHead(orders, BaggedColumn);
      ColumnHead(orders, DoneColumn);
      FilterHead(orders, KnownStatus);
    }
  }

  /** No record appears in two columns, and every record with a known status
      appears in the column of its status. */
  lemma ColumnsDisjointAndCover(orders: seq<SalesOrder>, o: SalesOrder, c1: SalesColumn, c2: SalesColumn)
    ensures c1 != c2 ==> !(o in Column(orders, c1) && o in Column(orders, c2))
    ensures o in orders && KnownStatus(o) ==> o in Column(orders, ColumnOf(ParseStatus(o.status).value))
  {
    FilterMembership(orders, o => InColumn(o, c1), o);
    FilterMembership(orders, o => InColumn(o, c2), o);
    InColumnIff(o, c1);
    InColumnIff(o, c2);
    if KnownStatus(o) {
      var c := ColumnOf(ParseStatus(o.status).value);
      FilterMembership(orders, o => InColumn(o, c), o);
      InColumnIff(o, c);
    }
  }

  /** Each displayed column is itself in display order. */
  lemma ColumnInDisplayOrder(store: seq<SalesOrder>, query: string, c: SalesColumn)
    ensures DisplayOrder(Column(FilteredSales(store, query), c), SalesStamp)
  {
    var sorted := FilteredSales(store, query);
    SortSorted(SearchSales(store, query), SalesStamp);
    FilterSorted(sorted, SalesStamp, o => InColumn(o, c));
    SortedIffDisplayOrder(Column(sorted, c), SalesStamp);
  }
}
