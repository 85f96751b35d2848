/** The purchase slide as a reducer: the store, the draft with its origin
    and the form's error flags, changed only by the source's handlers
    (`addNewPurchaseOrder`, opening a card, the item, category and status
    controls, `savePurchaseOrder`, `cancelPurchaseEdit`,
    `deletePurchaseOrder`). The order-number input is read-only and has no
    handler, so no intent writes it. */
module PurchaseEditor {
  import opened Wrappers
  import opened Text
  import opened Seqs
  import opened DraftOrigin
  import opened Purchase

  datatype PurchaseBoard = PurchaseBoard(
    store: seq<PurchaseOrder>,
    draft: Option<PurchaseOrder>,
    origin: Origin,
    errors: PurchaseErrors)

  /** There is a draft exactly when the origin is not idle, and an edited
      index lies inside the store. */
  predicate Valid(b: PurchaseBoard) {
    && (b.draft.None? <==> b.origin.Idle?)
    && (b.origin.Editing? ==> b.origin.index < |b.store|)
  }

  /** `addNewPurchaseOrder`: a fresh draft with the drawn order number `n`. */
  function AddNewPurchaseOrder(b: PurchaseBoard, n: int, now: int): (r: PurchaseBoard)
    requires 1000 <= n <= 9999
    ensures Valid(r) && r.store == b.store && r.origin == Creating && r.errors.Clear()
    ensures r.draft == Some(NewPurchaseOrder(n, now))
    ensures r.draft.value.orderNo == OrderNumber(n) && r.draft.value.date == now
  {
    b.(draft := Some(NewPurchaseOrder(n, now)), origin := Creating, errors := NoPurchaseErrors)
  }

  /** Clicking a card: a copy of record `i` becomes the draft. */
  function OpenPurchaseOrder(b: PurchaseBoard, i: nat): (r: PurchaseBoard)
    requires i < |b.store|
    ensures Valid(r) && r.store == b.store && r.draft == Some(b.store[i]) && r.origin == Editing(i)
    ensures r.errors.Clear()
  {
    b.(draft := Some(b.store[i]), origin := Editing(i), errors := NoPurchaseErrors)
  }

  /** `updateTempPurchaseOrder`: edits the draft if there is one. */
  function UpdateTempPurchaseOrder(b: PurchaseBoard, field: PurchaseField, value: string, now: int): (r: PurchaseBoard)
    ensures r.store == b.store && r.origin == b.origin && r.errors == b.errors
    ensures b.draft.None? ==> r.draft.None?
    ensures b.draft.Some? ==> r.draft == Some(UpdatePurchaseOrder(b.draft.value, field, value, now))
  {
    b.(draft := if b.draft.None? then None else Some(UpdatePurchaseOrder(b.draft.value, field, value, now)))
  }

  /** The item input: updates the draft and lowers the item flag. */
  function TypeItem(b: PurchaseBoard, value: string, now: int): (r: PurchaseBoard)
    ensures r.store == b.store && r.origin == b.origin && r.errors == b.errors.(item := false)
    ensures b.draft.None? ==> r.draft.None?
    ensures b.draft.Some? ==> r.draft == Some(UpdatePurchaseOrder(b.draft.value, ItemField, value, now))
    ensures b.draft.Some? ==> r.draft.value.item == Capitalize(value)
  {
    var u := UpdateTempPurchaseOrder(b, ItemField, value, now);
    u.(errors := u.errors.(item := false))
  }

  /** The category input: updates the draft and lowers the category flag. */
  function TypeCategory(b: PurchaseBoard, value: string, now: int): (r: PurchaseBoard)
    ensures r.store == b.store && r.origin == b.origin && r.errors == b.errors.(category := false)
    ensures b.draft.None? ==> r.draft.None?
    ensures b.draft.Some? ==> r.draft == Some(UpdatePurchaseOrder(b.draft.value, CategoryField, value, now))
    ensures b.draft.Some? ==> r.draft.value.category == Capitalize(value)
  {
    var u := UpdateTempPurchaseOrder(b, CategoryField, value, now);
    u.(errors := u.errors.(category := false))
  }

  /** `savePurchaseOrder`: without a draft nothing happens; a draft failing
      validation stays open with the flags raised; a passing draft is
      committed (appended when new) and the editor returns to the list. */
  function SavePurchaseOrder(b: PurchaseBoard): (r: PurchaseBoard)
    requires Valid(b)
    ensures b.draft.None? ==> r == b
    ensures b.draft.Some? && !ValidatePurchase(b.draft.value).Clear() ==>
              && r.store == b.store && r.draft == b.draft && r.origin == b.origin
              && r.errors == ValidatePurchase(b.draft.value)
    ensures b.draft.Some? && ValidatePurchase(b.draft.value).Clear() ==>
              && r.draft.None? && r.origin.Idle? && r.errors.Clear()
              && (b.origin.Editing? ==>
                    && |r.store| == |b.store| && r.store[b.origin.index] == b.draft.value
                    && forall j :: 0 <= j < |b.store| && j != b.origin.index ==> r.store[j] == b.store[j])
              && (b.origin.Creating? ==> r.store == b.store + [b.draft.value])
  {
    if b.draft.None? then b
    else
      var errors := ValidatePurchase(b.draft.value);
      if !errors.Clear() then b.(errors := errors)
      else
        b.(store := CommitPurchase(b.store, b.draft.value, b.origin), draft := None, origin := Idle,
           errors := NoPurchaseErrors)
  }

  /** `cancelPurchaseEdit` */
  function CancelPurchaseEdit(b: PurchaseBoard): (r: PurchaseBoard)
    ensures Valid(r) && r.store == b.store && r.draft.None? && r.errors.Clear()
  {
    b.(draft := None, origin := Idle, errors := NoPurchaseErrors)
  }

  /** `deletePurchaseOrder`: removes record `i` (nothing for an index outside
      the store) and drops any draft. */
  function DeletePurchaseOrder(b: PurchaseBoard, i: nat): (r: PurchaseBoard)
    ensures Valid(r) && r.draft.None?
    ensures i < |b.store| ==> r.store == b.store[..i] + b.store[i + 1..]
    ensures i >= |b.store| ==> r.store == b.store
  {
    b.(store := RemoveAt(b.store, i), draft := None, origin := Idle)
  }

  // ---------------------------------------------------------------------
  // The reducer
  // ---------------------------------------------------------------------

  datatype PurchaseIntent =
    | AddNew(number: int, now: int)
    | Open(index: nat)
    | EnterItem(value: string, now: int)
    | EnterCategory(value: string, now: int)
    | ChooseStatus(value: string, now: int)
    | Save
    | Cancel
    | Delete(index: nat)

  predicate Allowed(b: PurchaseBoard, a: PurchaseIntent) {
    match a
    case AddNew(n, _) => 1000 <= n <= 9999
    case Open(i) => i < |b.store|
    case _ => true
  }

  function Step(b: PurchaseBoard, a: PurchaseIntent): (r: PurchaseBoard)
    requires Valid(b) && Allowed(b, a)
    ensures Valid(r)
  {
    match a
    case AddNew(n, now) => AddNewPurchaseOrder(b, n, now)
    case Open(i) => OpenPurchaseOrder(b, i)
    case EnterItem(v, now) => TypeItem(b, v, now)
    case EnterCategory(v, now) => TypeCategory(b, v, now)
    case ChooseStatus(v, now) => UpdateTempPurchaseOrder(b, StatusField, v, now)
    case Save => SavePurchaseOrder(b)
    case Cancel => CancelPurchaseEdit(b)
    case Delete(i) => DeletePurchaseOrder(b, i)
  }

  predicate AllCompletionsTrack(b: PurchaseBoard) {
    && (forall j :: 0 <= j < |b.store| ==> CompletionTracksStatus(b.store[j]))
    && (b.draft.Some? ==> CompletionTracksStatus(b.draft.value))
  }

  /** A draft opened from record `i` keeps that record's order number and
      creation time. */
  predicate IdentityPinned(b: PurchaseBoard) {
    b.draft.Some? && b.origin.Editing? && b.origin.index < |b.store| ==>
      && b.draft.value.orderNo == b.store[b.origin.index].orderNo
      && b.draft.value.date == b.store[b.origin.index].date
  }

  predicate Inv(b: PurchaseBoard) {
    Valid(b) && AllCompletionsTrack(b) && IdentityPinned(b)
  }

  /** An edit of the item, category or status keeps the invariant. */
  lemma EditKeepsInv(b: PurchaseBoard, f: PurchaseField, v: string, now: int)
    requires Inv(b) && f != OrderNoField
    ensures Inv(UpdateTempPurchaseOrder(b, f, v, now))
  {
    if b.draft.Some? {
      UpdatePreservesCompletion(b.draft.value, f, v, now);
    }
  }

  lemma SaveKeepsInv(b: PurchaseBoard)
    requires Inv(b)
    ensures Inv(SavePurchaseOrder(b))
  {
    var r := SavePurchaseOrder(b);
    if b.draft.Some? && ValidatePurchase(b.draft.value).Clear() {
      forall j | 0 <= j < |r.store|
        ensures CompletionTracksStatus(r.store[j])
      {
        if j >= |b.store| || (b.origin.Editing? && j == b.origin.index) {
          assert r.store[j] == b.draft.value;
        } else {
          assert r.store[j] == b.store[j];
        }
      }
    }
  }

  lemma DeleteKeepsInv(b: PurchaseBoard, i: nat)
    requires Inv(b)
    ensures Inv(DeletePurchaseOrder(b, i))
  {
    if i < |b.store| {
      RemoveAtShifts(b.store, i);
    }
  }

  /** Every intent keeps the invariant: completion times track the received
      status, and an opened record's order number and creation time cannot
      be changed. */
  lemma StepKeepsInv(b: PurchaseBoard, a: PurchaseIntent)
    requires Inv(b) && Allowed(b, a)
    ensures Inv(Step(b, a))
  {
    match a
    case AddNew(n, now) =>
      NewPurchaseOrderShape(n, now);
    case Open(i) =>
    case EnterItem(v, now) =>
      EditKeepsInv(b, ItemField, v, now);
    case EnterCategory(v, now) =>
      EditKeepsInv(b, CategoryField, v, now);
    case ChooseStatus(v, now) =>
      EditKeepsInv(b, StatusField, v, now);
    case Save =>
      SaveKeepsInv(b);
    case Cancel =>
    case Delete(i) =>
      DeleteKeepsInv(b, i);
  }

  /** Saving an edited record keeps its order number and creation time. */
  lemma SaveKeepsIdentity(b: PurchaseBoard)
    requires Inv(b) && b.origin.Editing?
    ensures SavePurchaseOrder(b).store[b.origin.index].orderNo == b.store[b.origin.index].orderNo
    ensures SavePurchaseOrder(b).store[b.origin.index].date == b.store[b.origin.index].date
  {
  }

  /** Unlike sales, the purchase save never checks the order number: a new
      draft that drew the number of a stored record is appended beside it. */
  lemma OrderNumbersMayRepeat(b: PurchaseBoard, n: int, now: int)
    requires Valid(b) && 1000 <= n <= 9999 && |b.store| == 1 && b.store[0].orderNo == OrderNumber(n)
    ensures var r := Step(Step(Step(Step(b, AddNew(n, now)), EnterItem("Rice", now)), EnterCategory("Food", now)), Save);
            |r.store| == 2 && r.store[0].orderNo == r.store[1].orderNo
  {
    var b1 := AddNewPurchaseOrder(b, n, now);
    assert Step(b, AddNew(n, now)) == b1;
    var b2 := TypeItem(b1, "Rice", now);
    assert Step(b1, EnterItem("Rice", now)) == b2;
    var b3 := TypeCategory(b2, "Food", now);
    assert Step(b2, EnterCategory("Food", now)) == b3;
    var d := b3.draft.value;
    assert d.orderNo == OrderNumber(n) && b3.origin == Creating && b3.store == b.store;
    assert d.item[0] == UpperChar('R') == 'R';
    assert d.category[0] == UpperChar('F') == 'F';
    assert !IsSpace(d.item[0]) && !IsSpace(d.category[0]);
    assert !AllSpace(d.item) && !AllSpace(d.category);
    var r := SavePurchaseOrder(b3);
    assert Step(b3, Save) == r;
    assert r.store == b.store + [d];
  }

  /** Deleting record `i` leaves the others in their relative order. */
  lemma DeleteKeepsOrder(b: PurchaseBoard, i: nat)
    requires i < |b.store|
    ensures |DeletePurchaseOrder(b, i).store| == |b.store| - 1
    ensures IsSubsequence(DeletePurchaseOrder(b, i).store, b.store)
  {
    RemoveAtIsSubsequence(b.store, i);
  }
}
