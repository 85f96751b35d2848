/** The sales slide as a reducer: the store, the draft with its origin and
    the form's error flags, changed only by the handlers of the source
    (`addNewSalesOrder`, opening a card, the form inputs,
    `saveSalesOrder`, `cancelSalesEdit`, `deleteSalesOrder`). */
module SalesEditor {
  import opened Wrappers
  import opened Text
  import opened Seqs
  import opened DraftOrigin
  import opened Sales

  datatype SalesBoard = SalesBoard(
    store: seq<SalesOrder>,
    draft: Option<SalesOrder>,
    origin: Origin,
    errors: SalesErrors)

  /** The draft and its origin agree: there is a draft exactly when the
      origin is not idle, and an edited index lies inside the store. */
  predicate Valid(b: SalesBoard) {
    && (b.draft.None? <==> b.origin.Idle?)
    && (b.origin.Editing? ==> b.origin.index < |b.store|)
  }

  /** `addNewSalesOrder`: a fresh draft with the drawn slip number `n`. */
  function AddNewSalesOrder(b: SalesBoard, n: int, now: int): (r: SalesBoard)
    requires 1000 <= n <= 9999
    ensures Valid(r) && r.store == b.store && r.origin == Creating && r.errors.Clear()
    ensures r.draft == Some(NewSalesOrder(n, now))
    ensures r.draft.value.slipNo == SlipNumber(n) && r.draft.value.date == now
  {
    b.(draft := Some(NewSalesOrder(n, now)), origin := Creating, errors := NoSalesErrors)
  }

  /** Clicking a card: a copy of record `i` becomes the draft. */
  function OpenSalesOrder(b: SalesBoard, i: nat): (r: SalesBoard)
    requires i < |b.store|
    ensures Valid(r) && r.store == b.store && r.draft == Some(b.store[i]) && r.origin == Editing(i)
    ensures r.errors.Clear()
  {
    b.(draft := Some(b.store[i]), origin := Editing(i), errors := NoSalesErrors)
  }

  /** `updateTempSalesOrder`: edits the draft if there is one; an edit of
      the slip number also lowers the uniqueness flag. */
  function UpdateTempSalesOrder(b: SalesBoard, field: SalesField, value: string, now: int): (r: SalesBoard)
    ensures r.store == b.store && r.origin == b.origin
    ensures b.draft.None? ==> r.draft.None?
    ensures b.draft.Some? ==> r.draft == Some(UpdateSalesOrder(b.draft.value, field, value, now))
    ensures field == SlipNoField ==> r.errors == b.errors.(slipNoUnique := false)
    ensures field != SlipNoField ==> r.errors == b.errors
  {
    var draft := if b.draft.None? then None else Some(UpdateSalesOrder(b.draft.value, field, value, now));
    var errors := if field == SlipNoField then b.errors.(slipNoUnique := false) else b.errors;
    b.(draft := draft, errors := errors)
  }

  /** The customer-name input: updates the draft and lowers the name flag. */
  function TypeName(b: SalesBoard, value: string, now: int): (r: SalesBoard)
    ensures r.store == b.store && r.origin == b.origin && r.errors == b.errors.(name := false)
    ensures b.draft.None? ==> r.draft.None?
    ensures b.draft.Some? ==> r.draft == Some(UpdateSalesOrder(b.draft.value, NameField, value, now))
    ensures b.draft.Some? ==> r.draft.value.name == Capitalize(value)
  {
    var u := UpdateTempSalesOrder(b, NameField, value, now);
    u.(errors := u.errors.(name := false))
  }

  /** The slip-number input: it only reacts while a new record is being
      created; then it stores the value as typed and lowers both slip
      flags. */
  function TypeSlipNo(b: SalesBoard, value: string, now: int): (r: SalesBoard)
    ensures b.origin != Creating ==> r == b
    ensures b.origin == Creating ==>
              && r.store == b.store && r.origin == b.origin
              && r.errors == b.errors.(slipNo := false, slipNoUnique := false)
    ensures b.origin == Creating && b.draft.None? ==> r.draft.None?
    ensures b.origin == Creating && b.draft.Some? ==>
              && r.draft == Some(UpdateSalesOrder(b.draft.value, SlipNoField, value, now))
              && r.draft.value.slipNo == value
  {
    if b.origin == Creating then
      var u := UpdateTempSalesOrder(b, SlipNoField, value, now);
      u.(errors := u.errors.(slipNo := false, slipNoUnique := false))
    else b
  }

  /** `saveSalesOrder`: without a draft nothing happens; a draft failing
      validation stays open with the flags raised; a passing draft is
      committed and the editor returns to the list. */
  function SaveSalesOrder(b: SalesBoard): (r: SalesBoard)
    requires Valid(b)
    ensures b.draft.None? ==> r == b
    ensures b.draft.Some? && !ValidateSales(b.draft.value, b.store, b.origin).Clear() ==>
              && r.store == b.store && r.draft == b.draft && r.origin == b.origin
              && r.errors == ValidateSales(b.draft.value, b.store, b.origin)
    ensures b.draft.Some? && ValidateSales(b.draft.value, b.store, b.origin).Clear() ==>
              && r.draft.None? && r.origin.Idle? && r.errors.Clear()
              && (b.origin.Editing? ==>
                    && |r.store| == |b.store| && r.store[b.origin.index] == b.draft.value
                    && forall j :: 0 <= j < |b.store| && j != b.origin.index ==> r.store[j] == b.store[j])
              && (b.origin.Creating? ==> r.store == b.store + [b.draft.value])
  {
    if b.draft.None? then b
    else
      var errors := ValidateSales(b.draft.value, b.store, b.origin);
      if !errors.Clear() then b.(errors := errors)
      else
        b.(store := CommitSales(b.store, b.draft.value, b.origin), draft := None, origin := Idle,
           errors := NoSalesErrors)
  }

  /** `cancelSalesEdit`: the draft is dropped and the store untouched. */
  function CancelSalesEdit(b: SalesBoard): (r: SalesBoard)
    ensures Valid(r) && r.store == b.store && r.draft.None? && r.errors.Clear()
  {
    b.(draft := None, origin := Idle, errors := NoSalesErrors)
  }

  /** `deleteSalesOrder`: removes record `i` (nothing for an index outside
      the store) and drops any draft. */
  function DeleteSalesOrder(b: SalesBoard, i: nat): (r: SalesBoard)
    ensures Valid(r) && r.draft.None?
    ensures i < |b.store| ==> r.store == b.store[..i] + b.store[i + 1..]
    ensures i >= |b.store| ==> r.store == b.store
  {
    b.(store := RemoveAt(b.store, i), draft := None, origin := Idle)
  }

  // ---------------------------------------------------------------------
  // The reducer
  // ---------------------------------------------------------------------

  /** What the sales slide's controls can ask for. `Choose` covers the
      source, status and delivery buttons and the two bag inputs, which call
      the update directly. */
  datatype SalesIntent =
    | AddNew(number: int, now: int)
    | Open(index: nat)
    | EnterName(value: string, now: int)
    | EnterSlipNo(value: string, now: int)
    | Choose(field: SalesField, value: string, now: int)
    | Save
    | Cancel
    | Delete(index: nat)

  /** The intents the controls can produce in state `b`. */
  predicate Allowed(b: SalesBoard, a: SalesIntent) {
    match a
    case AddNew(n, _) => 1000 <= n <= 9999
    case Open(i) => i < |b.store|
    case Choose(f, _, _) => f != NameField && f != SlipNoField
    case _ => true
  }

  function Step(b: SalesBoard, a: SalesIntent): (r: SalesBoard)
    requires Valid(b) && Allowed(b, a)
    ensures Valid(r)
  {
    match a
    case AddNew(n, now) => AddNewSalesOrder(b, n, now)
    case Open(i) => OpenSalesOrder(b, i)
    case EnterName(v, now) => TypeName(b, v, now)
    case EnterSlipNo(v, now) => TypeSlipNo(b, v, now)
    case Choose(f, v, now) => UpdateTempSalesOrder(b, f, v, now)
    case Save => SaveSalesOrder(b)
    case Cancel => CancelSalesEdit(b)
    case Delete(i) => DeleteSalesOrder(b, i)
  }

  /** Every record, stored or drafted, has a completion time exactly while
      it is done. */
  predicate AllCompletionsTrack(b: SalesBoard) {
    && (forall j :: 0 <= j < |b.store| ==> CompletionTracksStatus(b.store[j]))
    && (b.draft.Some? ==> CompletionTracksStatus(b.draft.value))
  }

  /** A draft opened from record `i` keeps that record's slip number and
      creation time. */
  predicate IdentityPinned(b: SalesBoard) {
    b.draft.Some? && b.origin.Editing? && b.origin.index < |b.store| ==>
      && b.draft.value.slipNo == b.store[b.origin.index].slipNo
      && b.draft.value.date == b.store[b.origin.index].date
  }

  /** The invariant of the sales slide. */
  predicate Inv(b: SalesBoard) {
    Valid(b) && SlipsUnique(b.store) && AllCompletionsTrack(b) && IdentityPinned(b)
  }

  lemma SaveKeepsInv(b: SalesBoard)
    requires Inv(b)
    ensures Inv(SaveSalesOrder(b))
  {
    if b.draft.Some? && ValidateSales(b.draft.value, b.store, b.origin).Clear() {
      CommitAfterValidation(b.store, b.draft.value, b.origin);
      CommitKeepsCompletions(b.store, b.draft.value, b.origin);
      assert SaveSalesOrder(b).store == CommitSales(b.store, b.draft.value, b.origin);
    }
  }

  /** An edit of any field but the slip number keeps the invariant. */
  lemma EditKeepsInv(b: SalesBoard, f: SalesField, v: string, now: int)
    requires Inv(b) && f != SlipNoField
    ensures Inv(UpdateTempSalesOrder(b, f, v, now))
  {
    if b.draft.Some? {
      UpdatePreservesCompletion(b.draft.value, f, v, now);
    }
  }

  lemma DeleteKeepsInv(b: SalesBoard, i: nat)
    requires Inv(b)
    ensures Inv(DeleteSalesOrder(b, i))
  {
    var r := DeleteSalesOrder(b, i).store;
    if i < |b.store| {
      RemoveAtShifts(b.store, i);
      forall x, y | 0 <= x < y < |r|
        ensures !EqualsIgnoreCase(r[x].slipNo, r[y].slipNo)
      {
        var x' := if x < i then x else x + 1;
        var y' := if y < i then y else y + 1;
        assert r[x] == b.store[x'] && r[y] == b.store[y'];
      }
    }
  }

  /** Every intent the controls can produce keeps the invariant: slip
      numbers stay unique ignoring case, completion times track the done
      status, and an opened record's identity cannot be changed. */
  lemma StepKeepsInv(b: SalesBoard, a: SalesIntent)
    requires Inv(b) && Allowed(b, a)
    ensures Inv(Step(b, a))
  {
    match a
    case AddNew(n, now) =>
      NewSalesOrderShape(n, now);
    case Open(i) =>
    case EnterName(v, now) =>
      EditKeepsInv(b, NameField, v, now);
    case EnterSlipNo(v, now) =>
      if b.origin == Creating && b.draft.Some? {
        UpdatePreservesCompletion(b.draft.value, SlipNoField, v, now);
      }
    case Choose(f, v, now) =>
      EditKeepsInv(b, f, v, now);
    case Save =>
      SaveKeepsInv(b);
    case Cancel =>
    case Delete(i) =>
      DeleteKeepsInv(b, i);
  }

  // ---------------------------------------------------------------------
  // Consequences
  // ---------------------------------------------------------------------

  /** A saved draft can be looked up by its slip number afterwards. */
  lemma SaveThenLookup(b: SalesBoard)
    requires Inv(b) && b.draft.Some?
    requires ValidateSales(b.draft.value, b.store, b.origin).Clear()
    ensures LookupSlip(SaveSalesOrder(b).store, b.draft.value.slipNo) == Some(b.draft.value)
  {
    SaveKeepsInv(b);
    var r := SaveSalesOrder(b).store;
    var at := if b.origin.Editing? then b.origin.index else |b.store|;
    assert r[at] == b.draft.value;
    LookupFindsUnique(r, at);
  }

  /** Saving an edited record keeps its slip number and creation time. */
  lemma SaveKeepsIdentity(b: SalesBoard)
    requires Inv(b) && b.origin.Editing?
    ensures SaveSalesOrder(b).store[b.origin.index].slipNo == b.store[b.origin.index].slipNo
    ensures SaveSalesOrder(b).store[b.origin.index].date == b.store[b.origin.index].date
  {
  }

  /** A new draft whose slip number equals a stored one up to case is
      refused with the uniqueness flag, and stays open for correction. */
  lemma SaveRefusesCaseDuplicate(b: SalesBoard, j: nat)
    requires Valid(b) && b.origin == Creating && b.draft.Some?
    requires j < |b.store| && EqualsIgnoreCase(b.store[j].slipNo, b.draft.value.slipNo)
    requires !AllSpace(b.draft.value.slipNo)
    ensures SaveSalesOrder(b).errors.slipNoUnique
    ensures SaveSalesOrder(b).store == b.store && SaveSalesOrder(b).draft == b.draft
  {
    assert Creating != Editing(j);
  }

  /** After a deletion in a store with unique slip numbers, no remaining
      record carries the deleted record's slip number, and the rest keep
      their relative order. */
  lemma DeleteRemovesIdentity(b: SalesBoard, i: nat)
    requires SlipsUnique(b.store) && i < |b.store|
    ensures |DeleteSalesOrder(b, i).store| == |b.store| - 1
    ensures IsSubsequence(DeleteSalesOrder(b, i).store, b.store)
    ensures forall o :: o in DeleteSalesOrder(b, i).store ==> !EqualsIgnoreCase(o.slipNo, b.store[i].slipNo)
  {
    var r := DeleteSalesOrder(b, i).store;
    RemoveAtIsSubsequence(b.store, i);
    RemoveAtShifts(b.store, i);
    forall o | o in r
      ensures !EqualsIgnoreCase(o.slipNo, b.store[i].slipNo)
    {
      var x :| 0 <= x < |r| && r[x] == o;
      var x' := if x < i then x else x + 1;
      assert o == b.store[x'];
    }
  }
}
