/** Where the editor's draft came from. The source keeps this in
    `selectedSalesOrder` / `selectedPurchaseOrder` as `null` (no draft, list
    view), `-1` (a new record not yet in the store) or the index of the
    store record being edited. */
module DraftOrigin {

  datatype Origin = Idle | Creating | Editing(index: nat)
}
