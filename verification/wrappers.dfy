/** The optional-value type used for absent fields (a record's missing
    `completedDate`, the editor's empty draft). */
module Wrappers {

  datatype Option<+T> = None | Some(value: T)
}
