/** The optional values used where the source returns a nil pointer or a null reference. */
module Wrappers {
  datatype Option<+T> = None | Some(value: T)
}
