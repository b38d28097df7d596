/** The optional value used where the source returns `null`-like results. */
module Wrappers {
  datatype Option<+T> = None | Some(value: T)
}
