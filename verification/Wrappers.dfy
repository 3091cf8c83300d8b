/** A value that may be missing: a NULL pointer, or a failure that says no more. */
module Wrappers {
  datatype Option<+T> = None | Some(value: T)
}
