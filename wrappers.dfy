/** A value that may be absent: used for the parts of a view that are not mounted. */
module Wrappers {
  datatype Option<+T> = None | Some(value: T)
}
