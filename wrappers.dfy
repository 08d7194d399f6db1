/** A value that may be absent: a storage slot that was never written, an index that was not found. */
module Wrappers {
  datatype Option<+T> = None | Some(value: T)
}
