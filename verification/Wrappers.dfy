/** A value or nothing: the source's nil slices and pointers, and its failed calls. */
module Wrappers {
  datatype Option<+T> = None | Some(value: T)
}
