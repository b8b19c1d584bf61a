/** The optional value used for Go's nil-able pointers, slices and errors. */
module Wrappers {

  datatype Option<+T> = None | Some(value: T)
}
