/** The optional value used wherever the Go code holds a nil-able interface or pointer. */
module Wrappers {
  datatype Option<+T> = None | Some(value: T)
}
