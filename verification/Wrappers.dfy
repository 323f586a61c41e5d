/** The optional value that stands for Go's nil pointers, missing map entries and failed calls. */
module Wrappers {
  datatype Option<+T> = None | Some(value: T)
}
