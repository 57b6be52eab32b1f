/** Go's "value or nil" shapes: an optional value. */
module Wrappers {

  datatype Option<+T> = None | Some(value: T)
}
