/** Failure-compatible wrapper used across the model: an optional value. */
module Wrappers {

  datatype Option<+T> = None | Some(value: T)
}
