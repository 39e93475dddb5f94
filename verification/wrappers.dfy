/** Option and Result values for the error returns of the Go source. */
module Wrappers {

  datatype Option<+T> = None | Some(value: T)

  /** A Go `(value, error)` pair: either the value or the error. */
  datatype Result<+T, +E> = Ok(value: T) | Err(error: E)
}
