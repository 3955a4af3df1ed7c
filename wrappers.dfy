/** Failure-carrying result types used throughout the model. */
module Wrappers {

  /** A value that may be absent: Go's "value, ok" lookups and optional errors. */
  datatype Option<+T> = None | Some(value: T)

  /** A value or an error: Go's "(T, error)" return pairs. */
  datatype Result<+T, +E> = Ok(value: T) | Err(error: E)
}
