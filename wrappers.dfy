/** Option and Result values used for the source's absent values and raised errors. */
module Wrappers {

  datatype Option<+T> = None | Some(value: T)

  /** A computation that either produces a value or raises an error. */
  datatype Result<+T, +E> = Ok(value: T) | Err(error: E)

  /** A check that either passes or raises an error. */
  datatype Outcome<+E> = Pass | Fail(error: E)
}
