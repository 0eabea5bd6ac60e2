/** The optional-value and result datatypes used by every part of the order model. */
module Wrappers {

  /** A value that may be absent (a JavaScript `undefined` / SQL `NULL`). */
  datatype Option<+T> = None | Some(value: T)

  /** The outcome of an operation that may throw: a value or the thrown error. */
  datatype Result<+T, +E> = Success(value: T) | Failure(error: E)
}
