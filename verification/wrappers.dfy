/** Failure-carrying values shared by the whole model. */
module Wrappers {

  /** A value that may be absent: JavaScript's `undefined` / `null` for an optional field. */
  datatype Option<+T> = None | Some(value: T)

  /** The outcome of an operation that may stop with an error instead of a value. */
  datatype Result<+T, +E> = Success(value: T) | Failure(error: E)
}
