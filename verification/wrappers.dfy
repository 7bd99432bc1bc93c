/** Failure-carrying datatypes used in place of Go's `(value, error)` returns. */
module Wrappers {

  /** A value that may be absent, such as an unset configuration key. */
  datatype Option<+T> = None | Some(value: T)

  /** A Go `(T, error)` pair where exactly one side is meaningful. */
  datatype Result<+T, +E> = Success(value: T) | Failure(error: E)

  /** A Go `error` return that carries no value: `nil` or an error. */
  datatype Outcome<+E> = Pass | Fail(error: E)
}
