/** Failure-compatible datatypes shared by every module of the model. */
module Wrappers {

  /** A value that may be absent (a nullable column, an optional argument). */
  datatype Option<+T> = None | Some(value: T)

  /** The result of an operation that either produces a value or raises an error. */
  datatype Result<+T, +E> = Success(value: T) | Failure(error: E)

  /** The result of an operation that produces no value but may raise an error. */
  datatype Outcome<+E> = Pass | Fail(error: E)

  function Min(a: int, b: int): int
  {
    if a <= b then a else b
  }
}
