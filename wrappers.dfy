/** Option and Result, the stand-ins for Java's null and for thrown exceptions. */
module Wrappers {

  /** A value that may be absent (Java `null`). */
  datatype Option<+T> = None | Some(value: T)

  /** Either a value or the exception the source would throw instead. */
  datatype Result<+T, +E> = Success(value: T) | Failure(error: E)

  /** The outcome of a check that returns nothing but may throw. */
  datatype Outcome<+E> = Pass | Fail(error: E)
}
