/** Failure-compatible wrappers used in place of Java's nulls and exceptions. */
module Wrappers {

  /** A value that may be absent: `None` stands for a Java `null`. */
  datatype Option<+T> = None | Some(value: T)

  /** The outcome of an operation that returns a value or throws. */
  datatype Result<+T, +E> = Success(value: T) | Failure(error: E)

  /** The outcome of a `void` operation that either completes or throws. */
  datatype Outcome<+E> = Pass | Fail(error: E)
}
