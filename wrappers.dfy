/** Failure-compatible result types used in place of C# nulls and exceptions. */
module Wrappers {

  /** A nullable reference: `None` stands for C# `null`. */
  datatype Option<+T> = None | Some(value: T)

  /** The value of an operation that returns a value or throws. */
  datatype Result<+R, +E> = Success(value: R) | Failure(error: E)

  /** The value of a `void` operation that completes or throws. */
  datatype Outcome<+E> = Pass | Fail(error: E)
}
