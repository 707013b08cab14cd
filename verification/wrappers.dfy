/** Failure-carrying result types used by the fixture manager. */
module Wrappers {

  datatype Option<+T> = None | Some(value: T)

  /** The result of an operation that either yields a value or aborts. */
  datatype Result<+R, +E> = Success(value: R) | Failure(error: E)

  /** The result of an operation that yields nothing on success. */
  datatype Outcome<+E> = Pass | Fail(error: E)
}
