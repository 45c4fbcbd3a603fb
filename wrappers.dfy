/** Option and outcome types standing for Java's null and thrown exceptions. */
module Wrappers {
  datatype Option<+T> = None | Some(value: T)

  /** The result of a call that either returns normally or throws `error`. */
  datatype Outcome<+E> = Pass | Fail(error: E)

  /** A value, or the exception thrown instead of returning it. */
  datatype Result<+T, +E> = Success(value: T) | Failure(error: E)
}
