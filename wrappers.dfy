/** Failure-compatible wrappers shared by every module of the model. */
module Wrappers {

  /** A Java `Optional`, or a nullable reference: absent or present. */
  datatype Option<+T> = None | Some(value: T)

  /** The outcome of a Java call that either returns a value or throws. */
  datatype Result<+R, +E> = Success(value: R) | Failure(error: E)

  /** The outcome of a Java `void` call that either returns or throws. */
  datatype Outcome<+E> = Pass | Fail(error: E)
}
