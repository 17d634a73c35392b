/** Failure-compatible result types shared by the validators and the login check. */
module Wrappers {

  datatype Option<+T> = None | Some(value: T)

  /** A validator either returns the cleaned value or the error it raises. */
  datatype Result<+T, +E> = Success(value: T) | Failure(error: E)
}
