/** Failure-compatible wrappers used for the source's optional values and exceptions. */
module Wrappers {

  /** A value that may be absent (a dropped batch, an unset pointer). */
  datatype Option<+T> = None | Some(value: T)

  /** Either a computed value or the message of the exception the source would throw. */
  datatype Result<+R, +E> = Success(value: R) | Failure(error: E)
}
