/** Option and Result values shared by the modules of the purge model. */
module Wrappers {

  /** A value that may be absent, such as a timestamp that did not parse. */
  datatype Option<+T> = None | Some(value: T)

  /** The value of an operation that either succeeds or returns an error. */
  datatype Result<+R, +E> = Success(value: R) | Failure(error: E)
}
