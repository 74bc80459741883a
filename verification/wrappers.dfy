/** Failure-carrying values used in place of the exceptions the pipeline raises. */
module Wrappers {

  /** A value that may be absent, e.g. the result of parsing a number. */
  datatype Option<+T> = None | Some(value: T)

  /** Either a computed value or the error that stopped the computation. */
  datatype Result<+R, +E> = Success(value: R) | Failure(error: E)
}
