/** Outcome datatypes shared by the modules of this model. */
module Wrappers {

  /** A value that may be absent (a Go zero value or a nil error). */
  datatype Option<+T> = None | Some(value: T)

  /** Either a computed value or the error that stopped the computation. */
  datatype Result<+R, +E> = Success(value: R) | Failure(error: E)
}
