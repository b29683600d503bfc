/** Option and Result values shared by the modules of the model. */
module Wrappers {

  /** A value that may be absent (a nil reference or a missing context value). */
  datatype Option<+T> = None | Some(value: T)

  /** A value or the error that prevented it. */
  datatype Result<+T, +E> = Success(value: T) | Failure(error: E)
}
