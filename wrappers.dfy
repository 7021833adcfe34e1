/** Option and Result, used for the fallible answers of the host and the
    error returns of the source's functions. */
module Wrappers {

  datatype Option<+T> = None | Some(value: T)

  datatype Result<+T, +E> = Success(value: T) | Failure(error: E)
}
