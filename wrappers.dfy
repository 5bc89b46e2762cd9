/** Failure-carrying return values: the service signals each failure as a
    value instead of the `null` the original returns. */
module Wrappers {

  datatype Option<+T> = None | Some(value: T)

  datatype Result<+T, +E> = Success(value: T) | Failure(error: E)
}
