/** Option and Result, the two wrappers the model uses for "unset" and for a failed construction. */
module Wrappers {

  datatype Option<+T> = None | Some(value: T)

  datatype Result<+R, +E> = Success(value: R) | Failure(error: E)
}
