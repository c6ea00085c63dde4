/** Option and Result, the two failure-carrying wrappers the model uses in place of
    Java's null and exceptions. */
module Wrappers {

  datatype Option<+T> = None | Some(value: T)

  datatype Result<+R, +E> = Success(value: R) | Failure(error: E)
}
