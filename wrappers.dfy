/** Option and Result, the two failure-carrying shapes the model uses. */
module Wrappers {

  /** A value that may be absent: a dictionary key that is missing, a search that found nothing. */
  datatype Option<+T> = None | Some(value: T)

  /** The outcome of a step that may raise: the value it returns, or the error it raises. */
  datatype Result<+T, +E> = Success(value: T) | Failure(error: E)
}
