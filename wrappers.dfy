/** Option and Result, the two failure-carrying wrappers the model uses. */
module Wrappers {

  /** A possibly missing value: pandas' NaN/None in a cell, an absent column, a failed parse. */
  datatype Option<+T> = None | Some(value: T)

  /** The outcome of a step that may raise: the value, or the error Python would raise. */
  datatype Result<+T, +E> = Success(value: T) | Failure(error: E)
}
