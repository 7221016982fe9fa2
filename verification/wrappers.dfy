/** Option and Result, the two shapes every lookup and write in this model returns. */
module Wrappers {

  /** A value that may be absent: a nullable column, an omitted field, or a row that is not there. */
  datatype Option<+T> = None | Some(value: T)

  /** A write that either succeeds with a value or is rejected with an error. */
  datatype Result<+T, +E> = Success(value: T) | Failure(error: E)
}
