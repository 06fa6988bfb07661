/** Option and Result, used for the source's null fields and its error returns. */
module Wrappers {

  /** A value that may be missing: a null or absent column of a record. */
  datatype Option<+T> = None | Some(value: T)

  /** The outcome of a request: the record it produced or the reason for rejecting it. */
  datatype Result<+R, +E> = Success(value: R) | Failure(error: E)
}
