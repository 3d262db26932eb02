/** Option and Result datatypes shared by every module. */
module Wrappers {

  /** A value that may be absent: a missing row, an absent identity, a JS `null`. */
  datatype Option<+T> = None | Some(value: T)

  /** The outcome of a query or mutation: its value, or the error it throws. */
  datatype Result<+T, +E> = Ok(value: T) | Err(error: E)
}
