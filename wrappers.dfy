/** Option and Result, the failure-carrying values used throughout the model. */
module Wrappers {

  datatype Option<+T> = None | Some(value: T)

  /** A Go `(value, error)` pair where only the error text of a failure matters. */
  datatype Result<+T> = Ok(value: T) | Err(error: string)
}
