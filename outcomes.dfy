/** Failure-carrying values shared by every module of the model. */
module Outcomes {

  /** A value that may be absent; stands for Go's nil pointers and "not found" results. */
  datatype Option<T> = None | Some(value: T)

  /** A value or an error message; stands for Go's `(value, error)` pairs. */
  datatype Result<T> = Ok(value: T) | Err(msg: string)
}
