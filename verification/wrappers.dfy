/** Failure-carrying result types shared by the model. */
module Wrappers {

  /** A value that may be absent: Go's nil pointer or nil slice. */
  datatype Option<+T> = None | Some(value: T)

  /** A value or an error message: Go's `(T, error)` pair. */
  datatype Result<+T> = Ok(value: T) | Err(error: string)
}
