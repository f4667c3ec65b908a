/** Small failure-carrying values shared by the galaxy model. */
module Wrappers {

  /** A value that may be absent: Go's nil pointer or nil map. */
  datatype Option<+T> = None | Some(value: T)

  /** A value or an error message, the model of Go's `(T, error)` pair. */
  datatype Result<+T> = Ok(value: T) | Err(message: string)
}
