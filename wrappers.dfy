/** Small failure-carrying datatypes shared by the other modules. */
module Wrappers {

  /** A value that may be absent: Go's nil pointer, nil slice or nil error. */
  datatype Option<+T> = None | Some(value: T)

  /** A value or the error that replaced it: Go's `(T, error)` pair. */
  datatype Result<+T, +E> = Ok(value: T) | Err(error: E)

  /** An error value as returned by a collaborator (the store or a plugin). */
  datatype Error = Error(message: string)
}
