/** Failure-carrying values shared by every module of the model: Go's
    `(value, error)` pairs and nil pointers become these. */
module Wrappers {

  datatype Option<+T> = None | Some(value: T)

  datatype Result<+T, +E> = Ok(value: T) | Err(error: E)
}
