/** Failure-carrying values shared by the modules of this model. */
module Wrappers {

  /** An optional value: Go's nil pointer versus a present one. */
  datatype Option<+T> = None | Some(value: T)

  /** The (value, err) pair that a Go call returns, as one value. */
  datatype Result<+T, +E> = Ok(value: T) | Err(error: E)
}
