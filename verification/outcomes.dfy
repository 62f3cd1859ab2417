/** Failure-carrying datatypes shared by the rest of the model. */
module Outcomes {

  /** A value that may be absent. */
  datatype Option<+T> = None | Some(value: T)

  /** Either a computed value or the error that stopped the computation;
      the model's stand-in for Go's `(value, error)` return pair. */
  datatype Result<+T, +E> = Ok(value: T) | Err(error: E)
}
