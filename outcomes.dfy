/** Option and Result values shared by the modules of this model. */
module Outcomes {

  /** A value that may be absent: Swift's `T?`. */
  datatype Option<+T> = None | Some(value: T)

  /** The outcome of a call that can throw: a value or the error thrown. */
  datatype Result<+T, +E> = Ok(value: T) | Err(error: E)
}
