/** Option and Result values shared by the modules of this model. */
module Wrappers {

  datatype Option<+T> = None | Some(value: T)

  /** The outcome of an operation of the source that can raise or return an error code. */
  datatype Result<+T, +E> = Ok(value: T) | Err(error: E)
}
