/** Failure-carrying values: the model's stand-in for Python exceptions. */
module Wrappers {

  datatype Option<+T> = None | Some(value: T)

  /** Either a value or the message of the exception that was raised instead. */
  datatype Result<+R, +E> = Ok(value: R) | Err(error: E)
}
