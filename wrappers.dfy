/** Option and Result, the failure-carrying types the rest of the model returns
    instead of raising Python exceptions. */
module Wrappers {

  datatype Option<+T> = None | Some(value: T)

  datatype Result<+T, +E> = Ok(value: T) | Err(error: E)
}
