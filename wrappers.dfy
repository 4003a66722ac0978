/** Option and Result: the failure paths of the model (a Python exception
    that the source catches becomes None or Err). */
module Wrappers {

  datatype Option<+T> = None | Some(value: T)

  datatype Result<+T, +E> = Ok(value: T) | Err(error: E)
}
