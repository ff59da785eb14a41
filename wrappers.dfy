/** Option and Result, the two ways the services report "nothing here" and
    "this failed" without throwing across a boundary. */
module Wrappers {

  datatype Option<+T> = None | Some(value: T)

  datatype Result<+T, +E> = Ok(value: T) | Err(error: E)
}
