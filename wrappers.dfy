/** Option and Result values used for the scripts' failure paths (an exception in Python
    becomes an `Err` here). */
module Wrappers {

  datatype Option<+T> = None | Some(value: T)

  datatype Result<+T, +E> = Ok(value: T) | Err(error: E)
}
