/** Option and Result values standing in for Python's `None` returns and error dictionaries. */
module Wrappers {
  datatype Option<+T> = None | Some(value: T)

  datatype Result<+T, +E> = Ok(value: T) | Err(error: E)
}
