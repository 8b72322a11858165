/** Option and Result, the shapes the model uses for Go's nil-or-value and value-or-error returns. */
module Wrappers {

  datatype Option<+T> = None | Some(value: T)

  datatype Result<+T, +E> = Ok(value: T) | Err(error: E)
}
