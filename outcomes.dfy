/** Option and Result: the model's stand-ins for Go's `(value, error)` pairs and nil checks. */
module Outcomes {

  datatype Option<+T> = None | Some(value: T)

  datatype Result<+T, +E> = Ok(value: T) | Err(error: E)
}
