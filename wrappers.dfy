/** Failure-compatible wrappers shared by the model: PHP's `null`-or-value and
    value-or-`WP_Error` returns. */
module Wrappers {

  datatype Option<+T> = None | Some(value: T)

  datatype Result<+T, +E> = Ok(value: T) | Err(error: E)
}
