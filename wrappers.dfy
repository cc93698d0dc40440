/** Optional values and error-or-value results, standing for Go's
    `(T, error)` returns and for panics. */
module Wrappers {
  datatype Option<+T> = None | Some(value: T)

  datatype Result<+T, +E> = Ok(value: T) | Err(error: E)
}
