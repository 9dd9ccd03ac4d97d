/** Optional values: JavaScript's `undefined`/`null` results, and `NaN` from `parseInt`. */
module Wrappers {
  datatype Option<+T> = None | Some(value: T)

  /** The outcome of a request handler: a value, or the error code the handler answers with. */
  datatype Result<+T, +E> = Ok(value: T) | Err(error: E)
}
