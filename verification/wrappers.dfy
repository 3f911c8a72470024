/** Optional values and results shared by the model's modules. */
module Wrappers {

  /** A value that may be absent: JavaScript's `undefined` or `null`. */
  datatype Option<+T> = None | Some(value: T)

  /** The outcome of an operation that can throw or reject. */
  datatype Result<+T, +E> = Ok(value: T) | Err(error: E)
}
