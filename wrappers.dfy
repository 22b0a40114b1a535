/** Optional values and results with an error, as the rest of the model uses them. */
module Wrappers {

  /** A value that may be absent: a nullable column, a missing row. */
  datatype Option<+T> = None | Some(value: T)

  /** The outcome of a statement the store may reject. */
  datatype Result<+T, +E> = Ok(value: T) | Err(error: E)
}
