/** Optional values and results shared by the modules of the model. */
module Wrappers {

  /** Python's `Optional[T]`: `None` or a value. The store maps `None` to SQL `NULL`. */
  datatype Option<+T> = None | Some(value: T)

  /** The outcome of a call that either returns a value or raises an exception. */
  datatype Result<+T, +E> = Ok(value: T) | Err(error: E)
}
