/** Optional and fallible values shared by the modules of this model. */
module Wrappers {

  /** A value that may be absent: an SQL NULL, a JavaScript `undefined`,
      a lookup that found no row, or a call that threw. */
  datatype Option<+T> = None | Some(value: T)

  /** The outcome of a statement that either succeeds or fails with an error. */
  datatype Result<+T, +E> = Ok(value: T) | Err(error: E)
}
