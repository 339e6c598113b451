/** Option and Result, shared by the whole model. */
module Wrappers {

  /** Rust's `Option<T>`. */
  datatype Option<+T> = None | Some(value: T)

  /** The outcome of an operation that may panic: the new value, or the kind of panic. */
  datatype Result<+T, +E> = Ok(value: T) | Err(error: E)
}
