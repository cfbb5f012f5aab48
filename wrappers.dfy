/** Option and Result values, standing in for Rust's `Option<T>` and `Result<T, failure::Error>`. */
module Wrappers {

  datatype Option<+T> = None | Some(value: T)

  /** The outcome of a fallible step; `Err` is what Rust's `?` hands straight back to the caller. */
  datatype Result<+T, +E> = Ok(value: T) | Err(error: E)
}
