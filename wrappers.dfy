/** Failure-compatible wrappers used throughout the model. */
module Wrappers {

  /** Rust's `Option<T>`. */
  datatype Option<+T> = None | Some(value: T)

  /** Rust's `Result<T, Box<dyn Error>>`: the error is kept as its display text. */
  datatype Result<+T> = Ok(value: T) | Err(msg: string)
}
