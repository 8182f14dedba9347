/** Failure-carrying values shared by every module of the model. */
module Wrappers {

  /** An optional value; `None` stands for a failed parse (hyper's `Error::Header`). */
  datatype Option<+T> = None | Some(value: T)

  /** A value or an error, the shape of Rust's `Result`. */
  datatype Result<+T, +E> = Ok(value: T) | Err(error: E)
}
