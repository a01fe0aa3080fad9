/** Failure-carrying datatypes, standing for Rust's own. */
module Wrappers {
  datatype Option<+T> = None | Some(value: T)

  datatype Result<+T, +E> = Ok(value: T) | Err(error: E)
}

/** An error, by its text. */
module Errors {
  type Error = string
}
