/** Failure-carrying values shared by the codec and the handler. */
module Wrappers {

  datatype Option<+T> = None | Some(value: T)

  /** `Ok` carries a value, `Err` an error; mirrors Rust's `Result`. */
  datatype Result<+T, +E> = Ok(value: T) | Err(error: E)
}
