/** Option and Result values shared by the kiosk and calendar modules. */
module Wrappers {

  /** A value that may be absent (a nullable field, an empty lookup). */
  datatype Option<+T> = None | Some(value: T)

  /** The outcome of a store call or of a validation: a value or an error. */
  datatype Result<+T, +E> = Ok(value: T) | Err(error: E)
}
