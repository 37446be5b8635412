/** Optional values and validation results, shared by the other modules. */
module Wrappers {

  /** A value that may be absent: a nullable column or an empty form field. */
  datatype Option<+T> = None | Some(value: T)

  /** The outcome of a validator: the cleaned value, or the error it raised. */
  datatype Result<+T, +E> = Ok(value: T) | Err(error: E)

  /** The outcome of a call that may raise an exception instead of returning. */
  datatype Outcome<+T> = Raised | Returned(value: T)
}
