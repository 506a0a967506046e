/** Failure-carrying wrappers used across the model. */
module Wrappers {

  /** An optional value: `None` stands where the source has `null`. */
  datatype Option<+T> = None | Some(value: T)

  /** A value or the error that replaced it (a thrown exception in the source). */
  datatype Result<+T, +E> = Ok(value: T) | Err(error: E)

  /** The end of an operation that returns nothing: it passed, or it failed with an error. */
  datatype Outcome<+E> = Pass | Fail(error: E)
}
