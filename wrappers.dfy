/** Failure-carrying values used in place of the bot's exceptions. */
module Wrappers {

  /** A value that may be absent (a missing field, a call into a library that raised). */
  datatype Option<+T> = None | Some(value: T)

  /** A computation that either yields a value or names the error it raised. */
  datatype Result<+T, +E> = Success(value: T) | Failure(error: E)
}
