/** Failure-carrying values used in place of Swift's optionals and `throws`. */
module Wrappers {

  /** Swift's `T?`. */
  datatype Option<+T> = None | Some(value: T)

  /** A value, or the error a throwing Swift function would have thrown. */
  datatype Result<+T, +E> = Ok(value: T) | Err(error: E)

  /** The outcome of a throwing Swift function that returns `Void`. */
  datatype Outcome<+E> = Pass | Fail(error: E)
}

/** Swift `UUID`s: only their identity matters to the app. */
module Identifiers {

  type Id = nat
}
