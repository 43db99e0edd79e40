/** Failure-compatible wrappers shared by both ledgers. */
module Wrappers {

  /** A value that may be absent (Python's `None`, C++'s `-1` sentinel). */
  datatype Option<+T> = None | Some(value: T)

  /** A value or the error that an operation raised instead. */
  datatype Result<+T, +E> = Success(value: T) | Failure(error: E)
}
