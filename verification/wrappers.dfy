/** Failure-carrying result types shared by the parsers and validators. */
module Wrappers {

  /** A value that may be absent: the result of a parse that can fail. */
  datatype Option<+T> = None | Some(value: T)

  /** A check that either passes or fails with an error value. */
  datatype Outcome<+E> = Pass | Fail(error: E)
}
