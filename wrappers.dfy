/** Small failure-carrying datatypes shared by the other modules. */
module Wrappers {

  /** A value that may be missing (a SQL NULL, an absent attribute, a switch with no matching case). */
  datatype Option<+T> = None | Some(value: T)

  /** The result of an operation that either succeeds or throws the error it carries. */
  datatype Outcome<+E> = Pass | Fail(error: E)
}
