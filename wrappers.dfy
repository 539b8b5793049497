/** Small failure-compatible wrappers used across the model. */
module Wrappers {

  /** A value that may be absent: Java's nullable references. */
  datatype Option<+T> = None | Some(value: T)

  /** The outcome of a call that either returns normally or throws `error`. */
  datatype Outcome<+E> = Pass | Fail(error: E)

  /** The Java exceptions the modelled code throws at its callers. */
  datatype JavaException = IllegalState | IllegalArgument | NullPointer
}
