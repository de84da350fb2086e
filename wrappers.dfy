/** Failure-compatible wrappers shared by the rollup model. */
module Wrappers {
  /** A value that may be absent; in the rollup model it also stands for a Go pointer that may be nil. */
  datatype Option<+T> = None | Some(value: T)

  /** The outcome of a check that produces no value: `Pass` is Go's nil error, `Fail(e)` a non-nil one. */
  datatype Outcome<+E> = Pass | Fail(error: E)
}
