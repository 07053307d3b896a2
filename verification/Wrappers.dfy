/** Failure-compatible results shared by every component. */
module Wrappers {

  /** A value that may be absent: Python's `None`, or a decoder that raised. */
  datatype Option<+T> = None | Some(value: T) {
    predicate IsFailure() {
      None?
    }

    function PropagateFailure<U>(): Option<U>
      requires None?
    {
      None
    }

    function Extract(): T
      requires Some?
    {
      value
    }
  }

  /** The exception classes the modelled code raises. */
  datatype Error = KeyError | ValueError | PermissionError | TypeError

  /** How a call ends: it returns a value or raises. */
  datatype Reply<+T> = Return(value: T) | Raise(error: Error)
}
