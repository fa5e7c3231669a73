/** Failure-carrying datatypes shared by the whole model: Go's `error`, a nil-able
    value, the (value, error) pair a library call returns, and the outcome of a
    call that may dereference a nil pointer. */
module Wrappers {

  /** A Go `error` value; only its identity matters to the model. */
  datatype Error = Error(text: string)

  /** A Go pointer, slice or map that may be nil. */
  datatype Option<+T> = None | Some(value: T) {

    /** The value, or `default` when nil */
    function GetOr(default: T): T {
      match this
      case Some(v) => v
      case None => default
    }
  }

  /** The (value, error) pair of a library call, with exactly one side present. */
  datatype Result<+T> = Ok(value: T) | Fail(error: Error)

  /** A call that either returns or panics on a nil dereference. */
  datatype Outcome<+T> = Returned(value: T) | Panicked
}
