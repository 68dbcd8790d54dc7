/** Failure-compatible Option and Result types, used where the Python code
    returns None or raises an exception. */
module Wrappers {

  datatype Option<+T> = None | Some(value: T) {
    predicate IsFailure() {
      None?
    }

    function PropagateFailure<U>(): Option<U>
      requires None?
    {
      None
    }

    function Extract(): T
      requires Some?
    {
      value
    }
  }

  datatype Result<+R, +E> = Success(value: R) | Failure(error: E) {
    predicate IsFailure() {
      Failure?
    }

    function PropagateFailure<U>(): Result<U, E>
      requires Failure?
    {
      Failure(error)
    }

    function Extract(): R
      requires Success?
    {
      value
    }
  }
}

/** The Python exceptions that escape the modelled functions. */
module Exceptions {
  datatype Exception =
    | IndexError      // a list index out of range
    | ValueError      // a bad argument value (`int('x')`, `str.split('')`, `max` of nothing)
    | AssertionError  // a failed `assert`
    | ProcessError    // a subprocess that could not be run or exited non-zero
}
