/** Option for absent values and Outcome for operations that either pass or
    raise one of the stack's errors. */
module Wrappers {

  datatype Option<+T> = None | Some(value: T)

  datatype Outcome<+E> = Pass | Fail(error: E)
}
