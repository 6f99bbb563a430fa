/** Failure-carrying datatypes shared by the modules of this model: an absent
    value (Python's None, TypeScript's null/undefined), a value or an error (a
    function that either returns or raises), and a pass/fail outcome (a Python
    function that returns None or raises). */
module Wrappers {

  datatype Option<+T> = None | Some(value: T)

  datatype Result<+T, +E> = Success(value: T) | Failure(error: E)

  datatype Outcome<+E> = Pass | Fail(error: E)
}
