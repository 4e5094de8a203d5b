/** Failure-carrying datatypes shared by the model: an optional value for
    lookups that may miss, and a pass/fail outcome for commands that throw. */
module Wrappers {

  datatype Option<+T> = None | Some(value: T)

  datatype Outcome<+E> = Pass | Fail(error: E)
}
