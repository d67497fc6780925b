/** Small failure-carrying datatypes shared by the other modules. */
module Wrappers {

  /** A value that may be missing (a pandas NaN after coercion, a key absent from a dict). */
  datatype Option<+T> = None | Some(value: T)

  /** The outcome of a call that may raise a Python exception: it either raised or returned a value. */
  datatype Outcome<+T> = Raised | Returned(value: T)
}
