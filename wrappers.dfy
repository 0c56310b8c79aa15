/** Small failure-carrying datatypes shared by the other modules. */
module Wrappers {

  /** A value that may be absent. */
  datatype Option<+T> = None | Some(value: T)

  /** The result of Go code that either returns normally or panics. */
  datatype Outcome<+T> = Done(value: T) | Panic
}
