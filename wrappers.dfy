/** Option and Outcome datatypes shared by every module of the model. */
module Wrappers {

  /** A possibly absent value: stands for a Java reference that may be null. */
  datatype Option<+T> = None | Some(value: T)

  /** The result of an operation that either completes or throws. */
  datatype Outcome<+E> = Pass | Fail(error: E)
}
