/** Failure-carrying result types used wherever the Java code returns null or throws. */
module Wrappers {

  /** `None` stands for a Java `null`. */
  datatype Option<+T> = None | Some(value: T)

  /** `Err` stands for an exception thrown by the Java code. */
  datatype Result<+T, +E> = Ok(value: T) | Err(error: E)
}
