/** Option and Result: Java's nullable references and thrown exceptions as values. */
module Wrappers {

  /** `None` stands for Java's `null` (or JavaScript's `undefined`). */
  datatype Option<+T> = None | Some(value: T)

  /** `Failure` stands for an exception thrown instead of a value being returned. */
  datatype Result<+R, +E> = Success(value: R) | Failure(error: E)
}
