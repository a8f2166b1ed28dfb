/** Option and Result: Ruby's `nil` and raised exceptions, made explicit. */
module Wrappers {

  /** A value that may be absent; `None` stands for Ruby's `nil`. */
  datatype Option<+T> = None | Some(value: T)

  /** Either a value or the error that would have been raised instead. */
  datatype Result<+R, +E> = Success(value: R) | Failure(error: E)
}
