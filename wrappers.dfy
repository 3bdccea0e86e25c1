/** The optional and fallible values the ledger's operations pass around. */
module Wrappers {

  /** `None` stands for Python's `None`. */
  datatype Option<+T> = None | Some(value: T)

  /** The outcome of an operation that can raise: the value or the error raised. */
  datatype Result<+T, +E> = Success(value: T) | Failure(error: E)
}
