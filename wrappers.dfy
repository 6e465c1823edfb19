/** Option and Result, standing for PHP's nullable values and for the exceptions the service throws. */
module Wrappers {

  /** `None` stands for PHP's `null`. */
  datatype Option<+T> = None | Some(value: T)

  /** A computation that either produced a value or threw. */
  datatype Result<+R, +E> = Success(value: R) | Failure(error: E)
}
