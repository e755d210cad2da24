/** Option and Result, used wherever the C# source returns null or throws. */
module Wrappers {

  /** A value or the absence of one (C#'s null). */
  datatype Option<+T> = None | Some(value: T)

  /** A value or the exception that replaced it. */
  datatype Result<+T, +E> = Success(value: T) | Failure(error: E)
}
