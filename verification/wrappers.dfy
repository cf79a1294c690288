/** Optional values and fallible results, standing in for C#'s `null` and thrown exceptions. */
module Wrappers {

  /** A value that may be absent (a C# reference that may be `null`). */
  datatype Option<+T> = None | Some(value: T)

  /** The outcome of an operation that either yields a value or stops with an error. */
  datatype Result<+T, +E> = Success(value: T) | Failure(error: E)
}
