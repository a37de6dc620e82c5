/** Optional values and results that can fail. */
module Wrappers {
  datatype Option<T> = None | Some(value: T)

  /** The source raises `ValueError` or terminates with the given reason. */
  datatype Result<T> = Success(value: T) | Failure(reason: string)
}
