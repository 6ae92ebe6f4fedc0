/** Optional values and results shared by the other modules. */
module Wrappers {

  /** A value that may be missing; `None` stands for a .NET `null` reference. */
  datatype Option<+T> = None | Some(value: T)

  /** Either a value or the exception the source throws instead of returning one. */
  datatype Result<+R, +E> = Success(value: R) | Failure(error: E)
}
