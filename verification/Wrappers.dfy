/** Optional values and results, used by every other module. */
module Wrappers {

  /** A nullable column, a missing row or a value that could not be computed. */
  datatype Option<+T> = None | Some(value: T)

  /** The outcome of an operation that either returns or throws. */
  datatype Result<+T, +E> = Ok(value: T) | Thrown(error: E)

  function GetOr<T>(o: Option<T>, otherwise: T): T {
    if o.Some? then o.value else otherwise
  }
}
