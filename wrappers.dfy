/** Optional values: a missing dictionary key or a NaN cell. */
module Wrappers {
  datatype Option<T> = None | Some(value: T)
  {
    /** The value, or `default` when it is missing (Python's `d.get(k, default)`). */
    function GetOr(default: T): T
    {
      match this
      case None => default
      case Some(v) => v
    }
  }
}
