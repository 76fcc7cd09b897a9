/** Optional values, used for Python's `None`, for a dictionary lookup that may miss and
    for a call into a collaborator that may raise. */
module Wrappers {

  datatype Option<T> = None | Some(value: T) {

    /** The value, or `default` for None (Python's `x or default` on an optional). */
    function GetOr(default: T): T {
      match this
      case Some(v) => v
      case None => default
    }
  }
}
