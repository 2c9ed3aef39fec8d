/** Optional values: a field of a stored document that may be absent. */
module Wrappers {

  datatype Option<+T> = None | Some(value: T) {

    /** `x || default` on a document field: the stored value when there is one. */
    function GetOr(default: T): T {
      match this
      case Some(v) => v
      case None => default
    }
  }
}
