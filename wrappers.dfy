/** Optional values: a SQL NULL, a JavaScript `undefined`, a row that a query did not find. */
module Wrappers {

  datatype Option<+T> = None | Some(value: T) {

    /** The value if there is one, `default` otherwise. */
    function GetOr(default: T): T {
      match this
      case Some(v) => v
      case None => default
    }
  }
}
