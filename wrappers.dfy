/** Optional values: an absent store field, an unparsable number. */
module Wrappers {

  datatype Option<+T> = None | Some(value: T) {

    /** The value if present, `default` otherwise (JavaScript's `x || default`
        for a field that is either missing or a non-zero number). */
    function GetOr(default: T): T {
      match this
      case Some(v) => v
      case None => default
    }
  }
}
