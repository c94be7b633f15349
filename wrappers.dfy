/** The optional-value type used wherever the source has `None` or a missing key. */
module Wrappers {

  datatype Option<T> = None | Some(value: T) {

    /** `d.get(key, default)`: the value if present, else the default. */
    function GetOr(default: T): T {
      match this
      case Some(v) => v
      case None => default
    }
  }
}
