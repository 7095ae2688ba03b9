/** Optional values: a field that a record may lack (JSON/YAML keys that are absent,
    pandas cells that are null). */
module Wrappers {

  datatype Option<+T> = None | Some(value: T) {

    /** The value if present, otherwise `default` (Python's `x or default`,
        JavaScript's `x || default` on a field that is either absent or set). */
    function GetOr(default: T): T {
      match this
      case Some(v) => v
      case None => default
    }
  }
}
