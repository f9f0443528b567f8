/** Optional values: `None` stands for JavaScript `null`/`undefined` and Python `None`. */
module Wrappers {

  datatype Option<+T> = None | Some(value: T) {

    /** The value, or `default` when absent (`x ?? default` in TypeScript). */
    function GetOr(default: T): T {
      match this
      case Some(v) => v
      case None => default
    }
  }
}
