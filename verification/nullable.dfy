/** Python's `None`-or-value, as the nullable columns and optional arguments of the
    check-in service use it. */
module Nullable {

  datatype Option<+T> = None | Some(value: T) {

    /** The value, or `default` for None. */
    function GetOr(default: T): T {
      match this
      case Some(v) => v
      case None => default
    }
  }
}
