/** Python's `None` next to a value, used wherever the launcher keeps
    an optional string (an unset environment variable, a name that was
    never read, a lookup that matches nothing). */
module Wrappers {

  datatype Option<+T> = None | Some(value: T) {

    /** The value, or `default` when there is none. */
    function GetOr(default: T): T {
      match this
      case Some(v) => v
      case None => default
    }
  }
}
