/** Small shared vocabulary: an optional value, as Ruby's `nil`-or-value. */
module Common {

  datatype Option<+T> = None | Some(value: T) {

    /** The wrapped value, or `default` for `None` (Ruby's `x || default`). */
    function GetOr(default: T): T {
      match this
      case Some(v) => v
      case None => default
    }
  }
}
