/** An optional value: the model's stand-in for a JavaScript value that may be `undefined` or `null`. */
module Options {
  datatype Option<T> = None | Some(value: T) {
    function GetOr(default: T): T {
      match this
      case Some(v) => v
      case None => default
    }

    /** This value when present, else `other`. */
    function Or(other: Option<T>): Option<T> {
      if Some? then this else other
    }
  }
}
