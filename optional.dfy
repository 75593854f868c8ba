/** The Option type used throughout the model for values that JavaScript
    represents as `null` or `undefined`. */
module Optional {

  datatype Option<+T> = None | Some(value: T)
  {
    /** The value, or `default` when there is none (JavaScript's `x ?? default`). */
    function GetOr(default: T): T
    {
      match this
      case Some(v) => v
      case None => default
    }
  }
}
