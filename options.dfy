/** The optional value used wherever the JavaScript code yields `undefined`,
    `null` or "no match". */
module Options {

  datatype Option<+T> = None | Some(value: T) {

    /** Returns the value held in Some, or a default for None
        (JavaScript's `x || default`). */
    function GetOr(default: T): T {
      match this
      case Some(v) => v
      case None => default
    }
  }
}
