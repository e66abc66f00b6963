/** The optional-value datatype shared by every module of the model: `None` stands
    for JavaScript's `undefined`/absent value, `Some` for a present one. */
module Wrappers {

  datatype Option<+T> = None | Some(value: T) {

    /** The value, or `default` when absent (JavaScript's `x ?? default`). */
    function GetOr(default: T): T {
      match this
      case Some(v) => v
      case None => default
    }
  }
}
