/** The optional value used throughout the model: JavaScript's `undefined`/`null`
    for an absent field, or a failed (throwing) conversion. */
module Wrappers {

  datatype Option<+T> = None | Some(value: T) {

    /** The wrapped value, or `default` when absent (JavaScript's `v ?? default`). */
    function GetOr(default: T): T {
      match this
      case Some(v) => v
      case None => default
    }
  }
}
