/** The optional-value datatype shared by every module of the model. A JavaScript
    `undefined` (an absent field, a missing map entry, a rejected promise) becomes `None`. */
module Wrappers {

  datatype Option<+T> = None | Some(value: T) {

    /** The wrapped value, or `default` when there is none. */
    function GetOr(default: T): T {
      match this
      case Some(v) => v
      case None => default
    }
  }
}
