/** The optional-value datatype used throughout the model, standing for a
    JavaScript property that may be absent (or falsy, where the source
    collapses the two). */
module Wrappers {

  datatype Option<+T> = None | Some(value: T) {

    /** The encapsulated value, or `default` when absent. */
    function GetOr(default: T): T {
      match this
      case Some(v) => v
      case None => default
    }
  }
}
