/** Presence and absence of an optional value: a JavaScript property that is
    `undefined`, a Python dict key that is not set, a protobuf field for which
    `HasField` is false. */
module Wrappers {

  datatype Option<+T> = None | Some(value: T) {

    /** The value, or `default` when absent. */
    function GetOr(default: T): T {
      match this
      case Some(v) => v
      case None => default
    }
  }
}
