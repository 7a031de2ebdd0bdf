/** Option: a value that may be absent (a missing DOM attribute, a missing storage entry, a failed parse). */
module Wrappers {

  datatype Option<+T> = None | Some(value: T) {

    /** The value, or `default` when absent: JavaScript's `x || default` on a possibly-null attribute. */
    function GetOr(default: T): T {
      match this
      case Some(v) => v
      case None => default
    }
  }
}
