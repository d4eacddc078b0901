/** An optional value: the model of a JavaScript property that may be absent
    (`undefined`) or `null`. The calculator never tells the two apart (it only
    tests `x == null`), so both are `None`. */
module Wrappers {

  datatype Option<+T> = None | Some(value: T) {

    /** The value, or `default` when absent. */
    function GetOr(default: T): T {
      match this
      case Some(v) => v
      case None => default
    }
  }
}
