/** The optional-value type shared by every module of the model. */
module Wrappers {
  /** `None` stands for JavaScript's `null` / `undefined` where the source uses them as "no value". */
  datatype Option<+T> = None | Some(value: T) {
    function GetOr(default: T): T {
      match this
      case Some(v) => v
      case None => default
    }
  }
}
