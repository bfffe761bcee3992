/** The optional value shared by every module of the gateway model. */
module Wrappers {

  /** `None` stands for JavaScript's `undefined`/`null`, `Some` for a present value. */
  datatype Option<+T> = None | Some(value: T) {

    /** Returns the value, or `default` when there is none. */
    function GetOr(default: T): T {
      match this
      case Some(v) => v
      case None => default
    }
  }
}
