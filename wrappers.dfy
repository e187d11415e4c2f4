/** Failure-compatible wrappers shared by every module of the model. */
module Wrappers {

  /** A value that may be absent: JavaScript's `null` / `undefined` results. */
  datatype Option<+T> = None | Some(value: T) {
    function GetOr(default: T): T {
      match this
      case Some(v) => v
      case None => default
    }
  }

  /** The outcome of an operation that may throw: `Err` carries the thrown message. */
  datatype Result<+T> = Ok(value: T) | Err(error: string)

  /**
   * A JavaScript property read on a record coming from storage or a database:
   * the property is missing (`undefined`), explicitly `null`, or holds a value.
   */
  datatype Field<+T> = Undefined | Null | Value(v: T) {
    /** `x ?? d`: the default replaces both `null` and `undefined`. */
    function Coalesce(default: T): T {
      if Value? then v else default
    }
  }
}
