/** Failure-compatible wrappers shared by the whole model. */
module Wrappers {

  /** A value that may be absent: JavaScript's `undefined`/`null`, Python's
      `None`, or (for numeric results) the NaN a division by zero produces. */
  datatype Option<+T> = None | Some(value: T) {

    predicate IsFailure() {
      None?
    }

    function PropagateFailure<U>(): Option<U>
      requires None?
    {
      None
    }

    function Extract(): T
      requires Some?
    {
      value
    }

    /** The JavaScript idiom `x || default` for a value whose only falsy form is absence. */
    function GetOr(default: T): T {
      match this
      case Some(v) => v
      case None => default
    }
  }
}
