/** Failure-compatible wrapper used for the JavaScript values that may be missing:
    `undefined`, `NaN` and an Invalid Date are all modelled as `None`. */
module Wrappers {

  datatype Option<+T> = None | Some(value: T) {

    predicate IsFailure() {
      None?
    }

    function PropagateFailure<U>(): Option<U>
      requires None?
    {
      None
    }

    function Extract(): T
      requires Some?
    {
      value
    }
  }
}
