/** Types shared by the modules of the model. */
module Basics {

  datatype Option<+T> = None | Some(value: T)

  /** The result of an operation whose RTC_CHECK, RTC_DCHECK or null dereference may fire.
      After CheckFailed the source gives no guarantee, so nothing is modelled beyond it. */
  datatype Outcome<+T> = Ok(value: T) | CheckFailed {
    predicate IsFailure() {
      CheckFailed?
    }

    function PropagateFailure<U>(): Outcome<U>
      requires CheckFailed?
    {
      CheckFailed
    }

    function Extract(): T
      requires Ok?
    {
      value
    }
  }

  /** Identity of a stream object; pointers are ordered, so naturals stand for them. */
  type StreamId = nat
}
