/** How a fallible call ends, and the usual optional value. */
module Outcomes {

  datatype Option<+T> = None | Some(value: T)

  /** A call returns a value, raises an exception its caller may handle, or the
      process dies in it, after which no handler of this process runs. Usable
      with `:-`, which propagates both failures. */
  datatype Outcome<+T> = Returned(value: T) | Raised | Died {

    predicate IsFailure() {
      !Returned?
    }

    function PropagateFailure<U>(): Outcome<U>
      requires IsFailure()
    {
      if Raised? then Raised else Died
    }

    function Extract(): T
      requires Returned?
    {
      value
    }
  }

  /** What the environment decides about one external effect. */
  datatype Fate = Fine | Fails | Dies {

    function Result(): Outcome<()> {
      if Fine? then Returned(()) else if Fails? then Raised else Died
    }
  }

  /** The ways a write to durable storage can end: its effect may be there
      although the call did not return. */
  datatype WriteFate = Written | LostAndRaised | WrittenAndRaised | LostAndDied | WrittenAndDied {

    predicate Durable() {
      Written? || WrittenAndRaised? || WrittenAndDied?
    }

    function Result(): Outcome<()> {
      if Written? then Returned(()) else if LostAndRaised? || WrittenAndRaised? then Raised else Died
    }
  }
}
