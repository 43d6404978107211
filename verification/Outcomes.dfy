/** Small result types shared by the protocol models. */
module Outcomes {

  datatype Option<+T> = None | Some(value: T) {
    predicate IsFailure() {
      None?
    }

    function PropagateFailure<U>(): Option<U>
      requires None?
    {
      None
    }

    function Extract(): T
      requires Some?
    {
      value
    }
  }

  /** How one statement, one migration or one whole start of Jen ends.  `Crashed` is the process dying at that point. */
  datatype Outcome = Done | Crashed | EngineError {
    predicate IsFailure() {
      !Done?
    }

    function PropagateFailure(): Outcome
      requires IsFailure()
    {
      this
    }
  }

  /** How one file-system step ends.  `Crashed` is the process dying at that point, `Failed` an OSError the caller
      sees. */
  datatype Step = Ran | Died | Failed {
    predicate IsFailure() {
      !Ran?
    }

    function PropagateFailure(): Step
      requires IsFailure()
    {
      this
    }
  }
}
