/** How a call ends when the process may end in the middle of it. */
module Outcomes {

  datatype Outcome = Done | Stopped {
    predicate IsFailure() {
      Stopped?
    }

    function PropagateFailure(): Outcome
      requires IsFailure()
    {
      this
    }
  }
}
