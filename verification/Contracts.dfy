/** The states of a contract and its log of state changes. */
module Contracts {
  datatype State = Unset | Draft | Proposed | Accepted | Active | Paused | Updated | Terminated | Completed | Settled

  datatype Transition = Transition(from: State, into: State, at: int, who: string)
}
