/** Results and optional values shared by every module. */
module Outcomes {

  /** A value that may be absent (Python's `None`). */
  datatype Option<+T> = None | Some(value: T)

  /** The exceptions the control plane, the kernel and the stores raise. */
  datatype Error =
    | InvalidTransition   // a move that is not on a transition table, or one a caller forbids
    | NodeNotFound
    | GateNotFound
    | LeaseError          // ExecutionLeaseError and TurnLeaseError
    | KeyError            // an interaction not started, or a node the blueprint does not have
    | ValueError          // failed validation
    | RuntimeError        // operation refused in the current status
    | UnexecutedProtocol  // mode/topology outside the executed envelope

  datatype Result<+T> = Ok(value: T) | Err(error: Error) {
    predicate IsFailure() { Err? }

    function PropagateFailure<U>(): Result<U>
      requires Err?
    {
      Err(error)
    }

    function Extract(): T
      requires Ok?
    {
      value
    }
  }
}
