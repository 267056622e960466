/** The session, node and attempt statuses and their three transition tables. */
module States {

  datatype SessionStatus =
    | SessionQueued | SessionRunning | WaitingGate | Resuming | SessionCompleted | SessionFailed | Cancelled

  datatype NodeStatus =
    | NodeQueued | NodeRunning | PendingGate | Approved | NeedsRevision | NodeCompleted | NodeFailed | Stale

  datatype AttemptStatus = AttemptRunning | Succeeded | AttemptFailed | Aborted

  datatype GateOutcome = Pass | RequiresDecision | Block

  datatype DecisionAction = Approve | Revise | Replan | Reject

  function SessionMoves(from: SessionStatus): set<SessionStatus> {
    match from
    case SessionQueued => {SessionRunning, Cancelled}
    case SessionRunning => {WaitingGate, SessionCompleted, SessionFailed, Cancelled}
    case WaitingGate => {Resuming, Cancelled, SessionFailed}
    case Resuming => {SessionRunning, SessionFailed, Cancelled}
    case SessionCompleted => {}
    case SessionFailed => {}
    case Cancelled => {}
  }

  function NodeMoves(from: NodeStatus): set<NodeStatus> {
    match from
    case NodeQueued => {NodeRunning, Stale}
    case NodeRunning => {NodeQueued, PendingGate, NodeCompleted, NodeFailed}
    case PendingGate => {Approved, NeedsRevision, NodeFailed}
    case Approved => {NodeCompleted, Stale}
    case NeedsRevision => {NodeQueued, NodeFailed}
    case NodeCompleted => {Stale}
    case NodeFailed => {}
    case Stale => {NodeQueued}
  }

  function AttemptMoves(from: AttemptStatus): set<AttemptStatus> {
    match from
    case AttemptRunning => {Succeeded, AttemptFailed, Aborted}
    case Succeeded => {}
    case AttemptFailed => {}
    case Aborted => {}
  }

  predicate IsTerminal(s: SessionStatus) {
    s in {SessionCompleted, SessionFailed, Cancelled}
  }

  /** `target_status_for_decision`. */
  function DecisionTarget(action: DecisionAction): NodeStatus {
    match action
    case Approve => Approved
    case Revise => NeedsRevision
    case Replan => NeedsRevision
    case Reject => NodeFailed
  }
}
