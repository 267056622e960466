/** The session service: every call fetches the stored session, changes the copy step by step, and puts it back. */
module SessionServices {
  import opened Outcomes
  import opened States
  import opened Leases
  import opened Sessions
  import opened Graphs
  import opened Revisions
  import opened SessionRuns

  /** The call stored what the operation is meant to produce, or raised its error and stored nothing. */
  ghost predicate Took(before: Session, meant: Result<Session>, after: Session, r: Result<()>) {
    match meant
    case Ok(s) => r == Ok(()) && after == s
    case Err(e) => r == Err(e) && after == before
  }

  /** `clear_session_execution_leases`. */
  method ClearLeases(nodes: seq<Node>) returns (cleared: seq<Node>)
    ensures |cleared| == |nodes| && forall p :: 0 <= p < |nodes| ==> cleared[p] == Unleased(nodes[p])
  {
    cleared := nodes;
    for p := 0 to |nodes|
      invariant |cleared| == |nodes|
      invariant forall q :: 0 <= q < p ==> cleared[q] == Unleased(nodes[q])
      invariant forall q :: p <= q < |nodes| ==> cleared[q] == nodes[q]
    {
      var attempts := nodes[p].attempts;
      for i := 0 to |attempts|
        invariant |attempts| == |nodes[p].attempts|
        invariant forall j :: 0 <= j < i ==> attempts[j] == nodes[p].attempts[j].(lease := NO_LEASE)
        invariant forall j :: i <= j < |attempts| ==> attempts[j] == nodes[p].attempts[j]
      {
        attempts := attempts[i := attempts[i].(lease := NO_LEASE)];
      }
      assert attempts == Unleased(nodes[p]).attempts;
      cleared := cleared[p := nodes[p].(attempts := attempts)];
    }
  }

  class SessionService {
    var session: Session

    constructor (keys: seq<string>)
      ensures session == Create(keys)
    {
      session := Create(keys);
    }

    method TransitionSession(to: SessionStatus) returns (r: Result<()>)
      modifies this
      ensures Took(old(session), MoveSession(old(session), to), session, r)
    {
      var s := session;
      if to !in SessionMoves(s.status) { return Err(InvalidTransition); }
      s := s.(status := to);
      if IsTerminal(to) {
        var nodes := ClearLeases(s.nodes);
        s := s.(nodes := nodes);
        assert nodes == MoveSession(session, to).value.nodes;
      }
      session := s;
      r := Ok(());
    }

    method AddWorkflowNodes(keys: seq<string>) returns (r: Result<()>)
      modifies this
      ensures Took(old(session), AddNodes(old(session), keys), session, r)
    {
      hide AppendNew;
      for i := 0 to |keys|
        invariant forall j :: 0 <= j < i ==> Find(session.nodes, keys[j]).None?
      {
        if Find(session.nodes, keys[i]).Some? { return Err(ValueError); }
      }
      session := session.(nodes := AppendNew(session.nodes, keys));
      r := Ok(());
    }

    method ApplyWorkflowRevision(rev: Revision) returns (r: Result<()>)
      requires UniqueKeys(session.nodes)
      modifies this
      ensures Took(old(session), Revised(old(session), rev), session, r)
    {
      hide Revised;
      var revised :- ApplyRevision(session, rev);
      session := revised;
      r := Ok(());
    }

    /** `start_node`, `mark_node_pending_gate`, `approve_node` and `mark_node_needs_revision`. */
    method TransitionNode(key: string, to: NodeStatus) returns (r: Result<()>)
      modifies this
      ensures Took(old(session), MoveNode(old(session), key, to), session, r)
    {
      var p := Find(session.nodes, key);
      if p.None? { return Err(NodeNotFound); }
      var node := session.nodes[p.value];
      if to !in NodeMoves(node.status) { return Err(InvalidTransition); }
      node := node.(status := to);
      session := session.(nodes := session.nodes[p.value := node]);
      r := Ok(());
    }

    method CompleteNode(key: string, output: Option<Output>, now: int) returns (r: Result<()>)
      modifies this
      ensures Took(old(session), Sessions.CompleteNode(old(session), key, output, now), session, r)
    {
      var p := Find(session.nodes, key);
      if p.None? { return Err(NodeNotFound); }
      var node :- Moved(session.nodes[p.value], NodeCompleted);
      node := EndLatest(node, Succeeded, output, None, now);
      session := session.(nodes := session.nodes[p.value := node]);
      r := Ok(());
    }

    method FailNode(key: string, error: string, now: int) returns (r: Result<()>)
      modifies this
      ensures Took(old(session), Sessions.FailNode(old(session), key, error, now), session, r)
    {
      var p := Find(session.nodes, key);
      if p.None? { return Err(NodeNotFound); }
      var node :- Moved(session.nodes[p.value], NodeFailed);
      node := EndLatest(node, AttemptFailed, None, Some(error), now);
      session := session.(nodes := session.nodes[p.value := node]);
      r := Ok(());
    }

    method RequeueNode(key: string, reason: string, now: int) returns (r: Result<()>)
      modifies this
      ensures Took(old(session), Sessions.RequeueNode(old(session), key, reason, now), session, r)
    {
      var p := Find(session.nodes, key);
      if p.None? { return Err(NodeNotFound); }
      var node := EndLatest(session.nodes[p.value], Aborted, None, Some(reason), now);
      if node.status == PendingGate {
        node := node.(status := NeedsRevision);
      }
      if node.status != NodeQueued {
        node :- Moved(node, NodeQueued);
      }
      session := session.(nodes := session.nodes[p.value := node]);
      r := Ok(());
    }

    method StartAttempt(key: string, id: string) returns (r: Result<()>)
      modifies this
      ensures Took(old(session), Sessions.StartAttempt(old(session), key, id), session, r)
    {
      var p := Find(session.nodes, key);
      if p.None? { return Err(NodeNotFound); }
      var node := session.nodes[p.value];
      var attempt := Attempt(id, node.key, |node.attempts| + 1, AttemptRunning, None, map[], None, NO_LEASE);
      node := node.(attempts := node.attempts + [attempt]);
      session := session.(nodes := session.nodes[p.value := node]);
      r := Ok(());
    }

    /** Aborts every execution whose lease has run out and puts its node back into the queue. */
    method RecoverExpiredNodeExecutions(now: int) returns (recovered: bool)
      modifies this
      ensures session == RecoverExpired(old(session), now)
      ensures recovered <==> exists p ::
        0 <= p < |old(session).nodes| && HasExpiredExecution(old(session).nodes[p], now)
    {
      hide HasMetadata, IsLive;
      var nodes := session.nodes;
      recovered := false;
      for p := 0 to |nodes|
        invariant |nodes| == |session.nodes|
        invariant forall q :: 0 <= q < p ==> nodes[q] == RecoveredNode(session.nodes[q], now)
        invariant forall q :: p <= q < |nodes| ==> nodes[q] == session.nodes[q]
        invariant recovered <==> exists q :: 0 <= q < p && HasExpiredExecution(session.nodes[q], now)
      {
        var node := nodes[p];
        if HasExpiredExecution(node, now) {
          node := EndLatest(node, Aborted, None, Some(LEASE_EXPIRED), now);
          assert NodeQueued in NodeMoves(node.status);
          nodes := nodes[p := node.(status := NodeQueued)];
          recovered := true;
        }
      }
      assert nodes == RecoverExpired(session, now).nodes;
      session := session.(nodes := nodes);
    }

    method GrantExecutionLease(key: string, id: string, req: Request, now: int) returns (r: Result<()>)
      modifies this
      ensures Took(old(session), GrantLease(old(session), key, id, req, now), session, r)
    {
      hide Grant;
      var p := NodeOfAttempt(session.nodes, id);
      if p.None? { return Err(LeaseError); }
      var node := session.nodes[p.value];
      var i := AttemptIndex(node.attempts, id).value;
      var attempt := node.attempts[i];
      if attempt.nodeKey != key { return Err(LeaseError); }
      var lease :- Grant(attempt.lease, attempt.status == AttemptRunning, req, now);
      node := node.(attempts := node.attempts[i := attempt.(lease := lease)]);
      session := session.(nodes := session.nodes[p.value := node]);
      r := Ok(());
    }

    /** Is the presented token good for the execution right now? */
    method AssertExecutionLease(id: string, token: string, now: int) returns (r: Result<()>)
      ensures r == LeaseAsserted(session, id, token, now)
    {
      var p := NodeOfAttempt(session.nodes, id);
      if p.None? { return Err(LeaseError); }
      var attempt := session.nodes[p.value].attempts[AttemptIndex(session.nodes[p.value].attempts, id).value];
      r := if MayUse(attempt.lease, attempt.status == AttemptRunning, token, now, false) then Ok(())
        else Err(LeaseError);
    }

    method HeartbeatExecutionLease(id: string, token: string, ttl: int, now: int) returns (r: Result<()>)
      modifies this
      ensures Took(old(session), HeartbeatLease(old(session), id, token, ttl, now), session, r)
    {
      hide Heartbeat;
      var p := NodeOfAttempt(session.nodes, id);
      if p.None? { return Err(LeaseError); }
      var node := session.nodes[p.value];
      var i := AttemptIndex(node.attempts, id).value;
      var lease :- Heartbeat(node.attempts[i].lease, node.attempts[i].status == AttemptRunning, token, ttl, now);
      node := node.(attempts := node.attempts[i := node.attempts[i].(lease := lease)]);
      session := session.(nodes := session.nodes[p.value := node]);
      r := Ok(());
    }

    method ReleaseExecutionLease(id: string, token: string, now: int) returns (r: Result<()>)
      modifies this
      ensures Took(old(session), ReleaseLease(old(session), id, token, now), session, r)
    {
      hide Release;
      var p := NodeOfAttempt(session.nodes, id);
      if p.None? { return Err(LeaseError); }
      var node := session.nodes[p.value];
      var i := AttemptIndex(node.attempts, id).value;
      var lease :- Release(node.attempts[i].lease, node.attempts[i].status == AttemptRunning, token, now);
      node := node.(attempts := node.attempts[i := node.attempts[i].(lease := lease)]);
      session := session.(nodes := session.nodes[p.value := node]);
      r := Ok(());
    }

    method RecordGate(key: string, gate: Gate) returns (r: Result<()>)
      modifies this
      ensures Took(old(session), Sessions.RecordGate(old(session), key, gate), session, r)
    {
      var p := Find(session.nodes, key);
      if p.None? { return Err(NodeNotFound); }
      var node := session.nodes[p.value];
      session := session.(nodes := session.nodes[p.value := node.(gates := node.gates + [gate])]);
      r := Ok(());
    }

    /** Records the decision on the gate and moves its node to the status the decision stands for. */
    method ApplyGateDecision(gateId: string, action: DecisionAction) returns (r: Result<()>)
      modifies this
      ensures Took(old(session), DecideGate(old(session), gateId, action), session, r)
    {
      var p := NodeOfGate(session.nodes, gateId);
      if p.None? { return Err(GateNotFound); }
      var node := session.nodes[p.value];
      var i := GateIndex(node.gates, gateId).value;
      node := node.(gates := node.gates[i := node.gates[i].(decision := Some(action))]);
      node :- Moved(node, DecisionTarget(action));
      session := session.(nodes := session.nodes[p.value := node]);
      r := Ok(());
    }

    method ConsumeAgentReport(key: string, executionId: Option<string>, output: Output, error: Option<string>,
                              newId: string) returns (r: Result<()>)
      modifies this
      ensures Took(old(session), ConsumeReport(old(session), key, executionId, output, error, newId), session, r)
    {
      var p := Find(session.nodes, key);
      if p.None? { return Err(NodeNotFound); }
      var node := session.nodes[p.value];
      var i := RunningAttempt(node, executionId);
      if i.Some? {
        node := node.(attempts := node.attempts[i.value := Reported(node.attempts[i.value], output, error)]);
      } else {
        node := node.(attempts := node.attempts + [Reported(FreshAttempt(node, newId), output, error)]);
      }
      session := session.(nodes := session.nodes[p.value := node]);
      r := Ok(());
    }
  }

  function LeaseAsserted(s: Session, id: string, token: string, now: int): Result<()> {
    var p := NodeOfAttempt(s.nodes, id);
    if p.None? then Err(LeaseError)
    else
      var a := s.nodes[p.value].attempts[AttemptIndex(s.nodes[p.value].attempts, id).value];
      if MayUse(a.lease, a.status == AttemptRunning, token, now, false) then Ok(()) else Err(LeaseError)
  }
}
