/** What single calls of the session service do: exactly when they are refused, and what they leave alone. */
module CallEffects {
  import opened Outcomes
  import opened States
  import opened Leases
  import opened Sessions
  import opened Graphs
  import opened Revisions
  import opened SessionRuns
  import Text

  // ---- statuses ------------------------------------------------------------------------

  /** No move, one on the table of node statuses, or two: into the queue by way of needs-revision or stale, and out of
      needs-revision into stale by way of the queue. */
  predicate Follows(from: NodeStatus, to: NodeStatus) {
    || to == from
    || to in NodeMoves(from)
    || (to == NodeQueued && NeedsRevision in NodeMoves(from))
    || (to == NodeQueued && Stale in NodeMoves(from))
    || (to == Stale && from == NeedsRevision)
  }

  /** The statuses of session and nodes have moved on their tables, and new nodes are queued. */
  ghost predicate OnTables(s: Session, t: Session) {
    && (t.status == s.status || t.status in SessionMoves(s.status))
    && |s.nodes| <= |t.nodes|
    && (forall p :: 0 <= p < |s.nodes| ==> Follows(s.nodes[p].status, t.nodes[p].status))
    && (forall p :: |s.nodes| <= p < |t.nodes| ==> t.nodes[p].status == NodeQueued)
  }

  lemma OnNodeFollows(s: Session, key: string, change: Node -> Result<Node>)
    requires forall n :: change(n).Ok? ==> Follows(n.status, change(n).value.status)
    ensures var r := OnNode(s, key, change); OnTables(s, if r.Ok? then r.value else s)
  {
  }

  lemma OnLeaseFollows(s: Session, id: string, change: Attempt -> Result<Lease>)
    ensures var r := OnLease(s, id, change); OnTables(s, if r.Ok? then r.value else s)
  {
  }

  lemma EndingFollows(n: Node, output: Option<Output>, reason: string, now: int)
    ensures Completed(n, output, now).Ok? ==> Follows(n.status, Completed(n, output, now).value.status)
    ensures Failed(n, reason, now).Ok? ==> Follows(n.status, Failed(n, reason, now).value.status)
    ensures Requeued(n, reason, now).Ok? ==> Follows(n.status, Requeued(n, reason, now).value.status)
    ensures Follows(n.status, RecoveredNode(n, now).status)
  {
  }

  lemma RevisionFollows(s: Session, rev: Revision)
    ensures var r := Revised(s, rev); OnTables(s, if r.Ok? then r.value else s)
  {
    hide ValidRevision, Blocks;
    if Revised(s, rev).Ok? {
      var grown, nodes := WithAdded(s, rev), Revised(s, rev).value.nodes;
      forall p | 0 <= p < |nodes|
        ensures if p < |s.nodes| then Follows(s.nodes[p].status, nodes[p].status) else nodes[p].status == NodeQueued
      {
        assert nodes[p] == RevisedNode(grown[p], rev);
        WithAddedTail(s, rev, p);
        if p < |s.nodes| { RevisedFollows(s.nodes[p], rev); } else { RevisedFresh(grown[p].key, rev); }
      }
    }
  }

  lemma RevisedFollows(n: Node, rev: Revision)
    requires !Blocks(n, rev)
    ensures Follows(n.status, RevisedNode(n, rev).status)
  {
    hide Added, Removed, Requeue;
  }

  lemma RevisedFresh(key: string, rev: Revision)
    requires key in Added(rev)
    ensures RevisedNode(FreshNode(key), rev).status == NodeQueued
  {
    hide Added, Removed, Requeue;
  }

  lemma DecisionFollows(s: Session, gateId: string, action: DecisionAction)
    ensures var r := DecideGate(s, gateId, action); OnTables(s, if r.Ok? then r.value else s)
  {
    hide NodeOfGate, GateIndex;
  }

  /** No call ever moves a session or a node off its table, whatever its arguments. */
  lemma StatusesFollowTables(s: Session, c: Call)
    ensures OnTables(s, After(s, c))
  {
    hide OnNode, OnLease, Revised, DecideGate, Follows, Completed, Failed, Requeued, RecoveredNode, AppendNew, Moved;
    hide OnTables;
    var now := c.now;
    match c.op
    case MoveSessionOp(to) => SessionMoveFollows(s, to);
    case AddNodesOp(keys) => AddNodesFollows(s, keys);
    case ReviseOp(rev) => RevisionFollows(s, rev);
    case MoveNodeOp(key, target) =>
      forall n { MoveFollows(n, target); }
      OnNodeFollows(s, key, (n: Node) => Moved(n, target));
    case CompleteNodeOp(key, result) =>
      forall n { EndingFollows(n, result, "", now); }
      OnNodeFollows(s, key, (n: Node) => Completed(n, result, now));
    case FailNodeOp(key, reason) =>
      forall n { EndingFollows(n, None, reason, now); }
      OnNodeFollows(s, key, (n: Node) => Failed(n, reason, now));
    case RequeueNodeOp(key, reason) =>
      forall n { EndingFollows(n, None, reason, now); }
      OnNodeFollows(s, key, (n: Node) => Requeued(n, reason, now));
    case StartAttemptOp(key, id) =>
      forall n: Node { StillFollows(n.status); }
      OnNodeFollows(s, key, (n: Node) => Ok(Attempted(n, id)));
    case RecoverOp => RecoveryFollows(s, now);
    case GrantLeaseOp(key, id, req) =>
      OnLeaseFollows(s, id, (a: Attempt) => if a.nodeKey != key then Err(LeaseError)
        else Grant(a.lease, a.status == AttemptRunning, req, now));
    case HeartbeatLeaseOp(id, token, ttl) =>
      OnLeaseFollows(s, id, (a: Attempt) => Heartbeat(a.lease, a.status == AttemptRunning, token, ttl, now));
    case ReleaseLeaseOp(id, token) =>
      OnLeaseFollows(s, id, (a: Attempt) => Release(a.lease, a.status == AttemptRunning, token, now));
    case RecordGateOp(key, gate) =>
      forall n: Node { StillFollows(n.status); }
      OnNodeFollows(s, key, (n: Node) => Ok(Gated(n, gate)));
    case DecideGateOp(gateId, action) => DecisionFollows(s, gateId, action);
    case ConsumeReportOp(key, executionId, output, error, newId) =>
      forall n: Node { StillFollows(n.status); }
      OnNodeFollows(s, key, (n: Node) => Ok(Consumed(n, executionId, output, error, newId)));
  }

  lemma MoveFollows(n: Node, to: NodeStatus)
    ensures Moved(n, to).Ok? ==> Follows(n.status, Moved(n, to).value.status)
  {
  }

  lemma StillFollows(status: NodeStatus)
    ensures Follows(status, status)
  {
  }

  lemma SessionMoveFollows(s: Session, to: SessionStatus)
    ensures var r := MoveSession(s, to); OnTables(s, if r.Ok? then r.value else s)
  {
  }

  lemma AddNodesFollows(s: Session, keys: seq<string>)
    ensures var r := AddNodes(s, keys); OnTables(s, if r.Ok? then r.value else s)
  {
    hide AppendNew;
    var grown := AppendNew(s.nodes, keys);
    forall p | 0 <= p < |s.nodes| ensures grown[p] == s.nodes[p] { assert grown[..|s.nodes|][p] == s.nodes[p]; }
  }

  lemma RecoveryFollows(s: Session, now: int)
    ensures OnTables(s, RecoverExpired(s, now))
  {
    hide RecoveredNode, Follows;
    forall p | 0 <= p < |s.nodes| { EndingFollows(s.nodes[p], None, "", now); }
  }

  /** The moves of a node, by where they lead. */
  predicate MayBecome(from: NodeStatus, to: NodeStatus) {
    match to
    case NodeQueued => from in {NodeRunning, NeedsRevision, Stale}
    case NodeRunning => from == NodeQueued
    case PendingGate => from == NodeRunning
    case Approved => from == PendingGate
    case NeedsRevision => from == PendingGate
    case NodeCompleted => from in {NodeRunning, Approved}
    case NodeFailed => from in {NodeRunning, PendingGate, NeedsRevision}
    case Stale => from in {NodeQueued, Approved, NodeCompleted}
  }

  /** The moves of a session, by where they lead. */
  predicate MayEnter(from: SessionStatus, to: SessionStatus) {
    match to
    case SessionQueued => false
    case SessionRunning => from in {SessionQueued, Resuming}
    case WaitingGate => from == SessionRunning
    case Resuming => from == WaitingGate
    case SessionCompleted => from == SessionRunning
    case SessionFailed => from in {SessionRunning, WaitingGate, Resuming}
    case Cancelled => from in {SessionQueued, SessionRunning, WaitingGate, Resuming}
  }

  /** A node or session is moved exactly where its table allows; a node alone in its status, a session in its own,
      except that its end takes the leases of all attempts away. */
  lemma MovingExact(s: Session, p: nat, to: NodeStatus, end: SessionStatus)
    requires UniqueKeys(s.nodes) && p < |s.nodes|
    ensures MoveNode(s, s.nodes[p].key, to)
         == if MayBecome(s.nodes[p].status, to) then Ok(s.(nodes := s.nodes[p := s.nodes[p].(status := to)]))
            else Err(InvalidTransition)
    ensures var r := MoveSession(s, end);
      if MayEnter(s.status, end) then
        && r.Ok? && r.value.status == end && |r.value.nodes| == |s.nodes|
        && (end in {SessionRunning, WaitingGate, Resuming} ==> r.value.nodes == s.nodes)
        && forall q, i :: 0 <= q < |s.nodes| && 0 <= i < |s.nodes[q].attempts| ==>
             var n, m := s.nodes[q], r.value.nodes[q];
             && m.key == n.key && m.status == n.status && m.gates == n.gates && |m.attempts| == |n.attempts|
             && m.attempts[i] == if end in {SessionCompleted, SessionFailed, Cancelled} then
                                   n.attempts[i].(lease := NO_LEASE) else n.attempts[i]
      else r == Err(InvalidTransition)
  {
    FindUnique(s.nodes, p);
    hide Find;
  }

  /** Nodes can be added exactly under keys the session does not have; each of them starts afresh, none twice, and the
      others stay. */
  lemma {:induction false} AddingExact(s: Session, keys: seq<string>)
    requires UniqueKeys(s.nodes)
    ensures var r := AddNodes(s, keys);
      if exists p :: 0 <= p < |s.nodes| && s.nodes[p].key in keys then r == Err(ValueError)
      else
        && r.Ok? && r.value.status == s.status && s.nodes <= r.value.nodes && UniqueKeys(r.value.nodes)
        && (forall p :: |s.nodes| <= p < |r.value.nodes| ==>
             r.value.nodes[p] == Node(r.value.nodes[p].key, NodeQueued, [], []) && r.value.nodes[p].key in keys)
        && forall k :: k in keys ==> Find(r.value.nodes, k).Some?
  {
    AppendNewUnique(s.nodes, keys);
    hide AppendNew, UniqueKeys;
    if exists p :: 0 <= p < |s.nodes| && s.nodes[p].key in keys {
      var p :| 0 <= p < |s.nodes| && s.nodes[p].key in keys;
      var i :| 0 <= i < |keys| && keys[i] == s.nodes[p].key;
      assert Find(s.nodes, keys[i]).Some?;
    }
    hide Find;
  }

  /** Starting an attempt and recording a gate add just that to the node. */
  lemma GrowingExact(s: Session, p: nat, id: string, gate: Gate)
    requires UniqueKeys(s.nodes) && p < |s.nodes|
    ensures var n := s.nodes[p];
      && StartAttempt(s, n.key, id) == Ok(s.(nodes := s.nodes[p := n.(attempts := n.attempts +
           [Attempt(id, n.key, |n.attempts| + 1, AttemptRunning, None, map[], None, NO_LEASE)])]))
      && RecordGate(s, n.key, gate) == Ok(s.(nodes := s.nodes[p := n.(gates := n.gates + [gate])]))
  {
    FindUnique(s.nodes, p);
    hide Find;
  }

  /** Of a node the session does not have, none of this can be done. */
  lemma UnknownNodeRefused(s: Session, key: string, to: NodeStatus, output: Option<Output>, text: string, id: string,
                           gate: Gate, report: Output, now: int)
    requires forall p :: 0 <= p < |s.nodes| ==> s.nodes[p].key != key
    ensures MoveNode(s, key, to) == CompleteNode(s, key, output, now) == FailNode(s, key, text, now)
         == RequeueNode(s, key, text, now) == StartAttempt(s, key, id) == RecordGate(s, key, gate)
         == ConsumeReport(s, key, Some(id), report, None, id) == Err(NodeNotFound)
  {
    assert Find(s.nodes, key).None?;
    hide Find;
  }

  // ---- attempts ------------------------------------------------------------------------

  /** Only node `p` is different. */
  predicate OnlyNode(s: Session, t: Session, p: nat) {
    && p < |s.nodes| == |t.nodes| && t.status == s.status
    && t.nodes[p].key == s.nodes[p].key
    && forall q :: 0 <= q < |s.nodes| && q != p ==> t.nodes[q] == s.nodes[q]
  }

  /** The latest attempt, if it was running, has ended this way and gave its lease up; the others are as they were. */
  predicate LatestEnded(n: Node, m: Node, to: AttemptStatus, output: Option<Output>, error: Option<string>, now: int) {
    && |m.attempts| == |n.attempts| && m.gates == n.gates
    && forall i :: 0 <= i < |n.attempts| ==>
         var a, b := n.attempts[i], m.attempts[i];
         if i == |n.attempts| - 1 && a.status == AttemptRunning then
           && b.status == to && b.finishedAt == Some(now) && b.lease == NO_LEASE
           && b.id == a.id && b.nodeKey == a.nodeKey && b.number == a.number
           && b.output == (if output.Some? then output.value else a.output)
           && b.error == (if error.Some? then error else a.error)
         else b == a
  }

  lemma EndedIsLatest(n: Node, to: AttemptStatus, output: Option<Output>, error: Option<string>, now: int)
    ensures var m := EndLatest(n, to, output, error, now);
      LatestEnded(n, m, to, output, error, now) && m.key == n.key && m.status == n.status
  {
  }

  /** The call goes through on node `p` and does this to it, or is refused. */
  predicate Does(s: Session, p: nat, r: Result<Session>, allowed: bool, status: NodeStatus, to: AttemptStatus,
                 output: Option<Output>, error: Option<string>, now: int)
    requires p < |s.nodes|
  {
    if allowed then
      && r.Ok? && OnlyNode(s, r.value, p) && r.value.nodes[p].status == status
      && LatestEnded(s.nodes[p], r.value.nodes[p], to, output, error, now)
    else r == Err(InvalidTransition)
  }

  lemma OnNodeDoes(s: Session, p: nat, change: Node -> Result<Node>, status: NodeStatus, to: AttemptStatus,
                   output: Option<Output>, error: Option<string>, now: int)
    requires UniqueKeys(s.nodes) && p < |s.nodes|
    requires var r := change(s.nodes[p]);
      if r.Ok? then r.value.key == s.nodes[p].key && r.value.status == status
        && LatestEnded(s.nodes[p], r.value, to, output, error, now)
      else r == Err(InvalidTransition)
    ensures Does(s, p, OnNode(s, s.nodes[p].key, change), change(s.nodes[p]).Ok?, status, to, output, error, now)
  {
    FindUnique(s.nodes, p);
    hide Find, LatestEnded;
  }

  /** A node can be completed exactly while it runs or is approved. Then its latest attempt has succeeded with the given
      output, if it was still running, and nothing else has changed. */
  lemma CompletingExact(s: Session, p: nat, output: Option<Output>, now: int)
    requires UniqueKeys(s.nodes) && p < |s.nodes|
    ensures Does(s, p, CompleteNode(s, s.nodes[p].key, output, now), s.nodes[p].status in {NodeRunning, Approved},
                 NodeCompleted, Succeeded, output, None, now)
  {
    hide Does, OnNode, LatestEnded, EndLatest;
    EndedIsLatest(s.nodes[p].(status := NodeCompleted), Succeeded, output, None, now);
    EndedIgnoresStatus(s.nodes[p], NodeCompleted, Completed(s.nodes[p], output, now), Succeeded, output, None, now);
    OnNodeDoes(s, p, (n: Node) => Completed(n, output, now), NodeCompleted, Succeeded, output, None, now);
  }

  /** It can be failed exactly while it runs, waits for a decision or needs a revision. */
  lemma FailingExact(s: Session, p: nat, error: string, now: int)
    requires UniqueKeys(s.nodes) && p < |s.nodes|
    ensures Does(s, p, FailNode(s, s.nodes[p].key, error, now),
      s.nodes[p].status in {NodeRunning, PendingGate, NeedsRevision},
                 NodeFailed, AttemptFailed, None, Some(error), now)
  {
    hide Does, OnNode, LatestEnded, EndLatest;
    EndedIsLatest(s.nodes[p].(status := NodeFailed), AttemptFailed, None, Some(error), now);
    EndedIgnoresStatus(s.nodes[p], NodeFailed, Failed(s.nodes[p], error, now), AttemptFailed, None, Some(error), now);
    OnNodeDoes(s, p, (n: Node) => Failed(n, error, now), NodeFailed, AttemptFailed, None, Some(error), now);
  }

  /** It can be requeued unless it is approved, completed or failed. */
  lemma RequeueingExact(s: Session, p: nat, reason: string, now: int)
    requires UniqueKeys(s.nodes) && p < |s.nodes|
    ensures Does(s, p, RequeueNode(s, s.nodes[p].key, reason, now),
      s.nodes[p].status !in {Approved, NodeCompleted, NodeFailed},
                 NodeQueued, Aborted, None, Some(reason), now)
  {
    hide Does, OnNode, LatestEnded;
    EndedIsLatest(s.nodes[p], Aborted, None, Some(reason), now);
    var ended := EndLatest(s.nodes[p], Aborted, None, Some(reason), now);
    assert ended.key == s.nodes[p].key && ended.status == s.nodes[p].status;
    hide EndLatest;
    var r := Requeued(s.nodes[p], reason, now);
    assert r.Ok? ==> r.value == ended.(status := NodeQueued);
    RequeuedEnds(s.nodes[p], ended, Aborted, None, Some(reason), now);
    OnNodeDoes(s, p, (n: Node) => Requeued(n, reason, now), NodeQueued, Aborted, None, Some(reason), now);
  }

  lemma RequeuedEnds(n: Node, m: Node, to: AttemptStatus, output: Option<Output>, error: Option<string>, now: int)
    requires LatestEnded(n, m, to, output, error, now)
    ensures LatestEnded(n, m.(status := NodeQueued), to, output, error, now)
  {
  }

  lemma EndedIgnoresStatus(n: Node, status: NodeStatus, r: Result<Node>, to: AttemptStatus, output: Option<Output>,
                           error: Option<string>, now: int)
    requires r.Ok? ==> LatestEnded(n.(status := status), r.value, to, output, error, now)
    ensures r.Ok? ==> LatestEnded(n, r.value, to, output, error, now)
  {
  }

  // ---- reports, gates and leases -----------------------------------------------------------

  /** The report has been merged into an attempt: its outputs win, key by key, and a blank error says nothing. */
  predicate Merged(a: Attempt, b: Attempt, output: Output, error: Option<string>) {
    && b.id == a.id && b.nodeKey == a.nodeKey && b.number == a.number && b.status == a.status
      && b.finishedAt == a.finishedAt && b.lease == a.lease
    && b.output.Keys == a.output.Keys + output.Keys
    && (forall k :: k in b.output ==> b.output[k] == if k in output then output[k] else a.output[k])
    && (if Truthy(error) then b.error == error else b.error == a.error)
  }

  /** Place `i` is that of the attempt a report goes to: of the first attempt with the named id, if it is running; of
      the latest, if none is named and it is running. */
  predicate ReportPlace(n: Node, executionId: Option<string>, i: nat) {
    && i < |n.attempts| && n.attempts[i].status == AttemptRunning
    && (if executionId.Some? then
          n.attempts[i].id == executionId.value && forall j :: 0 <= j < i ==> n.attempts[j].id != executionId.value
        else i == |n.attempts| - 1)
  }

  lemma ReportPlaceIs(n: Node, executionId: Option<string>)
    ensures match RunningAttempt(n, executionId)
      case Some(i) => ReportPlace(n, executionId, i)
      case None => forall i: nat :: !ReportPlace(n, executionId, i)
  {
  }

  /** A report always finds an attempt to go to: the first with the named id, if it is running; the latest, if none is
      named and it is running; otherwise a new one. No other attempt changes, and the node stays in its status. */
  lemma {:induction false} ConsumingExact(s: Session, p: nat, executionId: Option<string>, output: Output,
                                          error: Option<string>, newId: string)
    requires UniqueKeys(s.nodes) && p < |s.nodes|
    ensures var n := s.nodes[p];
      var r := ConsumeReport(s, n.key, executionId, output, error, newId);
      && r.Ok? && OnlyNode(s, r.value, p) && r.value.nodes[p].status == n.status && r.value.nodes[p].gates == n.gates
      && var m := r.value.nodes[p];
         && (forall i: nat :: ReportPlace(n, executionId, i) ==>
              && |m.attempts| == |n.attempts| && Merged(n.attempts[i], m.attempts[i], output, error)
              && forall j :: 0 <= j < |n.attempts| && j != i ==> m.attempts[j] == n.attempts[j])
         && ((forall i: nat :: !ReportPlace(n, executionId, i)) ==>
              && |m.attempts| == |n.attempts| + 1
              && Merged(FreshAttempt(n, newId), m.attempts[|n.attempts|], output, error)
              && forall j :: 0 <= j < |n.attempts| ==> m.attempts[j] == n.attempts[j])
  {
    ConsumedExactly(s, p, executionId, output, error, newId);
    ReportPlaceIs(s.nodes[p], executionId);
    hide ConsumeReport, Merged, RunningAttempt, OnlyNode;
  }

  lemma {:induction false} ConsumedExactly(s: Session, p: nat, executionId: Option<string>, output: Output,
                                           error: Option<string>, newId: string)
    requires UniqueKeys(s.nodes) && p < |s.nodes|
    ensures var n := s.nodes[p];
      var r := ConsumeReport(s, n.key, executionId, output, error, newId);
      && r.Ok? && OnlyNode(s, r.value, p) && r.value.nodes[p].status == n.status && r.value.nodes[p].gates == n.gates
      && var i := RunningAttempt(n, executionId);
         var m := r.value.nodes[p];
         if i.Some? then
           && |m.attempts| == |n.attempts| && Merged(n.attempts[i.value], m.attempts[i.value], output, error)
           && forall j :: 0 <= j < |n.attempts| && j != i.value ==> m.attempts[j] == n.attempts[j]
         else
           && |m.attempts| == |n.attempts| + 1
           && Merged(FreshAttempt(n, newId), m.attempts[|n.attempts|], output, error)
           && forall j :: 0 <= j < |n.attempts| ==> m.attempts[j] == n.attempts[j]
  {
    FindUnique(s.nodes, p);
    hide Find, RunningAttempt;
  }

  /** A decision is accepted exactly when the status it stands for is a move of the gate's node, the first node that
      holds a gate with this id; it is written to that gate, and the node moves. */
  lemma {:induction false} DecidingExact(s: Session, gateId: string, action: DecisionAction)
    ensures var p := NodeOfGate(s.nodes, gateId); var r := DecideGate(s, gateId, action);
      if p.None? then r == Err(GateNotFound)
      else if DecisionTarget(action) !in NodeMoves(s.nodes[p.value].status) then r == Err(InvalidTransition)
      else
        var n := s.nodes[p.value]; var i := GateIndex(n.gates, gateId).value;
        && r.Ok? && OnlyNode(s, r.value, p.value)
        && r.value.nodes[p.value].status == DecisionTarget(action) && r.value.nodes[p.value].attempts == n.attempts
        && |r.value.nodes[p.value].gates| == |n.gates| && r.value.nodes[p.value].gates[i].decision == Some(action)
        && forall j :: 0 <= j < |n.gates| && j != i ==> r.value.nodes[p.value].gates[j] == n.gates[j]
  {
    hide NodeOfGate, GateIndex, NodeMoves;
  }

  /** An execution can be leased exactly while it is running and its lease is not live, for its own node and by a proper
      request; the lease is then live until its time is up, and no other attempt changes. */
  lemma {:induction false} GrantingExact(s: Session, key: string, id: string, req: Request, now: int)
    ensures var p := NodeOfAttempt(s.nodes, id); var r := GrantLease(s, key, id, req, now);
      if p.None? then r == Err(LeaseError)
      else
        var i := AttemptIndex(s.nodes[p.value].attempts, id).value;
        var a := s.nodes[p.value].attempts[i];
        if a.nodeKey == key && a.status == AttemptRunning && !IsLive(a.lease, now) && Proper(req) then
          && r.Ok? && OnlyNode(s, r.value, p.value) && |r.value.nodes[p.value].attempts| == |s.nodes[p.value].attempts|
          && var b := r.value.nodes[p.value].attempts[i];
             && b == a.(lease := b.lease) && b.lease.token == Some(req.Token())
             && (forall at :: IsLive(b.lease, at) <==> at < now + req.ttl)
             && forall j :: 0 <= j < |s.nodes[p.value].attempts| && j != i ==>
                  r.value.nodes[p.value].attempts[j] == s.nodes[p.value].attempts[j]
        else r == Err(LeaseError)
  {
    hide NodeOfAttempt, AttemptIndex, Text.Strip;
    Text.StripEmpty();
  }

  /** The latest attempt of a running node still runs, under a lease whose time is up. */
  predicate Overdue(n: Node, now: int) {
    n.status == NodeRunning && n.attempts != [] && Latest(n).status == AttemptRunning
    && Latest(n).lease != NO_LEASE && !InForce(Latest(n).lease, now)
  }

  /** Recovery aborts precisely the running executions whose lease time is up, with that reason, and queues their nodes;
      every other node, and the session, stays as it is. */
  lemma RecoveringExact(s: Session, now: int)
    requires Sound(s)
    ensures var t := RecoverExpired(s, now);
      && t.status == s.status && |t.nodes| == |s.nodes|
      && forall p :: 0 <= p < |s.nodes| ==>
           var n, m := s.nodes[p], t.nodes[p];
           if Overdue(n, now) then
             && m.key == n.key && m.status == NodeQueued
             && LatestEnded(n, m, Aborted, None, Some("execution lease expired"), now)
           else m == n
  {
    forall p | 0 <= p < |s.nodes| && s.nodes[p].attempts != [] ensures WellFormed(Latest(s.nodes[p]).lease) {
      assert SoundNode(s.nodes[p]);
    }
    hide Sound, WellFormed, LatestEnded;
    forall p | 0 <= p < |s.nodes| {
      RecoveredExact(s.nodes[p], now);
    }
  }

  lemma RecoveredExact(n: Node, now: int)
    requires n.attempts != [] ==> WellFormed(Latest(n).lease)
    ensures var m := RecoveredNode(n, now);
      if Overdue(n, now) then
        && m.key == n.key && m.status == NodeQueued
        && LatestEnded(n, m, Aborted, None, Some("execution lease expired"), now)
      else m == n
  {
    if n.attempts != [] { ExpiryExact(Latest(n).lease, true, now); }
    hide WellFormed, Text.Strip;
  }

  /** Only the lease of the attempt the id stands for is different, and it is this one. */
  predicate OnlyLease(s: Session, r: Result<Session>, p: nat, i: nat, l: Lease)
    requires p < |s.nodes| && i < |s.nodes[p].attempts|
  {
    r == Ok(s.(nodes := s.nodes[p := s.nodes[p].(attempts :=
      s.nodes[p].attempts[i := s.nodes[p].attempts[i].(lease := l)])]))
  }

  /** A heartbeat is accepted exactly while the execution runs and its lease is in force, from its holder, for a
      positive time; it moves the expiry. A release is accepted from the holder while the execution runs, the lease
      expired or not, and clears it. Nothing else changes, and an unknown execution is refused. */
  lemma {:induction false} HoldingExact(s: Session, id: string, token: string, ttl: int, now: int)
    ensures var found := NodeOfAttempt(s.nodes, id);
      var beat, freed := HeartbeatLease(s, id, token, ttl, now), ReleaseLease(s, id, token, now);
      if found.None? then beat == Err(LeaseError) && freed == Err(LeaseError)
      else
        var p := found.value;
        var i := AttemptIndex(s.nodes[p].attempts, id).value;
        var a := s.nodes[p].attempts[i];
        && (if a.status == AttemptRunning && InForce(a.lease, now) && Matches(a.lease, token) && ttl > 0 then
              OnlyLease(s, beat, p, i, Lease(a.lease.token, a.lease.owner, Some(now), Some(now + ttl)))
            else beat == Err(LeaseError))
        && (if a.status == AttemptRunning && Matches(a.lease, token) then
              OnlyLease(s, freed, p, i, Lease(None, None, None, None))
            else freed == Err(LeaseError))
  {
    var found := NodeOfAttempt(s.nodes, id);
    if found.Some? {
      var a := s.nodes[found.value].attempts[AttemptIndex(s.nodes[found.value].attempts, id).value];
      HeartbeatExact(a.lease, a.status == AttemptRunning, token, ttl, now);
      ReleaseExact(a.lease, a.status == AttemptRunning, token, now);
    }
    hide NodeOfAttempt, AttemptIndex, Heartbeat, Release, InForce, Matches;
  }
}
