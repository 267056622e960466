/** What every sequence of session-service calls keeps, whatever their arguments and whether or not they succeed. */
module SessionRuns {
  import opened Outcomes
  import opened Ordering
  import opened States
  import opened Leases
  import opened Sessions
  import opened Graphs
  import opened Revisions
  import Text

  datatype Op =
    | MoveSessionOp(to: SessionStatus)
    | AddNodesOp(keys: seq<string>)
    | ReviseOp(rev: Revision)
    | MoveNodeOp(key: string, target: NodeStatus)
    | CompleteNodeOp(key: string, result: Option<Output>)
    | FailNodeOp(key: string, reason: string)
    | RequeueNodeOp(key: string, reason: string)
    | StartAttemptOp(key: string, id: string)
    | RecoverOp
    | GrantLeaseOp(key: string, id: string, req: Request)
    | HeartbeatLeaseOp(id: string, token: string, ttl: int)
    | ReleaseLeaseOp(id: string, token: string)
    | RecordGateOp(key: string, gate: Gate)
    | DecideGateOp(gateId: string, action: DecisionAction)
    | ConsumeReportOp(key: string, executionId: Option<string>, output: Output, error: Option<string>, newId: string)

  datatype Call = Call(now: int, op: Op)

  ghost function Apply(s: Session, c: Call): Result<Session> {
    match c.op
    case MoveSessionOp(to) => MoveSession(s, to)
    case AddNodesOp(keys) => AddNodes(s, keys)
    case ReviseOp(rev) => Revised(s, rev)
    case MoveNodeOp(key, target) => MoveNode(s, key, target)
    case CompleteNodeOp(key, result) => CompleteNode(s, key, result, c.now)
    case FailNodeOp(key, reason) => FailNode(s, key, reason, c.now)
    case RequeueNodeOp(key, reason) => RequeueNode(s, key, reason, c.now)
    case StartAttemptOp(key, id) => StartAttempt(s, key, id)
    case RecoverOp => Ok(RecoverExpired(s, c.now))
    case GrantLeaseOp(key, id, req) => GrantLease(s, key, id, req, c.now)
    case HeartbeatLeaseOp(id, token, ttl) => HeartbeatLease(s, id, token, ttl, c.now)
    case ReleaseLeaseOp(id, token) => ReleaseLease(s, id, token, c.now)
    case RecordGateOp(key, gate) => RecordGate(s, key, gate)
    case DecideGateOp(gateId, action) => DecideGate(s, gateId, action)
    case ConsumeReportOp(key, executionId, output, error, newId) =>
      ConsumeReport(s, key, executionId, output, error, newId)
  }

  /** The stored session after a call; a call that raises stores nothing. */
  ghost function After(s: Session, c: Call): Session {
    var r := Apply(s, c);
    if r.Ok? then r.value else s
  }

  ghost function StateAt(s: Session, calls: seq<Call>, k: nat): Session
    requires k <= |calls|
  {
    if k == 0 then s else After(StateAt(s, calls, k - 1), calls[k - 1])
  }

  // ---- what holds of every session -----------------------------------------------------

  predicate SoundAttempt(a: Attempt, key: string, number: nat) {
    && a.nodeKey == key
    && a.number == number
    && (a.finishedAt.Some? <==> a.status != AttemptRunning)
    && WellFormed(a.lease)
    && (a.lease != NO_LEASE ==> a.status == AttemptRunning)
  }

  /** Attempts are numbered from 1 in the order they were made; only a running one holds a lease. */
  predicate SoundNode(n: Node) {
    forall i :: 0 <= i < |n.attempts| ==> SoundAttempt(n.attempts[i], n.key, i + 1)
  }

  ghost predicate Sound(s: Session) {
    UniqueKeys(s.nodes) && forall p :: 0 <= p < |s.nodes| ==> SoundNode(s.nodes[p])
  }

  // ---- how a session may change ---------------------------------------------------------

  /** The status of an attempt follows its table, and a finished attempt is never touched again. */
  predicate AttemptEvolves(a: Attempt, b: Attempt) {
    && b.id == a.id && b.nodeKey == a.nodeKey && b.number == a.number
    && (b.status == a.status || b.status in AttemptMoves(a.status))
    && (a.status != AttemptRunning ==> b == a)
  }

  predicate GateEvolves(g: Gate, h: Gate) {
    h.id == g.id && h.name == g.name && h.outcome == g.outcome
  }

  /** Attempts and gates only accumulate, and a failed node stays failed. */
  ghost predicate NodeEvolves(n: Node, m: Node) {
    && m.key == n.key
    && (n.status == NodeFailed ==> m.status == NodeFailed)
    && |n.attempts| <= |m.attempts| && (forall i :: 0 <= i < |n.attempts| ==>
      AttemptEvolves(n.attempts[i], m.attempts[i]))
    && |n.gates| <= |m.gates| && (forall i :: 0 <= i < |n.gates| ==> GateEvolves(n.gates[i], m.gates[i]))
  }

  /** Nodes are never removed; an ended session keeps its status, and a started one never goes back to the queue. */
  ghost predicate Evolves(s: Session, t: Session) {
    && |s.nodes| <= |t.nodes| && (forall p :: 0 <= p < |s.nodes| ==> NodeEvolves(s.nodes[p], t.nodes[p]))
    && (IsTerminal(s.status) ==> t.status == s.status)
    && (s.status != SessionQueued ==> t.status != SessionQueued)
  }

  lemma EvolvesTwice(s: Session, t: Session, u: Session)
    requires Evolves(s, t) && Evolves(t, u)
    ensures Evolves(s, u)
  {
  }

  lemma StandsStill(s: Session)
    ensures Evolves(s, s)
  {
  }

  // ---- one node -------------------------------------------------------------------------

  ghost predicate Keeps(n: Node, m: Node) {
    SoundNode(n) ==> SoundNode(m) && NodeEvolves(n, m)
  }

  lemma MovedKeeps(n: Node, to: NodeStatus)
    ensures Moved(n, to).Ok? ==> Keeps(n, Moved(n, to).value)
  {
  }

  lemma EndLatestKeeps(n: Node, to: AttemptStatus, output: Option<Output>, error: Option<string>, now: int)
    requires to != AttemptRunning
    ensures Keeps(n, EndLatest(n, to, output, error, now)) && EndLatest(n, to, output, error, now).status == n.status
  {
    hide WellFormed;
    assert WellFormed(NO_LEASE) by { NoLeaseWellFormed(); }
  }

  lemma NoLeaseWellFormed()
    ensures WellFormed(NO_LEASE)
  {
  }

  lemma KeepsTwice(n: Node, m: Node, l: Node)
    requires Keeps(n, m) && Keeps(m, l)
    ensures Keeps(n, l)
  {
  }

  lemma CompletedKeeps(n: Node, output: Option<Output>, now: int)
    ensures Completed(n, output, now).Ok? ==> Keeps(n, Completed(n, output, now).value)
  {
    hide Keeps, EndLatest;
    if Moved(n, NodeCompleted).Ok? {
      var m := Moved(n, NodeCompleted).value;
      MovedKeeps(n, NodeCompleted);
      EndLatestKeeps(m, Succeeded, output, None, now);
      KeepsTwice(n, m, EndLatest(m, Succeeded, output, None, now));
    }
  }

  lemma FailedKeeps(n: Node, error: string, now: int)
    ensures Failed(n, error, now).Ok? ==> Keeps(n, Failed(n, error, now).value)
  {
    hide Keeps, EndLatest;
    if Moved(n, NodeFailed).Ok? {
      var m := Moved(n, NodeFailed).value;
      MovedKeeps(n, NodeFailed);
      EndLatestKeeps(m, AttemptFailed, None, Some(error), now);
      KeepsTwice(n, m, EndLatest(m, AttemptFailed, None, Some(error), now));
    }
  }

  lemma RequeuedKeeps(n: Node, reason: string, now: int)
    ensures Requeued(n, reason, now).Ok? ==> Keeps(n, Requeued(n, reason, now).value)
  {
    hide Keeps, EndLatest, Moved;
    if Requeued(n, reason, now).Ok? {
      var aborted := EndLatest(n, Aborted, None, Some(reason), now);
      EndLatestKeeps(n, Aborted, None, Some(reason), now);
      MovedKeeps(aborted, NeedsRevision);
      var released := if aborted.status == PendingGate then Moved(aborted, NeedsRevision).value else aborted;
      MovedKeeps(released, NodeQueued);
      if aborted.status == PendingGate { KeepsTwice(n, aborted, released); }
      if released.status != NodeQueued { KeepsTwice(n, released, Moved(released, NodeQueued).value); }
    }
  }

  lemma RecoveredKeeps(n: Node, now: int)
    ensures Keeps(n, RecoveredNode(n, now))
  {
    hide EndLatest, SoundNode, HasMetadata, IsLive;
    EndLatestKeeps(n, Aborted, None, Some(LEASE_EXPIRED), now);
    var ended := EndLatest(n, Aborted, None, Some(LEASE_EXPIRED), now);
    assert ended.(status := NodeQueued).attempts == ended.attempts;
    if SoundNode(n) { SoundIgnoresStatus(ended, NodeQueued); }
  }

  lemma SoundIgnoresStatus(n: Node, status: NodeStatus)
    requires SoundNode(n)
    ensures SoundNode(n.(status := status))
  {
  }

  lemma AttemptedKeeps(n: Node, id: string)
    ensures Keeps(n, Attempted(n, id))
  {
  }

  lemma ConsumedKeeps(n: Node, executionId: Option<string>, output: Output, error: Option<string>, newId: string)
    ensures Keeps(n, Consumed(n, executionId, output, error, newId))
  {
    hide WellFormed, RunningAttempt;
    NoLeaseWellFormed();
  }

  lemma {:induction false} DecidedKeeps(n: Node, gateId: string, action: DecisionAction)
    requires GateIndex(n.gates, gateId).Some?
    ensures Decided(n, gateId, action).Ok? ==> Keeps(n, Decided(n, gateId, action).value)
  {
  }

  lemma RevisedKeeps(n: Node, rev: Revision)
    requires !Blocks(n, rev)
    ensures Keeps(n, RevisedNode(n, rev))
  {
    hide Added, Removed, Requeue;
  }

  // ---- one session ----------------------------------------------------------------------

  lemma SetNodeKeeps(s: Session, p: nat, n: Node)
    requires Sound(s) && p < |s.nodes| && Keeps(s.nodes[p], n)
    ensures Sound(s.(nodes := s.nodes[p := n])) && Evolves(s, s.(nodes := s.nodes[p := n]))
  {
  }

  lemma OnNodeKeeps(s: Session, key: string, change: Node -> Result<Node>)
    requires Sound(s)
    requires forall n :: change(n).Ok? ==> Keeps(n, change(n).value)
    ensures var r := OnNode(s, key, change); r.Ok? ==> Sound(r.value) && Evolves(s, r.value)
  {
    hide Keeps, Sound, Evolves, Find;
    var p := Find(s.nodes, key);
    if p.Some? && change(s.nodes[p.value]).Ok? {
      SetNodeKeeps(s, p.value, change(s.nodes[p.value]).value);
    }
  }

  lemma LeaseKeeps(n: Node, i: nat, l: Lease)
    requires i < |n.attempts| && n.attempts[i].status == AttemptRunning && WellFormed(l)
    ensures Keeps(n, n.(attempts := n.attempts[i := n.attempts[i].(lease := l)]))
  {
    hide WellFormed;
  }

  lemma OnLeaseKeeps(s: Session, id: string, change: Attempt -> Result<Lease>)
    requires Sound(s)
    requires forall a: Attempt :: WellFormed(a.lease) && change(a).Ok? ==>
      a.status == AttemptRunning && WellFormed(change(a).value)
    ensures var r := OnLease(s, id, change); r.Ok? ==> Sound(r.value) && Evolves(s, r.value)
  {
    hide Keeps, Evolves, NodeOfAttempt, AttemptIndex, WellFormed;
    var p := NodeOfAttempt(s.nodes, id);
    if p.Some? {
      var n := s.nodes[p.value];
      var i := AttemptIndex(n.attempts, id).value;
      assert SoundAttempt(n.attempts[i], n.key, i + 1);
      if change(n.attempts[i]).Ok? {
        LeaseKeeps(n, i, change(n.attempts[i]).value);
        SetNodeKeeps(s, p.value, n.(attempts := n.attempts[i := n.attempts[i].(lease := change(n.attempts[i]).value)]));
      }
    }
  }

  lemma MapNodesKeeps(s: Session, nodes: seq<Node>)
    requires Sound(s) && |nodes| == |s.nodes| && forall p :: 0 <= p < |nodes| ==> Keeps(s.nodes[p], nodes[p])
    ensures Sound(s.(nodes := nodes)) && Evolves(s, s.(nodes := nodes))
  {
  }

  lemma UnleasedKeeps(n: Node)
    ensures Keeps(n, Unleased(n))
  {
  }

  lemma MoveSessionKeeps(s: Session, to: SessionStatus)
    requires Sound(s)
    ensures var r := MoveSession(s, to); r.Ok? ==> Sound(r.value) && Evolves(s, r.value)
  {
    hide Keeps, Unleased;
    if MoveSession(s, to).Ok? {
      forall p | 0 <= p < |s.nodes| { UnleasedKeeps(s.nodes[p]); }
      if IsTerminal(to) {
        MapNodesKeeps(s, MoveSession(s, to).value.nodes);
      } else {
        StandsStill(s);
      }
    }
  }

  lemma {:induction false} AppendNewKeeps(s: Session, keys: seq<string>)
    requires Sound(s)
    ensures Sound(s.(nodes := AppendNew(s.nodes, keys))) && Evolves(s, s.(nodes := AppendNew(s.nodes, keys)))
  {
    hide AppendNew, SoundAttempt;
    AppendNewUnique(s.nodes, keys);
    var nodes := AppendNew(s.nodes, keys);
    StandsStill(s);
    forall p | 0 <= p < |nodes| ensures SoundNode(nodes[p]) && (p < |s.nodes| ==> nodes[p] == s.nodes[p]) {
      if p < |s.nodes| { assert nodes[..|s.nodes|][p] == s.nodes[p]; }
    }
  }

  lemma RevisionKeeps(s: Session, rev: Revision)
    requires Sound(s)
    ensures var r := Revised(s, rev); r.Ok? ==> Sound(r.value) && Evolves(s, r.value)
  {
    hide Sound, Evolves, Blocks, RevisedNode, AppendNew, ValidRevision, Keeps;
    if Revised(s, rev).Ok? {
      AppendNewKeeps(s, Sorted(Added(rev)));
      var grown := s.(nodes := WithAdded(s, rev));
      forall p | 0 <= p < |grown.nodes| ensures Keeps(grown.nodes[p], RevisedNode(grown.nodes[p], rev)) {
        WithAddedTail(s, rev, p);
        FreshNotBlocked(grown.nodes[p].key, rev);
        RevisedKeeps(grown.nodes[p], rev);
      }
      MapNodesKeeps(grown, Revised(s, rev).value.nodes);
      EvolvesTwice(s, grown, Revised(s, rev).value);
    }
  }

  lemma FreshNotBlocked(key: string, rev: Revision)
    ensures !Blocks(FreshNode(key), rev)
  {
  }

  lemma LeaseChangesKeep(key: string, req: Request, token: string, ttl: int, now: int, a: Attempt)
    requires WellFormed(a.lease)
    ensures var running := a.status == AttemptRunning;
      && (Grant(a.lease, running, req, now).Ok? ==> running && WellFormed(Grant(a.lease, running, req, now).value))
      && (Heartbeat(a.lease, running, token, ttl, now).Ok? ==>
        running && WellFormed(Heartbeat(a.lease, running, token, ttl, now).value))
      && (Release(a.lease, running, token, now).Ok? ==>
        running && WellFormed(Release(a.lease, running, token, now).value))
  {
    hide Text.Strip;
  }

  /** Every call of the session service, with any arguments, keeps a session sound and only lets it evolve. */
  lemma CallKeeps(s: Session, c: Call)
    requires Sound(s)
    ensures Sound(After(s, c)) && Evolves(s, After(s, c))
  {
    hide Sound, Evolves, Keeps, OnNode, OnLease, Revised, MoveSession, Completed, Failed, Requeued, RecoveredNode,
         Moved, Consumed, Decided, Attempted, AppendNew;
    StandsStill(s);
    var now := c.now;
    match c.op
    case MoveSessionOp(to) => MoveSessionKeeps(s, to);
    case AddNodesOp(keys) => AppendNewKeeps(s, keys);
    case ReviseOp(rev) => RevisionKeeps(s, rev);
    case MoveNodeOp(key, target) =>
      forall n { MovedKeeps(n, target); }
      OnNodeKeeps(s, key, (n: Node) => Moved(n, target));
    case CompleteNodeOp(key, result) =>
      forall n { CompletedKeeps(n, result, now); }
      OnNodeKeeps(s, key, (n: Node) => Completed(n, result, now));
    case FailNodeOp(key, reason) =>
      forall n { FailedKeeps(n, reason, now); }
      OnNodeKeeps(s, key, (n: Node) => Failed(n, reason, now));
    case RequeueNodeOp(key, reason) =>
      forall n { RequeuedKeeps(n, reason, now); }
      OnNodeKeeps(s, key, (n: Node) => Requeued(n, reason, now));
    case StartAttemptOp(key, id) =>
      forall n { AttemptedKeeps(n, id); }
      OnNodeKeeps(s, key, (n: Node) => Ok(Attempted(n, id)));
    case RecoverOp =>
      forall p | 0 <= p < |s.nodes| { RecoveredKeeps(s.nodes[p], now); }
      MapNodesKeeps(s, RecoverExpired(s, now).nodes);
    case GrantLeaseOp(key, id, req) =>
      forall a: Attempt | WellFormed(a.lease) { LeaseChangesKeep(key, req, "", 0, now, a); }
      OnLeaseKeeps(s, id, (a: Attempt) => if a.nodeKey != key then Err(LeaseError)
        else Grant(a.lease, a.status == AttemptRunning, req, now));
    case HeartbeatLeaseOp(id, token, ttl) =>
      forall a: Attempt | WellFormed(a.lease) { LeaseChangesKeep("", Request("", 0, None, ""), token, ttl, now, a); }
      OnLeaseKeeps(s, id, (a: Attempt) => Heartbeat(a.lease, a.status == AttemptRunning, token, ttl, now));
    case ReleaseLeaseOp(id, token) =>
      forall a: Attempt | WellFormed(a.lease) { LeaseChangesKeep("", Request("", 0, None, ""), token, 0, now, a); }
      OnLeaseKeeps(s, id, (a: Attempt) => Release(a.lease, a.status == AttemptRunning, token, now));
    case RecordGateOp(key, gate) =>
      forall n { GatedKeeps(n, gate); }
      OnNodeKeeps(s, key, (n: Node) => Ok(Gated(n, gate)));
    case DecideGateOp(gateId, action) => DecisionKeeps(s, gateId, action);
    case ConsumeReportOp(key, executionId, output, error, newId) =>
      forall n { ConsumedKeeps(n, executionId, output, error, newId); }
      OnNodeKeeps(s, key, (n: Node) => Ok(Consumed(n, executionId, output, error, newId)));
  }

  lemma GatedKeeps(n: Node, gate: Gate)
    ensures Keeps(n, Gated(n, gate))
  {
  }

  lemma DecisionKeeps(s: Session, gateId: string, action: DecisionAction)
    requires Sound(s)
    ensures var r := DecideGate(s, gateId, action); r.Ok? ==> Sound(r.value) && Evolves(s, r.value)
  {
    hide Keeps, Sound, Evolves, NodeOfGate, Decided;
    var p := NodeOfGate(s.nodes, gateId);
    if p.Some? {
      DecidedKeeps(s.nodes[p.value], gateId, action);
      if Decided(s.nodes[p.value], gateId, action).Ok? {
        SetNodeKeeps(s, p.value, Decided(s.nodes[p.value], gateId, action).value);
      }
    }
  }

  /** From a new session on, over any run of calls: sound at every point, and between any two points only evolved. */
  lemma {:induction false} RunKeeps(s: Session, calls: seq<Call>, j: nat, k: nat)
    requires Sound(s) && j <= k <= |calls|
    ensures Sound(StateAt(s, calls, j)) && Sound(StateAt(s, calls, k))
    ensures Evolves(StateAt(s, calls, j), StateAt(s, calls, k))
    decreases k
  {
    hide Sound, Evolves, After;
    if j < k {
      RunKeeps(s, calls, j, k - 1);
      CallKeeps(StateAt(s, calls, k - 1), calls[k - 1]);
      EvolvesTwice(StateAt(s, calls, j), StateAt(s, calls, k - 1), StateAt(s, calls, k));
    } else {
      StandsStill(StateAt(s, calls, k));
      if k > 0 {
        RunKeeps(s, calls, k - 1, k - 1);
        CallKeeps(StateAt(s, calls, k - 1), calls[k - 1]);
      }
    }
  }

  lemma NewSessionSound(keys: seq<string>)
    ensures Sound(Create(keys))
  {
    AppendNewKeeps(Session(SessionQueued, []), keys);
  }
}
