/** Execution leases over runs of session-service calls: every call is one event of the lease protocol on every attempt.
    */
module ExecutionLeases {
  import opened Outcomes
  import opened States
  import opened Leases
  import opened Sessions
  import opened Graphs
  import opened Revisions
  import opened SessionRuns

  function SlotOf(a: Attempt): Slot { Slot(a.status == AttemptRunning, a.lease) }

  predicate HasAttempt(s: Session, p: nat, i: nat) {
    p < |s.nodes| && i < |s.nodes[p].attempts|
  }

  function AttemptAt(s: Session, p: nat, i: nat): Attempt
    requires HasAttempt(s, p, i)
  {
    s.nodes[p].attempts[i]
  }

  /** The attempt an id stands for is the one at node `p`, place `i`. */
  predicate Names(s: Session, id: string, p: nat, i: nat) {
    NodeOfAttempt(s.nodes, id) == Some(p) && p < |s.nodes| && AttemptIndex(s.nodes[p].attempts, id) == Some(i)
  }

  /** The latest attempt of the node, and it is running. */
  predicate IsLatestRunning(s: Session, p: nat, i: nat)
    requires HasAttempt(s, p, i)
  {
    i == |s.nodes[p].attempts| - 1 && LatestRunning(s.nodes[p])
  }

  /** What a call means for the lease of one attempt. */
  ghost function EventOf(s: Session, c: Call, p: nat, i: nat): Event
    requires HasAttempt(s, p, i)
  {
    match c.op
    case GrantLeaseOp(key, id, req) =>
      if Names(s, id, p, i) && AttemptAt(s, p, i).nodeKey == key then GrantAt(c.now, req) else Elsewhere(c.now)
    case HeartbeatLeaseOp(id, token, ttl) =>
      if Names(s, id, p, i) then HeartbeatAt(c.now, token, ttl) else Elsewhere(c.now)
    case ReleaseLeaseOp(id, token) =>
      if Names(s, id, p, i) then ReleaseAt(c.now, token, false) else Elsewhere(c.now)
    case RecoverOp =>
      if HasExpiredExecution(s.nodes[p], c.now) && IsLatestRunning(s, p, i) then RecoverAt(c.now, true)
        else Elsewhere(c.now)
    case MoveSessionOp(to) =>
      if to in SessionMoves(s.status) && IsTerminal(to) then CloseAt(c.now, false, true) else Elsewhere(c.now)
    case CompleteNodeOp(key, _) => EndEvent(s, c, key, p, i)
    case FailNodeOp(key, _) => EndEvent(s, c, key, p, i)
    case RequeueNodeOp(key, _) => EndEvent(s, c, key, p, i)
    case _ => Elsewhere(c.now)
  }

  ghost function EndEvent(s: Session, c: Call, key: string, p: nat, i: nat): Event
    requires HasAttempt(s, p, i)
  {
    if Apply(s, c).Ok? && Find(s.nodes, key) == Some(p) && IsLatestRunning(s, p, i) then CloseAt(c.now, true, true)
    else Elsewhere(c.now)
  }

  ghost predicate Steps(s: Session, t: Session, p: nat, i: nat, e: Event) {
    && HasAttempt(s, p, i) && HasAttempt(t, p, i)
    && Step(SlotOf(AttemptAt(s, p, i)), e).slot == SlotOf(AttemptAt(t, p, i))
  }

  lemma SameAttemptSteps(s: Session, t: Session, p: nat, i: nat, now: int)
    requires HasAttempt(s, p, i) && HasAttempt(t, p, i) && SlotOf(AttemptAt(t, p, i)) == SlotOf(AttemptAt(s, p, i))
    ensures Steps(s, t, p, i, Elsewhere(now))
  {
  }

  // ---- one call -----------------------------------------------------------------------

  /** A change of one node that leaves all its attempts' slots alone. */
  ghost predicate SlotsKept(n: Node, m: Node) {
    |n.attempts| <= |m.attempts| && forall i :: 0 <= i < |n.attempts| ==> SlotOf(m.attempts[i]) == SlotOf(n.attempts[i])
  }

  lemma QuietOnNode(s: Session, key: string, change: Node -> Result<Node>, p: nat, i: nat, now: int)
    requires HasAttempt(s, p, i) && forall n :: change(n).Ok? ==> SlotsKept(n, change(n).value)
    ensures var r := OnNode(s, key, change); Steps(s, if r.Ok? then r.value else s, p, i, Elsewhere(now))
  {
  }

  /** Ends the latest attempt, if running, whatever else it does to the node. */
  ghost predicate EndsLatest(n: Node, m: Node) {
    && |m.attempts| == |n.attempts|
    && (forall i :: 0 <= i < |n.attempts| && !(i == |n.attempts| - 1 && LatestRunning(n)) ==>
      m.attempts[i] == n.attempts[i])
    && (LatestRunning(n) ==> SlotOf(m.attempts[|n.attempts| - 1]) == Slot(false, NO_LEASE))
  }

  lemma EndingOnNode(s: Session, c: Call, key: string, change: Node -> Result<Node>, p: nat, i: nat)
    requires HasAttempt(s, p, i) && forall n :: change(n).Ok? ==> EndsLatest(n, change(n).value)
    requires Apply(s, c) == OnNode(s, key, change)
    ensures Steps(s, After(s, c), p, i, EndEvent(s, c, key, p, i))
  {
    hide Find, Apply;
    var r := OnNode(s, key, change);
    if r.Ok? && Find(s.nodes, key) == Some(p) {
      assert EndsLatest(s.nodes[p], r.value.nodes[p]);
    }
  }

  lemma EndingChanges(n: Node, output: Option<Output>, error: string, now: int)
    ensures Completed(n, output, now).Ok? ==> EndsLatest(n, Completed(n, output, now).value)
    ensures Failed(n, error, now).Ok? ==> EndsLatest(n, Failed(n, error, now).value)
    ensures Requeued(n, error, now).Ok? ==> EndsLatest(n, Requeued(n, error, now).value)
  {
    hide NodeMoves, DecisionTarget;
  }

  lemma QuietChanges(n: Node, to: NodeStatus, id: string, gate: Gate, executionId: Option<string>, output: Output,
                     error: Option<string>)
    ensures Moved(n, to).Ok? ==> SlotsKept(n, Moved(n, to).value)
    ensures SlotsKept(n, Attempted(n, id)) && SlotsKept(n, Gated(n, gate))
    ensures SlotsKept(n, Consumed(n, executionId, output, error, id))
  {
  }

  lemma LeaseCallSteps(s: Session, id: string, change: Attempt -> Result<Lease>, p: nat, i: nat, e: Event)
    requires HasAttempt(s, p, i)
    requires Names(s, id, p, i) ==> var a := AttemptAt(s, p, i);
      Step(SlotOf(a), e) == if change(a).Ok? then Outcome(SlotOf(a).(lease := change(a).value), true)
        else Outcome(SlotOf(a), false)
    requires !Names(s, id, p, i) ==> e.Elsewhere?
    ensures var r := OnLease(s, id, change);
      Steps(s, if r.Ok? then r.value else s, p, i, e) && (Names(s, id, p, i) ==>
        (r.Ok? <==> Step(SlotOf(AttemptAt(s, p, i)), e).accepted))
  {
  }

  lemma GrantSteps(s: Session, key: string, id: string, req: Request, now: int, p: nat, i: nat)
    requires HasAttempt(s, p, i)
    ensures var c := Call(now, GrantLeaseOp(key, id, req));
      && Steps(s, After(s, c), p, i, EventOf(s, c, p, i))
      && (EventOf(s, c, p, i).GrantAt? ==>
        (Apply(s, c).Ok? <==> Step(SlotOf(AttemptAt(s, p, i)), EventOf(s, c, p, i)).accepted))
  {
    hide Grant, NodeOfAttempt, AttemptIndex;
    var c := Call(now, GrantLeaseOp(key, id, req));
    var change := (a: Attempt) => if a.nodeKey != key then Err(LeaseError)
      else Grant(a.lease, a.status == AttemptRunning, req, now);
    LeaseCallSteps(s, id, change, p, i, EventOf(s, c, p, i));
  }

  lemma HeartbeatSteps(s: Session, id: string, token: string, ttl: int, now: int, p: nat, i: nat)
    requires HasAttempt(s, p, i)
    ensures var c := Call(now, HeartbeatLeaseOp(id, token, ttl));
      && Steps(s, After(s, c), p, i, EventOf(s, c, p, i))
      && (Names(s, id, p, i) ==> (Apply(s, c).Ok? <==> Step(SlotOf(AttemptAt(s, p, i)), EventOf(s, c, p, i)).accepted))
  {
    hide Heartbeat, NodeOfAttempt, AttemptIndex;
    var c := Call(now, HeartbeatLeaseOp(id, token, ttl));
    LeaseCallSteps(s, id, (a: Attempt) =>
      Heartbeat(a.lease, a.status == AttemptRunning, token, ttl, now), p, i, EventOf(s, c, p, i));
  }

  lemma ReleaseSteps(s: Session, id: string, token: string, now: int, p: nat, i: nat)
    requires HasAttempt(s, p, i)
    ensures var c := Call(now, ReleaseLeaseOp(id, token));
      && Steps(s, After(s, c), p, i, EventOf(s, c, p, i))
      && (Names(s, id, p, i) ==> (Apply(s, c).Ok? <==> Step(SlotOf(AttemptAt(s, p, i)), EventOf(s, c, p, i)).accepted))
  {
    hide MayUse, NodeOfAttempt, AttemptIndex;
    var c := Call(now, ReleaseLeaseOp(id, token));
    MayUseNeedsOpen(AttemptAt(s, p, i).lease, AttemptAt(s, p, i).status == AttemptRunning, token, now);
    LeaseCallSteps(s, id, (a: Attempt) =>
      Release(a.lease, a.status == AttemptRunning, token, now), p, i, EventOf(s, c, p, i));
  }

  lemma MayUseNeedsOpen(l: Lease, open: bool, token: string, now: int)
    ensures MayUse(l, open, token, now, true) ==> open
  {
  }

  lemma RecoverySteps(s: Session, now: int, p: nat, i: nat)
    requires HasAttempt(s, p, i)
    ensures Steps(s, RecoverExpired(s, now), p, i, EventOf(s, Call(now, RecoverOp), p, i))
  {
    hide HasMetadata, IsLive;
  }

  lemma SessionMoveSteps(s: Session, to: SessionStatus, now: int, p: nat, i: nat)
    requires HasAttempt(s, p, i)
    ensures var c := Call(now, MoveSessionOp(to)); Steps(s, After(s, c), p, i, EventOf(s, c, p, i))
  {
  }

  lemma {:induction false} GrowingSteps(s: Session, keys: seq<string>, now: int, p: nat, i: nat)
    requires HasAttempt(s, p, i)
    ensures Steps(s, s.(nodes := AppendNew(s.nodes, keys)), p, i, Elsewhere(now))
  {
  }

  lemma RevisionSteps(s: Session, rev: Revision, now: int, p: nat, i: nat)
    requires HasAttempt(s, p, i)
    ensures var c := Call(now, ReviseOp(rev)); Steps(s, After(s, c), p, i, Elsewhere(now))
  {
    hide Blocked, ValidRevision, WithAdded, Added, Removed, Requeue;
    var c := Call(now, ReviseOp(rev));
    if Revised(s, rev).Ok? { WithAddedTail(s, rev, p); }
    SameAttemptSteps(s, After(s, c), p, i, now);
  }

  lemma DecisionSteps(s: Session, gateId: string, action: DecisionAction, now: int, p: nat, i: nat)
    requires HasAttempt(s, p, i)
    ensures var r := DecideGate(s, gateId, action); Steps(s, if r.Ok? then r.value else s, p, i, Elsewhere(now))
  {
  }

  /** Every call is one lease event on every attempt. */
  lemma CallSteps(s: Session, c: Call, p: nat, i: nat)
    requires HasAttempt(s, p, i)
    ensures Steps(s, After(s, c), p, i, EventOf(s, c, p, i))
  {
    hide Steps, OnNode, OnLease, Revised, MoveSession, Completed, Failed, Requeued, DecideGate, Find, AppendNew,
         Names, EndEvent, EndsLatest, SlotsKept;
    var now := c.now;
    match c.op
    case MoveSessionOp(to) => SessionMoveSteps(s, to, now, p, i);
    case AddNodesOp(keys) =>
      GrowingSteps(s, keys, now, p, i);
      SameAttemptSteps(s, s, p, i, now);
    case ReviseOp(rev) => RevisionSteps(s, rev, now, p, i);
    case MoveNodeOp(key, target) =>
      forall n { QuietChanges(n, target, "", ANY_GATE, None, map[], None); }
      QuietChange(s, c, (n: Node) => Moved(n, target), key, p, i);
    case StartAttemptOp(key, id) =>
      forall n { QuietChanges(n, Stale, id, ANY_GATE, None, map[], None); }
      QuietChange(s, c, (n: Node) => Ok(Attempted(n, id)), key, p, i);
    case RecordGateOp(key, gate) =>
      forall n { QuietChanges(n, Stale, "", gate, None, map[], None); }
      QuietChange(s, c, (n: Node) => Ok(Gated(n, gate)), key, p, i);
    case ConsumeReportOp(key, executionId, output, error, newId) =>
      forall n { QuietChanges(n, Stale, newId, ANY_GATE, executionId, output, error); }
      QuietChange(s, c, (n: Node) => Ok(Consumed(n, executionId, output, error, newId)), key, p, i);
    case CompleteNodeOp(key, result) =>
      forall n { EndingChanges(n, result, "", now); }
      EndingOnNode(s, c, key, (n: Node) => Completed(n, result, now), p, i);
    case FailNodeOp(key, reason) =>
      forall n { EndingChanges(n, None, reason, now); }
      EndingOnNode(s, c, key, (n: Node) => Failed(n, reason, now), p, i);
    case RequeueNodeOp(key, reason) =>
      forall n { EndingChanges(n, None, reason, now); }
      EndingOnNode(s, c, key, (n: Node) => Requeued(n, reason, now), p, i);
    case RecoverOp => RecoverySteps(s, now, p, i);
    case GrantLeaseOp(key, id, req) => GrantSteps(s, key, id, req, now, p, i);
    case HeartbeatLeaseOp(id, token, ttl) => HeartbeatSteps(s, id, token, ttl, now, p, i);
    case ReleaseLeaseOp(id, token) => ReleaseSteps(s, id, token, now, p, i);
    case DecideGateOp(gateId, action) => DecisionSteps(s, gateId, action, now, p, i);
  }

  const ANY_GATE := Gate("", "", Pass, None)

  ghost predicate IsQuiet(op: Op) {
    op.MoveNodeOp? || op.StartAttemptOp? || op.RecordGateOp? || op.ConsumeReportOp?
  }

  lemma QuietChange(s: Session, c: Call, change: Node -> Result<Node>, key: string, p: nat, i: nat)
    requires HasAttempt(s, p, i) && IsQuiet(c.op) && Apply(s, c) == OnNode(s, key, change)
    requires forall n :: change(n).Ok? ==> SlotsKept(n, change(n).value)
    ensures Steps(s, After(s, c), p, i, EventOf(s, c, p, i))
  {
    hide Steps, OnNode, Apply, SlotsKept;
    QuietOnNode(s, key, change, p, i, c.now);
  }

  // ---- runs -------------------------------------------------------------------------------

  ghost function EventsOf(s: Session, calls: seq<Call>, p: nat, i: nat): (r: seq<Event>)
    requires HasAttempt(s, p, i)
    ensures |r| == |calls|
    ensures forall k :: 0 <= k < |calls| ==>
      HasAttempt(StateAt(s, calls, k), p, i) && r[k] == EventOf(StateAt(s, calls, k), calls[k], p, i)
  {
    AttemptsStay(s, calls, p, i);
    seq(|calls|, k requires 0 <= k < |calls| => if HasAttempt(StateAt(s, calls, k), p, i) then
      EventOf(StateAt(s, calls, k), calls[k], p, i) else Elsewhere(0))
  }

  lemma {:induction false} AttemptsStay(s: Session, calls: seq<Call>, p: nat, i: nat)
    requires HasAttempt(s, p, i)
    ensures forall k :: 0 <= k <= |calls| ==> HasAttempt(StateAt(s, calls, k), p, i)
  {
    hide HasAttempt, StateAt;
    forall k | 0 <= k <= |calls| ensures HasAttempt(StateAt(s, calls, k), p, i) {
      AttemptStays(s, calls, p, i, k);
    }
  }

  lemma {:induction false} AttemptStays(s: Session, calls: seq<Call>, p: nat, i: nat, k: nat)
    requires HasAttempt(s, p, i) && k <= |calls|
    ensures HasAttempt(StateAt(s, calls, k), p, i)
  {
    hide HasAttempt, After, Step, EventOf;
    if k > 0 {
      AttemptStays(s, calls, p, i, k - 1);
      CallSteps(StateAt(s, calls, k - 1), calls[k - 1], p, i);
    }
  }

  /** A run of calls is, for each attempt, a run of the lease protocol. */
  lemma {:induction false} RunIsLeaseRun(s: Session, calls: seq<Call>, p: nat, i: nat, k: nat)
    requires HasAttempt(s, p, i) && k <= |calls|
    ensures HasAttempt(StateAt(s, calls, k), p, i)
    ensures SlotOf(AttemptAt(StateAt(s, calls, k), p, i)) == At(SlotOf(AttemptAt(s, p, i)), EventsOf(s, calls, p, i), k)
  {
    hide HasAttempt, After, Step, EventOf, EventsOf, SlotOf, AttemptAt, At, StateAt;
    if k > 0 {
      RunIsLeaseRun(s, calls, p, i, k - 1);
      AtLast(SlotOf(AttemptAt(s, p, i)), EventsOf(s, calls, p, i), k);
      StateAtLast(s, calls, k);
      CallSteps(StateAt(s, calls, k - 1), calls[k - 1], p, i);
    } else {
      AtStart(s, calls, SlotOf(AttemptAt(s, p, i)), EventsOf(s, calls, p, i));
    }
  }

  lemma {:induction false} AtStart(s: Session, calls: seq<Call>, slot: Slot, run: seq<Event>)
    ensures StateAt(s, calls, 0) == s && At(slot, run, 0) == slot
  {
  }

  lemma AtLast(slot: Slot, run: seq<Event>, k: nat)
    requires 0 < k <= |run|
    ensures At(slot, run, k) == Step(At(slot, run, k - 1), run[k - 1]).slot
  {
  }

  lemma StateAtLast(s: Session, calls: seq<Call>, k: nat)
    requires 0 < k <= |calls|
    ensures StateAt(s, calls, k) == After(StateAt(s, calls, k - 1), calls[k - 1])
  {
  }

  /** Call `k` grants the lease of the attempt at node `p`, place `i`, and succeeds. */
  ghost predicate Grants(s: Session, calls: seq<Call>, p: nat, i: nat, k: nat)
    requires HasAttempt(s, p, i) && k < |calls|
  {
    calls[k].op.GrantLeaseOp? && Names(StateAt(s, calls, k), calls[k].op.id, p, i)
      && Apply(StateAt(s, calls, k), calls[k]).Ok?
  }

  /** Call `k` presents `token` to extend or release the lease of the attempt. */
  ghost predicate ActsWith(s: Session, calls: seq<Call>, p: nat, i: nat, k: nat, token: string)
    requires HasAttempt(s, p, i) && k < |calls|
  {
    && (calls[k].op.HeartbeatLeaseOp? || calls[k].op.ReleaseLeaseOp?)
    && Names(StateAt(s, calls, k), calls[k].op.id, p, i)
    && Presents(EventsOf(s, calls, p, i)[k], token)
  }

  lemma GrantIsGranted(s: Session, calls: seq<Call>, p: nat, i: nat, k: nat)
    requires HasAttempt(s, p, i) && k < |calls| && Grants(s, calls, p, i, k)
    ensures Granted(SlotOf(AttemptAt(s, p, i)), EventsOf(s, calls, p, i), k)
    ensures EventsOf(s, calls, p, i)[k].req == calls[k].op.req
  {
    RunIsLeaseRun(s, calls, p, i, k);
    hide Step, StateAt, At, HasAttempt, SlotOf;
    var before, c := StateAt(s, calls, k), calls[k];
    GrantSteps(before, c.op.key, c.op.id, c.op.req, c.now, p, i);
    GrantedNode(before, c.op.key, c.op.id, c.op.req, c.now, p, i);
  }

  lemma GrantedNode(s: Session, key: string, id: string, req: Request, now: int, p: nat, i: nat)
    requires HasAttempt(s, p, i) && Names(s, id, p, i) && GrantLease(s, key, id, req, now).Ok?
    ensures AttemptAt(s, p, i).nodeKey == key
  {
  }

  lemma {:induction false} RefusedCall(s: Session, calls: seq<Call>, p: nat, i: nat, k: nat, token: string)
    requires HasAttempt(s, p, i) && k < |calls| && ActsWith(s, calls, p, i, k, token)
    requires !Accepted(SlotOf(AttemptAt(s, p, i)), EventsOf(s, calls, p, i), k)
    ensures Apply(StateAt(s, calls, k), calls[k]).Err?
  {
    RunIsLeaseRun(s, calls, p, i, k);
    hide Step, StateAt, At, HasAttempt, SlotOf, Apply, After;
    var before, c := StateAt(s, calls, k), calls[k];
    match c.op
    case HeartbeatLeaseOp(id, token', ttl) => HeartbeatSteps(before, id, token', ttl, c.now, p, i);
    case ReleaseLeaseOp(id, token') => ReleaseSteps(before, id, token', c.now, p, i);
  }

  /** At call `k` the holder of `token` gives the lease up. */
  ghost predicate LeaseGivenUp(s: Session, calls: seq<Call>, p: nat, i: nat, k: nat, token: string)
    requires HasAttempt(s, p, i) && k < |calls|
  {
    && HasAttempt(StateAt(s, calls, k), p, i)
    && GivesUp(SlotOf(AttemptAt(StateAt(s, calls, k), p, i)), EventsOf(s, calls, p, i)[k], token)
  }

  lemma FirstExecutionLeaseEnds(s: Session, calls: seq<Call>, p: nat, i: nat, a: nat, b: nat) returns (k: nat)
    requires HasAttempt(s, p, i) && WellFormed(AttemptAt(s, p, i).lease)
    requires a < b < |calls| && FreshTokens(SlotOf(AttemptAt(s, p, i)), EventsOf(s, calls, p, i))
    requires Grants(s, calls, p, i, a) && Grants(s, calls, p, i, b)
    ensures a < k <= b && LeaseGivenUp(s, calls, p, i, k, calls[a].op.req.Token())
  {
    hide Step, StateAt, At, HasAttempt, GivesUp, Granted, WellFormed, FreshTokens, Apply, Names;
    GrantIsGranted(s, calls, p, i, a);
    GrantIsGranted(s, calls, p, i, b);
    k := FirstLeaseEnds(SlotOf(AttemptAt(s, p, i)), EventsOf(s, calls, p, i), a, b);
    RunIsLeaseRun(s, calls, p, i, k);
  }

  /** Two workers never own one execution at a time. When an attempt is leased twice over a run, the first lease has
      been given up in between (released by its holder, past its last expiry, recovered, or taken away by the end of the
      attempt or of the session), and from the second grant on whoever presents the first token is refused. */
  lemma {:induction false} ExecutionLeaseExclusive(s: Session, calls: seq<Call>, p: nat, i: nat, a: nat, b: nat)
    requires HasAttempt(s, p, i) && WellFormed(AttemptAt(s, p, i).lease)
    requires a < b < |calls| && FreshTokens(SlotOf(AttemptAt(s, p, i)), EventsOf(s, calls, p, i))
    requires Grants(s, calls, p, i, a) && Grants(s, calls, p, i, b)
    ensures exists k :: a < k <= b && LeaseGivenUp(s, calls, p, i, k, calls[a].op.req.Token())
    ensures forall m :: b < m < |calls| && ActsWith(s, calls, p, i, m, calls[a].op.req.Token()) ==>
      Apply(StateAt(s, calls, m), calls[m]).Err?
  {
    hide Step, StateAt, At, HasAttempt, GivesUp, Granted, WellFormed, FreshTokens, Apply, Names, Presents;
    var k := FirstExecutionLeaseEnds(s, calls, p, i, a, b);
    GrantIsGranted(s, calls, p, i, a);
    GrantIsGranted(s, calls, p, i, b);
    forall m | b < m < |calls| && ActsWith(s, calls, p, i, m, calls[a].op.req.Token())
      ensures Apply(StateAt(s, calls, m), calls[m]).Err?
    {
      FirstTokenLockedOut(SlotOf(AttemptAt(s, p, i)), EventsOf(s, calls, p, i), a, b, m);
      RefusedCall(s, calls, p, i, m, calls[a].op.req.Token());
    }
  }
}
