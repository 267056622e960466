/** The composite steps of the control plane, each a chain of session-service operations, and where such a chain leads
    from a session the orchestrator left behind. */
module ControlSteps {
  import opened Outcomes
  import opened States
  import opened Leases
  import opened Sessions
  import opened SessionRuns
  import opened SessionServices
  import opened ExecutionLeases
  import Text

  datatype Report = Report(key: string, executionId: Option<string>, token: Option<string>, output: Output,
    error: Option<string>)

  /** What the control plane is asked to do with a node. */
  datatype Intent = Complete(output: Output) | Pause(gate: Gate) | Fail(error: string) | Requeue(reason: string)

  // ---- the chains -------------------------------------------------------------------

  /** How far a chain of service calls has come: what is stored by now, and the error it stopped with. Every call stores
      the session anew, so what the calls before an error did stays. */
  datatype Trail = Trail(stored: Session, error: Option<Error>) {
    function Then(next: Session -> Result<Session>): Trail {
      if error.Some? then this
      else
        var r := next(stored);
        if r.Ok? then Trail(r.value, None) else Trail(stored, Some(r.error))
    }

    function Follow(next: Session -> Trail): Trail {
      if error.Some? then this else next(stored)
    }

    function Outcome(): Result<Session> {
      if error.Some? then Err(error.value) else Ok(stored)
    }
  }

  function From(s: Session): Trail { Trail(s, None) }

  function ResumeIfWaiting(s: Session): Result<Session> {
    if s.status == WaitingGate then MoveSession(s, Resuming) else Ok(s)
  }

  function EnsureRunning(s: Session): Result<Session> {
    if s.status == Resuming then MoveSession(s, SessionRunning) else Ok(s)
  }

  function ReleaseReported(s: Session, report: Option<Report>, now: int): Result<Session> {
    if report.Some? && report.value.executionId.Some? && report.value.token.Some? then
      ReleaseLease(s, report.value.executionId.value, report.value.token.value, now)
    else Ok(s)
  }

  function FailUnlessFailed(s: Session, key: string, error: string, now: int): Result<Session> {
    var p := Find(s.nodes, key);
    if p.None? then Err(NodeNotFound)
    else if s.nodes[p.value].status != NodeFailed then FailNode(s, key, error, now)
    else Ok(s)
  }

  /** The node waits; the session does not yet. */
  function PausedTrail(s: Session, key: string, gate: Gate, report: Option<Report>, now: int): Trail {
    From(s)
      .Then(x => RecordGate(x, key, gate))
      .Then(x => ReleaseReported(x, report, now))
      .Then(x => MoveNode(x, key, PendingGate))
  }

  const FAIL_TEXT := "control-plane fail intent"

  const REQUEUE_TEXT := "control-plane requeue intent"

  /** `text or default`. */
  function OrElse(text: string, default: string): string { if text != "" then text else default }

  /** `apply_node_intent`. */
  function IntentTrail(s: Session, key: string, intent: Intent, report: Option<Report>, now: int): Trail {
    match intent
    case Pause(gate) =>
      PausedTrail(s, key, gate, report, now).Then(x => MoveSession(x, WaitingGate))
    case Fail(error) =>
      From(s).Then(x => FailUnlessFailed(x, key, OrElse(error, FAIL_TEXT), now))
        .Then(x => MoveSession(x, SessionFailed))
    case Requeue(reason) =>
      From(s).Then(x => ResumeIfWaiting(x)).Then(x => RequeueNode(x, key, OrElse(reason, REQUEUE_TEXT), now))
        .Then(x => EnsureRunning(x))
    case Complete(output) =>
      From(s).Then(x => ResumeIfWaiting(x)).Then(x => CompleteNode(x, key, Some(output), now))
        .Then(x => EnsureRunning(x))
  }

  function ApplyIntent(s: Session, key: string, intent: Intent, report: Option<Report>, now: int): Result<Session> {
    IntentTrail(s, key, intent, report, now).Outcome()
  }

  /** A queued session is started, a running or resuming one is taken as it is. */
  function Accepting(s: Session): Result<Session> {
    if s.status in {SessionRunning, Resuming} then Ok(s)
    else if s.status == SessionQueued then MoveSession(s, SessionRunning)
    else Err(RuntimeError)
  }

  function StartIfQueued(s: Session, key: string): Result<Session> {
    var p := Find(s.nodes, key);
    if p.None? then Err(RuntimeError)
    else if s.nodes[p.value].status == NodeQueued then MoveNode(s, key, NodeRunning)
    else Ok(s)
  }

  /** `open_node_execution`. */
  function ExecutionTrail(s: Session, key: string, id: string): Trail {
    From(s).Then(x => Accepting(x)).Then(x => StartIfQueued(x, key)).Then(x => StartAttempt(x, key, id))
  }

  function OpenExecution(s: Session, key: string, id: string): Result<Session> {
    ExecutionTrail(s, key, id).Outcome()
  }

  /** `_assert_report_execution_lease`. */
  function ReportLease(s: Session, report: Report, now: int): Result<()> {
    var p := Find(s.nodes, report.key);
    if p.None? || s.nodes[p.value].attempts == [] || !HasMetadata(Latest(s.nodes[p.value]).lease) then Ok(())
    else if report.executionId != Some(Latest(s.nodes[p.value]).id) || report.token.None? then Err(LeaseError)
    else LeaseAsserted(s, Latest(s.nodes[p.value]).id, report.token.value, now)
  }

  function EnsureAttempt(s: Session, key: string, newId: string): Result<Session> {
    var p := Find(s.nodes, key);
    if p.Some? && LatestRunning(s.nodes[p.value]) then Ok(s) else StartAttempt(s, key, newId)
  }

  /** The outcome of the gate decides over the intent of the apply deriver. */
  function DerivedIntent(gate: Option<Gate>, derived: Intent): Intent {
    if gate.Some? && gate.value.outcome == RequiresDecision then Pause(gate.value)
    else if gate.Some? && gate.value.outcome == Block then Fail("gate " + gate.value.name + " BLOCK")
    else derived
  }

  /** The report is checked against the lease of the execution; nothing is stored. */
  function Checked(s: Session, report: Report, now: int): Result<Session> {
    var _ :- ReportLease(s, report, now);
    Ok(s)
  }

  /** A report implies that its node is being worked on, but it has to come from the holder of the lease. */
  function StartedTrail(s: Session, report: Report, checkedAt: int): Trail {
    From(s).Then(x => Accepting(x)).Then(x => StartIfQueued(x, report.key)).Then(x => Checked(x, report, checkedAt))
  }

  /** `open_runtime_decision`: `gate` is what the gate function answers, `derived` what the apply deriver does. */
  function ReportTrail(s: Session, report: Report, gate: Option<Gate>, derived: Intent, newId: string, otherId: string,
                       checkedAt: int, now: int): Trail
  {
    var started := StartedTrail(s, report, checkedAt);
    if Truthy(report.error) then
      started.Follow(x => IntentTrail(x, report.key, Fail(report.error.value), Some(report), now))
    else
      started
        .Then(x => EnsureAttempt(x, report.key, newId))
        .Then(x => ConsumeReport(x, report.key, report.executionId, report.output, report.error, otherId))
        .Follow(x => IntentTrail(x, report.key, DerivedIntent(gate, derived), Some(report), now))
  }

  function ActionName(action: DecisionAction): string {
    match action
    case Approve => "approve"
    case Revise => "revise"
    case Replan => "replan"
    case Reject => "reject"
  }

  /** `_intent_from_gate_status`: an approval completes the node with an empty output. */
  function IntentAfterDecision(status: NodeStatus, gate: Gate, action: DecisionAction): Result<Intent> {
    match status
    case NeedsRevision => Ok(Requeue("gate " + gate.name + " requested " + ActionName(action)))
    case Approved => Ok(Complete(map[]))
    case NodeFailed => Ok(Fail("gate " + gate.name + " rejected"))
    case _ => Err(RuntimeError)
  }

  /** What follows once the decision is recorded. */
  function DecidedTrail(s: Session, gateId: string, action: DecisionAction, now: int): Trail {
    var p := NodeOfGate(s.nodes, gateId);
    if p.None? then Trail(s, Some(GateNotFound))
    else
      var n := s.nodes[p.value];
      var intent := IntentAfterDecision(n.status, n.gates[GateIndex(n.gates, gateId).value], action);
      if intent.Err? then Trail(s, Some(intent.error)) else IntentTrail(s, n.key, intent.value, None, now)
  }

  /** `apply_decision`. */
  function DecisionTrail(s: Session, gateId: string, action: DecisionAction, now: int): Trail {
    From(s).Then(x => DecideGate(x, gateId, action)).Follow(x => DecidedTrail(x, gateId, action, now))
  }

  function ApplyDecision(s: Session, gateId: string, action: DecisionAction, now: int): Result<Session> {
    DecisionTrail(s, gateId, action, now).Outcome()
  }

  /** `record_session_complete`. */
  function CompletionTrail(s: Session): Trail {
    From(s).Then(x => EnsureRunning(x)).Then(x => MoveSession(x, SessionCompleted))
  }

  // ---- nodes between steps --------------------------------------------------------------

  predicate NoneRunning(attempts: seq<Attempt>) {
    forall i :: 0 <= i < |attempts| ==> attempts[i].status != AttemptRunning
  }

  /** Only the latest attempt is running. */
  predicate OnlyLatestRunning(n: Node) {
    LatestRunning(n) && NoneRunning(n.attempts[..|n.attempts| - 1])
  }

  /** Nobody is at work on the node. */
  predicate Settled(n: Node) {
    n.status in {NodeQueued, NodeCompleted} && NoneRunning(n.attempts)
  }

  /** One execution of the node is open. */
  predicate Busy(n: Node) {
    n.status == NodeRunning && OnlyLatestRunning(n)
  }

  /** The node waits for a decision; its execution is still open, but nobody owns it. */
  predicate Pending(n: Node) {
    n.status == PendingGate && OnlyLatestRunning(n) && Latest(n).lease == NO_LEASE
  }

  predicate Calm(n: Node) { Settled(n) || Busy(n) }

  function Put(s: Session, p: nat, n: Node): Session
    requires p < |s.nodes|
  {
    s.(nodes := s.nodes[p := n])
  }

  lemma OnNodeAt(s: Session, p: nat, change: Node -> Result<Node>)
    requires UniqueKeys(s.nodes) && p < |s.nodes|
    ensures OnNode(s, s.nodes[p].key, change)
         == if change(s.nodes[p]).Ok? then Ok(Put(s, p, change(s.nodes[p]).value)) else Err(change(s.nodes[p]).error)
  {
  }

  lemma PutUnique(s: Session, p: nat, n: Node)
    requires UniqueKeys(s.nodes) && p < |s.nodes| && n.key == s.nodes[p].key
    ensures UniqueKeys(Put(s, p, n).nodes) && Put(s, p, n).nodes[p] == n
  {
  }

  /** What an intent leaves of the node it was applied to, its latest attempt having put out `output` by then; of the
      attempts before the latest one, at most the lease is taken away. */
  predicate Did(m: Node, n: Node, intent: Intent, output: Output) {
    && m.key == n.key && |m.attempts| == |n.attempts| > 0
    && (forall i :: 0 <= i < |n.attempts| - 1 ==> m.attempts[i].(lease := n.attempts[i].lease) == n.attempts[i])
    && var last := Latest(m);
       last.id == Latest(n).id && last.number == Latest(n).number && last.lease == NO_LEASE &&
       match intent
       case Pause(gate) =>
         && m.status == PendingGate && m.gates == n.gates + [gate]
         && last.status == AttemptRunning && last.output == output
       case Complete(result) =>
         m.status == NodeCompleted && m.gates == n.gates && last.status == Succeeded && last.output == result
       case Fail(error) =>
         && m.status == NodeFailed && m.gates == n.gates
         && last.status == AttemptFailed && last.output == output
         && last.error == Some(if error == "" then "control-plane fail intent" else error)
       case Requeue(reason) =>
         && m.status == NodeQueued && m.gates == n.gates
         && last.status == Aborted && last.output == output
         && last.error == Some(if reason == "" then "control-plane requeue intent" else reason)
  }

  lemma BusyEnds(n: Node, output: Option<Output>, error: string, now: int)
    requires Busy(n)
    ensures var m := Completed(n, output, now);
      && m.Ok? && Settled(m.value) && m.value.key == n.key
        && Did(m.value, n, if output.Some? then Complete(output.value)
          else Complete(Latest(n).output), Latest(n).output)
    ensures var m := Failed(n, OrElse(error, FAIL_TEXT), now);
      && m.Ok? && NoneRunning(m.value.attempts) && m.value.key == n.key
        && Did(m.value, n, Fail(error), Latest(n).output)
    ensures var m := Requeued(n, OrElse(error, REQUEUE_TEXT), now);
      && m.Ok? && Settled(m.value) && m.value.key == n.key
        && Did(m.value, n, Requeue(error), Latest(n).output)
  {
  }

  /** Completing, requeueing and failing an open execution all succeed, and touch nothing but its node. */
  lemma EndingIntents(s: Session, p: nat, output: Output, text: string, report: Option<Report>, now: int)
    requires UniqueKeys(s.nodes) && p < |s.nodes| && s.status == SessionRunning && Busy(s.nodes[p])
    ensures var n := s.nodes[p];
      && ApplyIntent(s, n.key, Complete(output), report, now) == Ok(Put(s, p, Completed(n, Some(output), now).value))
      && ApplyIntent(s, n.key, Requeue(text), report, now)
        == Ok(Put(s, p, Requeued(n, OrElse(text, REQUEUE_TEXT), now).value))
      && ApplyIntent(s, n.key, Fail(text), report, now)
        == MoveSession(Put(s, p, Failed(n, OrElse(text, FAIL_TEXT), now).value), SessionFailed)
  {
    hide UniqueKeys, Completed, Failed, Requeued, OnNode;
    var n := s.nodes[p];
    BusyEnds(n, Some(output), text, now);
    OnNodeAt(s, p, (m: Node) => Completed(m, Some(output), now));
    OnNodeAt(s, p, (m: Node) => Requeued(m, OrElse(text, REQUEUE_TEXT), now));
    OnNodeAt(s, p, (m: Node) => Failed(m, OrElse(text, FAIL_TEXT), now));
    FindUnique(s.nodes, p);
    hide Find, Busy;
  }

  // ---- the execution a worker holds ---------------------------------------------------------

  /** The latest attempt of node `p` is open and goes by this id. */
  predicate Executing(s: Session, p: nat, id: string) {
    p < |s.nodes| && Busy(s.nodes[p]) && Names(s, id, p, |s.nodes[p].attempts| - 1)
  }

  /** The worker holds the lease of the attempt under this token, or works without a lease. */
  predicate WorkerHolds(n: Node, token: Option<string>)
    requires n.attempts != []
  {
    match token
    case None => Latest(n).lease == NO_LEASE
    case Some(t) => Text.Strip(t) == t && t != "" && Latest(n).lease.token == Some(t) && Truthy(Latest(n).lease.owner)
  }

  predicate SameIds(n: Node, m: Node) {
    m.key == n.key && |m.attempts| == |n.attempts| && forall i :: 0 <= i < |n.attempts| ==>
      m.attempts[i].id == n.attempts[i].id
  }

  lemma {:induction false} IndexSameIds(n: Node, m: Node, id: string)
    requires SameIds(n, m)
    ensures AttemptIndex(m.attempts, id) == AttemptIndex(n.attempts, id)
  {
  }

  lemma NamesSameIds(s: Session, t: Session, id: string, p: nat, i: nat)
    requires |t.nodes| == |s.nodes| && forall q :: 0 <= q < |s.nodes| ==> SameIds(s.nodes[q], t.nodes[q])
    ensures Names(t, id, p, i) == Names(s, id, p, i)
  {
    hide NodeOfAttempt, AttemptIndex, SameIds;
    forall q | 0 <= q < |s.nodes| { IndexSameIds(s.nodes[q], t.nodes[q], id); }
    var a, b := NodeOfAttempt(s.nodes, id), NodeOfAttempt(t.nodes, id);
    if a.Some? { assert AttemptIndex(t.nodes[a.value].attempts, id).Some?; }
    if b.Some? { assert AttemptIndex(s.nodes[b.value].attempts, id).Some?; }
  }

  lemma NamesPut(s: Session, id: string, p: nat, i: nat, m: Node)
    requires p < |s.nodes| && SameIds(s.nodes[p], m)
    ensures Names(Put(s, p, m), id, p, i) == Names(s, id, p, i)
  {
    forall q | 0 <= q < |s.nodes| ensures SameIds(s.nodes[q], Put(s, p, m).nodes[q]) {}
    NamesSameIds(s, Put(s, p, m), id, p, i);
  }

  /** A fresh id names the attempt it was given to. */
  lemma {:induction false} NamesNew(s: Session, t: Session, id: string, p: nat, m: Node)
    requires p < |s.nodes| && NodeOfAttempt(s.nodes, id).None?
    requires t.nodes == s.nodes[p := m] && m.attempts == s.nodes[p].attempts + [FreshAttempt(s.nodes[p], id)]
    ensures Names(t, id, p, |m.attempts| - 1)
  {
  }

  function WithLease(n: Node, l: Lease): Node
    requires n.attempts != []
  {
    n.(attempts := n.attempts[|n.attempts| - 1 := Latest(n).(lease := l)])
  }

  lemma OnLeaseAt(s: Session, p: nat, id: string, change: Attempt -> Result<Lease>)
    requires Executing(s, p, id)
    ensures var l := change(Latest(s.nodes[p]));
      OnLease(s, id, change) == if l.Ok? then Ok(Put(s, p, WithLease(s.nodes[p], l.value))) else Err(l.error)
  {
  }

  lemma LeaseKeepsExecuting(s: Session, p: nat, id: string, l: Lease)
    requires Executing(s, p, id)
    ensures Executing(Put(s, p, WithLease(s.nodes[p], l)), p, id) && SameIds(s.nodes[p], WithLease(s.nodes[p], l))
  {
  }

  /** The pause chain up to its last call. */
  lemma PausedNode(s: Session, p: nat, id: string, token: Option<string>, gate: Gate, report: Report, now: int)
    requires UniqueKeys(s.nodes) && Executing(s, p, id) && WorkerHolds(s.nodes[p], token)
    requires report.executionId == Some(id) && report.token == token
    ensures var n := s.nodes[p];
      var m := WithLease(n, NO_LEASE).(gates := n.gates + [gate], status := PendingGate);
      PausedTrail(s, n.key, gate, Some(report), now) == From(Put(s, p, m)) && Pending(m)
  {
    var n := s.nodes[p];
    var gated := n.(gates := n.gates + [gate]);
    var released := WithLease(gated, NO_LEASE);
    OnNodeAt(s, p, (m: Node) => Ok(Gated(m, gate)));
    PutUnique(s, p, gated);
    var s1 := Put(s, p, gated);
    NamesPut(s, id, p, |n.attempts| - 1, gated);
    ReleaseAt(s1, p, id, token, now);
    PutUnique(s1, p, released);
    var s2 := Put(s1, p, released);
    OnNodeAt(s2, p, (m: Node) => Moved(m, PendingGate));
    assert s2.nodes[p].status == NodeRunning;
    assert released.attempts[..|n.attempts| - 1] == n.attempts[..|n.attempts| - 1];
    hide OnNode, Find, Names, OnLease, UniqueKeys;
    assert released == WithLease(n, NO_LEASE).(gates := n.gates + [gate]);
    assert ReleaseReported(s1, Some(report), now) == Ok(s2);
    assert Put(s2, p, released.(status := PendingGate)) == Put(s, p, released.(status := PendingGate));
  }

  /** The pause chain: the gate is recorded, the lease given back, node and session wait. */
  lemma PauseIntent(s: Session, p: nat, id: string, token: Option<string>, gate: Gate, report: Report, now: int)
    requires UniqueKeys(s.nodes) && s.status == SessionRunning && Executing(s, p, id) && WorkerHolds(s.nodes[p], token)
    requires report.executionId == Some(id) && report.token == token
    ensures var n := s.nodes[p];
      var m := WithLease(n, NO_LEASE).(gates := n.gates + [gate], status := PendingGate);
      ApplyIntent(s, n.key, Pause(gate), Some(report), now) == Ok(Put(s, p, m).(status := WaitingGate)) && Pending(m)
  {
    PausedNode(s, p, id, token, gate, report, now);
    hide PausedTrail, UniqueKeys, Names, Pending;
  }

  lemma ReleaseAt(s: Session, p: nat, id: string, token: Option<string>, now: int)
    requires Executing(s, p, id) && WorkerHolds(s.nodes[p], token)
    ensures token.Some? ==> ReleaseLease(s, id, token.value, now) == Ok(Put(s, p, WithLease(s.nodes[p], NO_LEASE)))
    ensures token.None? ==> Put(s, p, WithLease(s.nodes[p], NO_LEASE)) == s
  {
    hide Text.Strip;
    if token.Some? {
      OnLeaseAt(s, p, id, (a: Attempt) => Release(a.lease, a.status == AttemptRunning, token.value, now));
    } else {
      assert WithLease(s.nodes[p], NO_LEASE).attempts == s.nodes[p].attempts;
    }
  }

  // ---- where the chains lead ---------------------------------------------------------------

  /** What a worker's report leaves: the session has failed, or it goes on with the node settled, or it waits for a
      decision on the node. No other node has changed. */
  predicate LeftBy(s: Session, t: Session, p: nat) {
    && p < |s.nodes|
    && (|| t.status == SessionFailed
        || (&& |t.nodes| == |s.nodes| && t.nodes == s.nodes[p := t.nodes[p]] && t.nodes[p].key == s.nodes[p].key
            && (|| (t.status == SessionRunning && Settled(t.nodes[p]))
                || (t.status == WaitingGate && Pending(t.nodes[p])))))
  }

  /** Every other node is as it was; when the session ends, its attempts lose their leases. */
  predicate OthersKept(s: Session, t: Session, p: nat) {
    && |t.nodes| == |s.nodes|
    && forall q :: 0 <= q < |s.nodes| && q != p ==>
         t.nodes[q] == if IsTerminal(t.status) then Unleased(s.nodes[q]) else s.nodes[q]
  }

  /** The status an intent leaves the session with. */
  function StatusAfter(intent: Intent): SessionStatus {
    match intent
    case Pause(_) => WaitingGate
    case Fail(_) => SessionFailed
    case _ => SessionRunning
  }

  /** The end of the session takes the leases away and leaves everything else of a failed node. */
  lemma FailedUnleased(m: Node, n: Node, error: string, output: Output)
    requires Did(m, n, Fail(error), output)
    ensures Did(Unleased(m), n, Fail(error), output)
  {
    hide Unleased;
  }

  lemma FailLeaves(s: Session, p: nat, error: string, report: Option<Report>, now: int)
    requires UniqueKeys(s.nodes) && p < |s.nodes| && s.status == SessionRunning && Busy(s.nodes[p])
    ensures var r := ApplyIntent(s, s.nodes[p].key, Fail(error), report, now);
      r.Ok? && r.value.status == SessionFailed && |r.value.nodes| == |s.nodes|
        && Did(r.value.nodes[p], s.nodes[p], Fail(error), Latest(s.nodes[p]).output) && OthersKept(s, r.value, p)
  {
    var n := s.nodes[p];
    EndingIntents(s, p, map[], error, report, now);
    BusyEnds(n, None, error, now);
    var failed := Failed(n, OrElse(error, FAIL_TEXT), now).value;
    FailedUnleased(failed, n, error, Latest(n).output);
    hide ApplyIntent, UniqueKeys, Busy, Failed, Did, Unleased;
  }

  lemma PauseLeaves(s: Session, p: nat, id: string, token: Option<string>, gate: Gate, report: Report, now: int)
    requires UniqueKeys(s.nodes) && s.status == SessionRunning && Executing(s, p, id) && WorkerHolds(s.nodes[p], token)
    requires report.executionId == Some(id) && report.token == token
    ensures var r := ApplyIntent(s, s.nodes[p].key, Pause(gate), Some(report), now);
      && r.Ok? && LeftBy(s, r.value, p) && r.value.status == WaitingGate && |r.value.nodes| == |s.nodes|
      && Did(r.value.nodes[p], s.nodes[p], Pause(gate), Latest(s.nodes[p]).output) && OthersKept(s, r.value, p)
  {
    PauseIntent(s, p, id, token, gate, report, now);
    assert LatestRunning(s.nodes[p]);
    hide ApplyIntent, UniqueKeys, WorkerHolds, Names, Busy, Pending, Settled;
  }

  lemma FailedIsLeft(s: Session, t: Session, p: nat)
    requires p < |s.nodes| && t.status == SessionFailed
    ensures LeftBy(s, t, p)
  {
  }

  lemma SettledLeaves(s: Session, p: nat, m: Node)
    requires p < |s.nodes| && s.status == SessionRunning && Settled(m) && m.key == s.nodes[p].key
    ensures LeftBy(s, Put(s, p, m), p) && OthersKept(s, Put(s, p, m), p)
  {
  }

  /** Every intent on the node a worker executes goes through. */
  lemma IntentLeaves(s: Session, p: nat, id: string, token: Option<string>, intent: Intent, report: Report, now: int)
    requires UniqueKeys(s.nodes) && s.status == SessionRunning && Executing(s, p, id) && WorkerHolds(s.nodes[p], token)
    requires report.executionId == Some(id) && report.token == token
    ensures var r := ApplyIntent(s, s.nodes[p].key, intent, Some(report), now);
      && r.Ok? && LeftBy(s, r.value, p) && r.value.status == StatusAfter(intent) && |r.value.nodes| == |s.nodes|
      && Did(r.value.nodes[p], s.nodes[p], intent, Latest(s.nodes[p]).output) && OthersKept(s, r.value, p)
  {
    var n := s.nodes[p];
    hide ApplyIntent, UniqueKeys, WorkerHolds, Names, Busy, Pending, Settled, Completed, Requeued, Did, LeftBy,
         OthersKept;
    match intent
    case Pause(gate) => PauseLeaves(s, p, id, token, gate, report, now);
    case Complete(output) =>
      EndingIntents(s, p, output, "", Some(report), now);
      BusyEnds(n, Some(output), "", now);
      SettledLeaves(s, p, Completed(n, Some(output), now).value);
    case Requeue(reason) =>
      EndingIntents(s, p, map[], reason, Some(report), now);
      BusyEnds(n, None, reason, now);
      SettledLeaves(s, p, Requeued(n, OrElse(reason, REQUEUE_TEXT), now).value);
    case Fail(error) =>
      FailLeaves(s, p, error, Some(report), now);
      FailedIsLeft(s, ApplyIntent(s, n.key, intent, Some(report), now).value, p);
  }

  /** Consuming the report merges it into the open attempt and changes nothing else. */
  lemma ConsumedByExecution(s: Session, p: nat, id: string, token: Option<string>, report: Report, newId: string)
    requires UniqueKeys(s.nodes) && Executing(s, p, id) && WorkerHolds(s.nodes[p], token)
    requires report.executionId == Some(id) && report.key == s.nodes[p].key
    ensures var n := s.nodes[p];
      var m := n.(attempts := n.attempts[|n.attempts| - 1 := Reported(Latest(n), report.output, report.error)]);
      && ConsumeReport(s, report.key, report.executionId, report.output, report.error, newId) == Ok(Put(s, p, m))
      && UniqueKeys(Put(s, p, m).nodes) && Executing(Put(s, p, m), p, id) && WorkerHolds(m, token) && m.key == n.key
  {
    hide Text.Strip, NodeOfAttempt, AttemptIndex;
    var n := s.nodes[p];
    var m := n.(attempts := n.attempts[|n.attempts| - 1 := Reported(Latest(n), report.output, report.error)]);
    OnNodeAt(s, p, (x: Node) => Ok(Consumed(x, report.executionId, report.output, report.error, newId)));
    PutUnique(s, p, m);
    NamesPut(s, id, p, |n.attempts| - 1, m);
    assert m.attempts[..|m.attempts| - 1] == n.attempts[..|n.attempts| - 1];
  }

  /** A worker without a lease always may report; one with a lease may while the lease is live. */
  lemma LeaseCheck(s: Session, p: nat, id: string, token: Option<string>, report: Report, now: int)
    requires UniqueKeys(s.nodes) && Executing(s, p, id) && WorkerHolds(s.nodes[p], token)
    requires report.executionId == Some(id) && report.token == token && report.key == s.nodes[p].key
    ensures ReportLease(s, report, now)
         == if token.None? || IsLive(Latest(s.nodes[p]).lease, now) then Ok(()) else Err(LeaseError)
  {
  }

  /** What becomes of the reported node: an error fails it; a gate that requires a decision makes it wait, a blocking
      one fails it; only otherwise is what the deriver asks for done. */
  predicate Answered(report: Report, gate: Option<Gate>, derived: Intent, n: Node, status: SessionStatus, m: Node)
    requires n.attempts != []
  {
    var before, output := Latest(n).output, Latest(n).output + report.output;
    if Truthy(report.error) then status == SessionFailed && Did(m, n, Fail(report.error.value), before)
    else if gate.Some? && gate.value.outcome == RequiresDecision then
      status == WaitingGate && Did(m, n, Pause(gate.value), output)
    else if gate.Some? && gate.value.outcome == Block then
      status == SessionFailed && Did(m, n, Fail("gate " + gate.value.name + " BLOCK"), output)
    else status == StatusAfter(derived) && Did(m, n, derived, output)
  }

  /** What the report merged into the latest attempt makes no difference to what was done to the node. */
  lemma DidAfterReport(m: Node, n: Node, a: Attempt, intent: Intent, output: Output)
    requires n.attempts != [] && a.id == Latest(n).id && a.number == Latest(n).number
    requires Did(m, n.(attempts := n.attempts[|n.attempts| - 1 := a]), intent, output)
    ensures Did(m, n, intent, output)
  {
    forall i | 0 <= i < |n.attempts| - 1 ensures m.attempts[i].(lease := n.attempts[i].lease) == n.attempts[i] {
      assert n.attempts[|n.attempts| - 1 := a][i] == n.attempts[i];
    }
  }

  /** Session and node are running already, so only the lease is checked. */
  lemma StartedIs(s: Session, p: nat, id: string, token: Option<string>, report: Report, checkedAt: int)
    requires UniqueKeys(s.nodes) && s.status == SessionRunning && Executing(s, p, id) && WorkerHolds(s.nodes[p], token)
    requires report.executionId == Some(id) && report.token == token && report.key == s.nodes[p].key
    ensures StartedTrail(s, report, checkedAt)
         == if token.None? || IsLive(Latest(s.nodes[p]).lease, checkedAt) then From(s) else Trail(s, Some(LeaseError))
    ensures forall newId :: EnsureAttempt(s, report.key, newId) == Ok(s)
  {
    FindUnique(s.nodes, p);
    LeaseCheck(s, p, id, token, report, checkedAt);
    hide Find, Names, WorkerHolds, ReportLease, IsLive;
  }

  /** A report of the execution a worker holds never runs into an illegal move: it is refused because the lease has run
      out, and then nothing has changed, or the whole chain goes through. */
  lemma ReportLeaves(s: Session, p: nat, id: string, token: Option<string>, report: Report, gate: Option<Gate>,
                     derived: Intent, newId: string, otherId: string, checkedAt: int, now: int)
    requires UniqueKeys(s.nodes) && s.status == SessionRunning && Executing(s, p, id) && WorkerHolds(s.nodes[p], token)
    requires report.executionId == Some(id) && report.token == token && report.key == s.nodes[p].key
    ensures var t := ReportTrail(s, report, gate, derived, newId, otherId, checkedAt, now);
      if token.None? || IsLive(Latest(s.nodes[p]).lease, checkedAt) then
        && t.error == None && LeftBy(s, t.stored, p) && |t.stored.nodes| == |s.nodes|
        && Answered(report, gate, derived, s.nodes[p], t.stored.status, t.stored.nodes[p]) && OthersKept(s, t.stored, p)
      else t == Trail(s, Some(LeaseError))
  {
    hide IntentTrail, UniqueKeys, WorkerHolds, Names, Pending, Settled, ConsumeReport, StartedTrail, IsLive, Did,
         EnsureAttempt, Find;
    StartedIs(s, p, id, token, report, checkedAt);
    if Truthy(report.error) {
      IntentLeaves(s, p, id, token, Fail(report.error.value), report, now);
    } else {
      ConsumedByExecution(s, p, id, token, report, otherId);
      var consumed := ConsumeReport(s, report.key, report.executionId, report.output, report.error, otherId).value;
      var intent := DerivedIntent(gate, derived);
      IntentLeaves(consumed, p, id, token, intent, report, now);
      DidAfterReport(ApplyIntent(consumed, report.key, intent, Some(report), now).value.nodes[p], s.nodes[p],
                     Reported(Latest(s.nodes[p]), report.output, report.error), intent,
                     Latest(s.nodes[p]).output + report.output);
    }
  }

  /** The lease check, for whoever reports on a node whose latest attempt carries a lease. */
  lemma ReportLeaseExact(s: Session, p: nat, report: Report, now: int)
    requires UniqueKeys(s.nodes) && p < |s.nodes| && report.key == s.nodes[p].key
    requires s.nodes[p].attempts != [] && HasMetadata(Latest(s.nodes[p]).lease)
    requires Names(s, Latest(s.nodes[p]).id, p, |s.nodes[p].attempts| - 1)
    ensures ReportLease(s, report, now) == if MayReport(Latest(s.nodes[p]), report, now) then Ok(())
      else Err(LeaseError)
  {
    FindUnique(s.nodes, p);
    var a := Latest(s.nodes[p]);
    hide Find, HasMetadata, NodeOfAttempt, AttemptIndex, MayUse, InForce, Matches;
    forall token ensures LeaseAsserted(s, a.id, token, now)
        == if a.status == AttemptRunning && InForce(a.lease, now) && Matches(a.lease, token) then Ok(())
           else Err(LeaseError)
    {
      MayUseExact(a.lease, a.status == AttemptRunning, token, now);
    }
    hide LeaseAsserted, Names;
  }

  /** The report names the attempt, which runs under a lease in force, and presents its token. */
  predicate MayReport(a: Attempt, report: Report, now: int) {
    && report.executionId == Some(a.id) && a.status == AttemptRunning
    && report.token.Some? && Matches(a.lease, report.token.value) && InForce(a.lease, now)
  }

  /** Who may report on a running node: if the latest attempt carries a lease, only somebody who names that attempt and
      presents the token of a lease in force; anybody else is refused, and nothing is stored. */
  lemma StrangerRefused(s: Session, p: nat, report: Report, gate: Option<Gate>, derived: Intent, newId: string,
                        otherId: string, checkedAt: int, now: int)
    requires UniqueKeys(s.nodes) && s.status in {SessionRunning, Resuming} && p < |s.nodes|
    requires s.nodes[p].status != NodeQueued && report.key == s.nodes[p].key
    requires s.nodes[p].attempts != [] && HasMetadata(Latest(s.nodes[p]).lease)
    requires Names(s, Latest(s.nodes[p]).id, p, |s.nodes[p].attempts| - 1)
    ensures if MayReport(Latest(s.nodes[p]), report, checkedAt) then StartedTrail(s, report, checkedAt) == From(s)
      else ReportTrail(s, report, gate, derived, newId, otherId, checkedAt, now) == Trail(s, Some(LeaseError))
  {
    ReportLeaseExact(s, p, report, checkedAt);
    FindUnique(s.nodes, p);
    hide Find, ReportLease, MayReport, HasMetadata, Names, UniqueKeys, IntentTrail, EnsureAttempt, ConsumeReport;
  }

  /** A session that waits or is over takes no report, and no execution can be opened in it; nor for a node it does not
      have. A queued session is started first. */
  lemma NoWorkTaken(s: Session, report: Report, gate: Option<Gate>, derived: Intent, newId: string, otherId: string,
                    checkedAt: int, now: int)
    requires s.status in {WaitingGate, SessionCompleted, SessionFailed, Cancelled}
      || forall p :: 0 <= p < |s.nodes| ==> s.nodes[p].key != report.key
    ensures var stored := if s.status == SessionQueued then s.(status := SessionRunning) else s;
      && ReportTrail(s, report, gate, derived, newId, otherId, checkedAt, now) == Trail(stored, Some(RuntimeError))
      && ExecutionTrail(s, report.key, newId) == Trail(stored, Some(RuntimeError))
  {
    if forall p :: 0 <= p < |s.nodes| ==> s.nodes[p].key != report.key { assert Find(s.nodes, report.key).None?; }
    hide Find;
  }

  /** Completion can be recorded exactly of a running or resuming session, whatever its nodes are; all leases are gone
      then, and nothing else has changed. */
  lemma CompletionTaken(s: Session)
    ensures CompletionTrail(s) == if s.status in {SessionRunning, Resuming} then
        From(Session(SessionCompleted, seq(|s.nodes|, p requires 0 <= p < |s.nodes| => Unleased(s.nodes[p]))))
      else Trail(s, Some(InvalidTransition))
  {
  }

  /** Nothing but recording completion ever completes a session: no intent, report, decision or new execution does,
      from whatever state and however many nodes are completed. */
  lemma OnlyRecordingCompletes(s: Session, key: string, intent: Intent, of: Option<Report>, report: Report,
                               gate: Option<Gate>, derived: Intent, gateId: string, action: DecisionAction, id: string,
                               newId: string, checkedAt: int, now: int)
    requires s.status != SessionCompleted
    ensures IntentTrail(s, key, intent, of, now).stored.status != SessionCompleted
    ensures ReportTrail(s, report, gate, derived, id, newId, checkedAt, now).stored.status != SessionCompleted
    ensures DecisionTrail(s, gateId, action, now).stored.status != SessionCompleted
    ensures ExecutionTrail(s, key, id).stored.status != SessionCompleted
  {
    IntentCompletesNothing(s, key, intent, of, now);
    ReportCompletesNothing(s, report, gate, derived, id, newId, checkedAt, now);
    DecisionCompletesNothing(s, gateId, action, now);
    ExecutionCompletesNothing(s, key, id);
    hide IntentTrail, ReportTrail, DecisionTrail, ExecutionTrail;
  }

  lemma ExecutionCompletesNothing(s: Session, key: string, id: string)
    requires s.status != SessionCompleted
    ensures ExecutionTrail(s, key, id).stored.status != SessionCompleted
  {
    hide Find, Moved;
  }

  lemma ReportCompletesNothing(s: Session, report: Report, gate: Option<Gate>, derived: Intent, newId: string,
                               otherId: string, checkedAt: int, now: int)
    requires s.status != SessionCompleted
    ensures ReportTrail(s, report, gate, derived, newId, otherId, checkedAt, now).stored.status != SessionCompleted
  {
    var started := StartedTrail(s, report, checkedAt);
    assert started.stored.status != SessionCompleted by {
      hide IntentTrail, Find, ReportLease, Moved;
    }
    hide StartedTrail;
    if Truthy(report.error) {
      IntentCompletesNothing(started.stored, report.key, Fail(report.error.value), Some(report), now);
      hide IntentTrail;
    } else {
      var consumed := started.Then(x => EnsureAttempt(x, report.key, newId))
        .Then(x => ConsumeReport(x, report.key, report.executionId, report.output, report.error, otherId));
      assert consumed.stored.status != SessionCompleted by { hide IntentTrail, Find, Consumed; }
      IntentCompletesNothing(consumed.stored, report.key, DerivedIntent(gate, derived), Some(report), now);
      hide IntentTrail, EnsureAttempt, ConsumeReport;
    }
  }

  lemma DecisionCompletesNothing(s: Session, gateId: string, action: DecisionAction, now: int)
    requires s.status != SessionCompleted
    ensures DecisionTrail(s, gateId, action, now).stored.status != SessionCompleted
  {
    hide IntentTrail, NodeOfGate, GateIndex, Decided;
    var decided := From(s).Then(x => DecideGate(x, gateId, action)).stored;
    assert decided.status != SessionCompleted;
    hide DecideGate;
    forall key, intent ensures IntentTrail(decided, key, intent, None, now).stored.status != SessionCompleted {
      IntentCompletesNothing(decided, key, intent, None, now);
    }
  }

  lemma IntentCompletesNothing(s: Session, key: string, intent: Intent, report: Option<Report>, now: int)
    requires s.status != SessionCompleted
    ensures IntentTrail(s, key, intent, report, now).stored.status != SessionCompleted
  {
    hide Find, AttemptIndex, NodeOfAttempt, Moved, Completed, Failed, Requeued, Release;
  }

  /** Opening the execution of a settled, queued node. */
  lemma {:induction false} OpensExecution(s: Session, p: nat, id: string)
    requires UniqueKeys(s.nodes) && s.status in {SessionQueued, SessionRunning}
    requires p < |s.nodes| && Settled(s.nodes[p]) && s.nodes[p].status == NodeQueued && NodeOfAttempt(s.nodes, id).None?
    ensures var n := s.nodes[p];
      var m := n.(status := NodeRunning, attempts := n.attempts + [FreshAttempt(n, id)]);
      && OpenExecution(s, n.key, id) == Ok(Put(s, p, m).(status := SessionRunning))
      && Executing(Put(s, p, m).(status := SessionRunning), p, id) && WorkerHolds(m, None)
  {
    var n := s.nodes[p];
    var running := s.(status := SessionRunning);
    var started := n.(status := NodeRunning);
    var m := n.(status := NodeRunning, attempts := n.attempts + [FreshAttempt(n, id)]);
    FindUnique(running.nodes, p);
    OnNodeAt(running, p, (x: Node) => Moved(x, NodeRunning));
    PutUnique(running, p, started);
    OnNodeAt(Put(running, p, started), p, (x: Node) => Ok(Attempted(x, id)));
    NamesNew(s, Put(s, p, m).(status := SessionRunning), id, p, m);
    hide OnNode, Find, Names, UniqueKeys, NodeOfAttempt;
    assert m.attempts[..|m.attempts| - 1] == n.attempts;
    assert Put(Put(running, p, started), p, m) == Put(running, p, m) == Put(s, p, m).(status := SessionRunning);
  }

  // ---- gate decisions ------------------------------------------------------------------------

  lemma {:induction false} GatesFoundAgain(s: Session, p: nat, gateId: string, n: Node)
    requires NodeOfGate(s.nodes, gateId) == Some(p)
    requires n.key == s.nodes[p].key && |n.gates| == |s.nodes[p].gates| && forall i :: 0 <= i < |n.gates| ==>
      n.gates[i].id == s.nodes[p].gates[i].id
    ensures NodeOfGate(Put(s, p, n).nodes, gateId) == Some(p)
  {
    hide NodeOfGate, GateIndex;
    var i := GateIndex(s.nodes[p].gates, gateId).value;
    assert n.gates[i].id == gateId;
    assert forall q :: 0 <= q < |s.nodes| && q != p ==> Put(s, p, n).nodes[q] == s.nodes[q];
    var found := NodeOfGate(Put(s, p, n).nodes, gateId);
    assert GateIndex(Put(s, p, n).nodes[p].gates, gateId).Some?;
  }

  /** The decision is written to the gate it is about, the first with this id, and to no other. */
  predicate GateDecided(m: Node, n: Node, gateId: string, action: DecisionAction) {
    && |m.gates| == |n.gates|
    && var i := GateIndex(n.gates, gateId);
       && i.Some?
       && m.gates[i.value] == n.gates[i.value].(decision := Some(action))
       && forall j :: 0 <= j < |n.gates| && j != i.value ==> m.gates[j] == n.gates[j]
  }

  lemma {:induction false} DecisionRecorded(s: Session, p: nat, gateId: string, action: DecisionAction)
    requires UniqueKeys(s.nodes) && NodeOfGate(s.nodes, gateId) == Some(p)
    requires DecisionTarget(action) in NodeMoves(s.nodes[p].status)
    ensures var d := Decided(s.nodes[p], gateId, action);
      && d.Ok? && DecideGate(s, gateId, action) == Ok(Put(s, p, d.value))
        && NodeOfGate(Put(s, p, d.value).nodes, gateId) == Some(p)
      && UniqueKeys(Put(s, p, d.value).nodes) && d.value.key == s.nodes[p].key
        && d.value.attempts == s.nodes[p].attempts
      && d.value.status == DecisionTarget(action) && GateDecided(d.value, s.nodes[p], gateId, action)
  {
    hide NodeOfGate, GateIndex, UniqueKeys, NodeMoves;
    var d := Decided(s.nodes[p], gateId, action).value;
    GatesFoundAgain(s, p, gateId, d);
    PutUnique(s, p, d);
  }

  /** What each decision makes of the waiting node: an approval completes it with an empty output, a rejection fails it
      with its attempt still running, a revision aborts the attempt, for this reason, and queues the node again. */
  predicate DecisionOutcome(m: Node, n: Node, action: DecisionAction, reason: string, now: int) {
    && m.key == n.key && |m.attempts| == |n.attempts| > 0
    && (forall i :: 0 <= i < |n.attempts| - 1 ==> m.attempts[i].(lease := n.attempts[i].lease) == n.attempts[i])
    && var a, b := Latest(n), Latest(m);
       match action
       case Approve =>
         && m.status == NodeCompleted
         && b == a.(status := Succeeded, finishedAt := Some(now), output := map[], lease := NO_LEASE)
       case Reject => m.status == NodeFailed && b == a.(lease := NO_LEASE)
       case _ =>
         && m.status == NodeQueued
         && b == a.(status := Aborted, finishedAt := Some(now), error := Some(reason), lease := NO_LEASE)
  }

  /** The reason a requested revision gives, which names the gate and what was asked for. */
  function RevisionText(n: Node, gateId: string, action: DecisionAction): string {
    var i := GateIndex(n.gates, gateId);
    "gate " + (if i.Some? then n.gates[i.value].name else "") + " requested " + (if action == Revise then "revise"
      else "replan")
  }

  lemma DecisionApplied(s: Session, p: nat, gateId: string, action: DecisionAction, now: int)
    returns (decided: Session, text: string)
    requires UniqueKeys(s.nodes) && NodeOfGate(s.nodes, gateId) == Some(p)
    requires DecisionTarget(action) in NodeMoves(s.nodes[p].status)
    ensures decided == Put(s, p, Decided(s.nodes[p], gateId, action).value) && UniqueKeys(decided.nodes)
    ensures decided.nodes[p].key == s.nodes[p].key
    ensures decided.nodes[p].status == DecisionTarget(action)
    ensures GateDecided(decided.nodes[p], s.nodes[p], gateId, action)
    ensures decided.nodes[p].attempts == s.nodes[p].attempts
    ensures action in {Revise, Replan} ==> text == RevisionText(s.nodes[p], gateId, action)
    ensures ApplyDecision(s, gateId, action, now)
         == ApplyIntent(decided, s.nodes[p].key, if action == Approve then Complete(map[]) else if action == Reject then
           Fail(text) else Requeue(text), None, now)
  {
    DecisionRecorded(s, p, gateId, action);
    hide UniqueKeys, NodeOfGate, GateIndex, Decided, DecideGate, ApplyIntent, NodeMoves;
    var d := Decided(s.nodes[p], gateId, action).value;
    decided := Put(s, p, d);
    var intent := IntentAfterDecision(d.status, d.gates[GateIndex(d.gates, gateId).value], action).value;
    text := if action == Approve then "" else if action == Reject then intent.error else intent.reason;
  }

  /** What was done after the decision was recorded was done to the node as it waited. */
  lemma DecidedBefore(s: Session, t: Session, p: nat, d: Node, gateId: string, action: DecisionAction, reason: string,
                      now: int)
    requires p < |s.nodes| && d.key == s.nodes[p].key && d.attempts == s.nodes[p].attempts
    requires LeftBy(Put(s, p, d), t, p) && OthersKept(Put(s, p, d), t, p) && GateDecided(d, s.nodes[p], gateId, action)
    requires t.nodes[p].gates == d.gates && DecisionOutcome(t.nodes[p], d, action, reason, now)
    ensures LeftBy(s, t, p) && OthersKept(s, t, p) && GateDecided(t.nodes[p], s.nodes[p], gateId, action)
    ensures DecisionOutcome(t.nodes[p], s.nodes[p], action, reason, now)
  {
    hide GateIndex, Settled, Pending, Unleased;
  }

  /** A decision on a gate of the node that is waiting always goes through, whatever it is. */
  lemma {:induction false} DecisionLeaves(s: Session, p: nat, gateId: string, action: DecisionAction, now: int)
    requires UniqueKeys(s.nodes) && s.status == WaitingGate && p < |s.nodes| && Pending(s.nodes[p])
    requires NodeOfGate(s.nodes, gateId) == Some(p)
    ensures var r := ApplyDecision(s, gateId, action, now);
      && r.Ok? && LeftBy(s, r.value, p) && OthersKept(s, r.value, p)
      && DecisionOutcome(r.value.nodes[p], s.nodes[p], action, RevisionText(s.nodes[p], gateId, action), now)
      && GateDecided(r.value.nodes[p], s.nodes[p], gateId, action)
      && r.value.status == if action == Reject then SessionFailed else SessionRunning
  {
    var decided, text := DecisionApplied(s, p, gateId, action, now);
    DecisionsAlike(text, now);
    hide UniqueKeys, NodeOfGate, Decided, ApplyIntent, ApplyDecision, LatestRunning, NoneRunning, Settled, LeftBy,
         OthersKept, DecisionOutcome, GateDecided;
    if action == Approve {
      ApprovedCompletes(decided, p, now);
    } else if action == Reject {
      RejectionFails(decided, p, text, now);
    } else {
      RevisionRequeues(decided, p, text, now);
    }
    DecidedBefore(s, ApplyDecision(s, gateId, action, now).value, p, decided.nodes[p], gateId, action,
      RevisionText(s.nodes[p], gateId, action), now);
  }

  /** Only a revision carries its reason, whichever way it is asked for. */
  lemma DecisionsAlike(reason: string, now: int)
    ensures forall m, n :: DecisionOutcome(m, n, Revise, reason, now) == DecisionOutcome(m, n, Replan, reason, now)
    ensures forall m, n, text :: DecisionOutcome(m, n, Approve, text, now) == DecisionOutcome(m, n, Approve, "", now)
    ensures forall m, n, text :: DecisionOutcome(m, n, Reject, text, now) == DecisionOutcome(m, n, Reject, "", now)
  {
  }

  lemma {:induction false} OpenGateRejected(s: Session, p: nat, gateId: string, now: int)
    requires UniqueKeys(s.nodes) && s.status in {SessionRunning, WaitingGate}
    requires NodeOfGate(s.nodes, gateId) == Some(p) && Busy(s.nodes[p])
    ensures var r := ApplyDecision(s, gateId, Reject, now); r.Ok? && r.value.status == SessionFailed
  {
    var decided, text := DecisionApplied(s, p, gateId, Reject, now);
    FindUnique(decided.nodes, p);
    hide NodeOfGate, UniqueKeys, Find, Decided, ApplyDecision, Busy;
  }

  lemma {:induction false} SettledGateRefused(s: Session, p: nat, gateId: string, action: DecisionAction, now: int)
    requires NodeOfGate(s.nodes, gateId) == Some(p) && Calm(s.nodes[p])
    requires !(Busy(s.nodes[p]) && action == Reject)
    ensures DecisionTrail(s, gateId, action, now) == Trail(s, Some(InvalidTransition))
  {
    hide NodeOfGate, GateIndex, LatestRunning, NoneRunning, IntentTrail;
  }

  /** A decision on a gate of a node nobody waits for is refused, and nothing changes; the one exception is that a gate
      of an execution that is still open may be rejected, which fails the node and the session. */
  lemma {:induction false} OtherDecision(s: Session, p: nat, gateId: string, action: DecisionAction, now: int)
    requires UniqueKeys(s.nodes) && s.status in {SessionRunning, WaitingGate}
    requires NodeOfGate(s.nodes, gateId) == Some(p) && Calm(s.nodes[p])
    ensures var t := DecisionTrail(s, gateId, action, now);
      if Busy(s.nodes[p]) && action == Reject then t.error == None && t.stored.status == SessionFailed
      else t == Trail(s, Some(InvalidTransition))
  {
    hide NodeOfGate, UniqueKeys, DecisionTrail, Busy, Calm;
    if Busy(s.nodes[p]) && action == Reject {
      OpenGateRejected(s, p, gateId, now);
    } else {
      SettledGateRefused(s, p, gateId, action, now);
    }
  }

  lemma OpenEnds(n: Node, output: Option<Output>, error: string, now: int)
    requires OnlyLatestRunning(n)
    ensures NoneRunning(EndLatest(n, Succeeded, output, None, now).attempts)
    ensures NoneRunning(EndLatest(n, Aborted, output, Some(error), now).attempts)
  {
  }

  lemma ApprovedCompletes(s: Session, p: nat, now: int)
    requires UniqueKeys(s.nodes) && s.status == WaitingGate && p < |s.nodes|
    requires s.nodes[p].status == Approved && OnlyLatestRunning(s.nodes[p])
    ensures var r := ApplyIntent(s, s.nodes[p].key, Complete(map[]), None, now);
      r.Ok? && LeftBy(s, r.value, p) && r.value.status == SessionRunning && |r.value.nodes| == |s.nodes|
        && DecisionOutcome(r.value.nodes[p], s.nodes[p], Approve, "", now) && OthersKept(s, r.value, p)
      && r.value.nodes[p].gates == s.nodes[p].gates
  {
    OnNodeAt(s.(status := Resuming), p, (m: Node) => Completed(m, Some(map[]), now));
    OpenEnds(s.nodes[p].(status := NodeCompleted), Some(map[]), "", now);
    hide UniqueKeys, OnNode;
  }

  lemma RevisionRequeues(s: Session, p: nat, reason: string, now: int)
    requires UniqueKeys(s.nodes) && s.status == WaitingGate && p < |s.nodes|
    requires s.nodes[p].status == NeedsRevision && OnlyLatestRunning(s.nodes[p]) && reason != ""
    ensures var r := ApplyIntent(s, s.nodes[p].key, Requeue(reason), None, now);
      r.Ok? && LeftBy(s, r.value, p) && r.value.status == SessionRunning && |r.value.nodes| == |s.nodes|
        && DecisionOutcome(r.value.nodes[p], s.nodes[p], Revise, reason, now) && OthersKept(s, r.value, p)
      && r.value.nodes[p].gates == s.nodes[p].gates
  {
    OnNodeAt(s.(status := Resuming), p, (m: Node) => Requeued(m, reason, now));
    OpenEnds(s.nodes[p], None, reason, now);
    hide UniqueKeys, OnNode;
  }

  lemma RejectionFails(s: Session, p: nat, error: string, now: int)
    requires UniqueKeys(s.nodes) && s.status == WaitingGate && p < |s.nodes|
    requires s.nodes[p].status == NodeFailed && OnlyLatestRunning(s.nodes[p])
    ensures var r := ApplyIntent(s, s.nodes[p].key, Fail(error), None, now);
      r.Ok? && LeftBy(s, r.value, p) && r.value.status == SessionFailed && |r.value.nodes| == |s.nodes|
        && DecisionOutcome(r.value.nodes[p], s.nodes[p], Reject, "", now) && OthersKept(s, r.value, p)
      && r.value.nodes[p].gates == s.nodes[p].gates
  {
  }
}
