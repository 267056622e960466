/** Every composite step keeps a session sound and only lets it evolve, from any state and with any arguments. */
module ControlKeeps {
  import opened Outcomes
  import opened States
  import opened Leases
  import opened Sessions
  import opened SessionRuns
  import opened SessionServices
  import opened ControlSteps

  ghost predicate Kept(s: Session, r: Result<Session>) {
    r.Ok? ==> Sound(r.value) && Evolves(s, r.value)
  }

  lemma CallKept(s: Session, c: Call)
    requires Sound(s)
    ensures Kept(s, Apply(s, c))
  {
    hide Sound, Evolves, Apply;
    CallKeeps(s, c);
  }

  lemma KeptStill(s: Session)
    requires Sound(s)
    ensures Kept(s, Ok(s))
  {
  }

  lemma SessionMovesKept(s: Session, to: SessionStatus)
    requires Sound(s)
    ensures Kept(s, MoveSession(s, to)) && Kept(s, ResumeIfWaiting(s)) && Kept(s, EnsureRunning(s))
    ensures Kept(s, Accepting(s))
  {
    hide Sound, Evolves, MoveSession;
    KeptStill(s);
    MoveSessionKeeps(s, to);
    MoveSessionKeeps(s, Resuming);
    MoveSessionKeeps(s, SessionRunning);
  }

  // ---- chains --------------------------------------------------------------------------

  /** Whatever the chain has stored by now, errors included. */
  ghost predicate KeptBy(s: Session, t: Trail) {
    Sound(t.stored) && Evolves(s, t.stored)
  }

  lemma FromKept(s: Session)
    requires Sound(s)
    ensures KeptBy(s, From(s))
  {
    StandsStill(s);
  }

  /** A call that keeps every sound session sound. */
  ghost predicate Keeping(call: Session -> Result<Session>) {
    forall x :: Sound(x) ==> Kept(x, call(x))
  }

  lemma ThenKept(s: Session, t: Trail, next: Session -> Result<Session>)
    requires KeptBy(s, t)
    requires Keeping(next)
    ensures KeptBy(s, t.Then(next))
  {
    hide Sound, Evolves;
    if t.error.None? && next(t.stored).Ok? { EvolvesTwice(s, t.stored, next(t.stored).value); }
  }

  lemma FollowKept(s: Session, t: Trail, next: Session -> Trail)
    requires KeptBy(s, t)
    requires t.error.None? ==> KeptBy(t.stored, next(t.stored))
    ensures KeptBy(s, t.Follow(next))
  {
    hide Sound, Evolves;
    if t.error.None? { EvolvesTwice(s, t.stored, next(t.stored).stored); }
  }

  /** The single calls the chains are made of. */
  lemma CallsKept(s: Session, key: string, reason: string, output: Output, gate: Gate, id: string, now: int)
    requires Sound(s)
    ensures Kept(s, RequeueNode(s, key, reason, now)) && Kept(s, CompleteNode(s, key, Some(output), now))
    ensures Kept(s, FailUnlessFailed(s, key, reason, now)) && Kept(s, RecordGate(s, key, gate))
    ensures Kept(s, MoveNode(s, key, PendingGate)) && Kept(s, StartIfQueued(s, key))
    ensures Kept(s, StartAttempt(s, key, id)) && Kept(s, EnsureAttempt(s, key, id))
  {
    hide Sound, Evolves, OnNode, Find;
    KeptStill(s);
    CallKept(s, Call(now, RequeueNodeOp(key, reason)));
    CallKept(s, Call(now, CompleteNodeOp(key, Some(output))));
    CallKept(s, Call(now, FailNodeOp(key, reason)));
    CallKept(s, Call(now, RecordGateOp(key, gate)));
    CallKept(s, Call(now, MoveNodeOp(key, PendingGate)));
    CallKept(s, Call(now, MoveNodeOp(key, NodeRunning)));
    CallKept(s, Call(now, StartAttemptOp(key, id)));
  }

  lemma NodeCallsKeeping(key: string, reason: string, output: Output, gate: Gate, id: string, now: int)
    ensures Keeping(x => RequeueNode(x, key, reason, now)) && Keeping(x => CompleteNode(x, key, Some(output), now))
    ensures Keeping(x => FailUnlessFailed(x, key, reason, now)) && Keeping(x => RecordGate(x, key, gate))
    ensures Keeping(x => MoveNode(x, key, PendingGate)) && Keeping(x => StartIfQueued(x, key))
    ensures Keeping(x => StartAttempt(x, key, id)) && Keeping(x => EnsureAttempt(x, key, id))
  {
    hide Sound, Kept, RequeueNode, CompleteNode, FailUnlessFailed, RecordGate, MoveNode, StartIfQueued, StartAttempt,
         EnsureAttempt;
    forall x | Sound(x)
      ensures Kept(x, RequeueNode(x, key, reason, now)) && Kept(x, CompleteNode(x, key, Some(output), now))
      ensures Kept(x, FailUnlessFailed(x, key, reason, now)) && Kept(x, RecordGate(x, key, gate))
      ensures Kept(x, MoveNode(x, key, PendingGate)) && Kept(x, StartIfQueued(x, key))
      ensures Kept(x, StartAttempt(x, key, id)) && Kept(x, EnsureAttempt(x, key, id))
    {
      CallsKept(x, key, reason, output, gate, id, now);
    }
  }

  lemma SessionCallsKeeping(to: SessionStatus)
    ensures Keeping(x => MoveSession(x, to)) && Keeping(x => ResumeIfWaiting(x)) && Keeping(x => EnsureRunning(x))
    ensures Keeping(x => Accepting(x))
  {
    hide Sound, Kept, MoveSession, ResumeIfWaiting, EnsureRunning, Accepting;
    forall x | Sound(x)
      ensures Kept(x, MoveSession(x, to)) && Kept(x, ResumeIfWaiting(x)) && Kept(x, EnsureRunning(x))
      ensures Kept(x, Accepting(x))
    {
      SessionMovesKept(x, to);
    }
  }

  lemma ReleaseKeeping(report: Option<Report>, now: int)
    ensures Keeping(x => ReleaseReported(x, report, now))
  {
    hide Sound, Kept, ReleaseReported;
    forall x | Sound(x) ensures Kept(x, ReleaseReported(x, report, now)) { ReleaseKept(x, report, now); }
  }

  lemma ReleaseKept(s: Session, report: Option<Report>, now: int)
    requires Sound(s)
    ensures Kept(s, ReleaseReported(s, report, now))
  {
    hide Sound, Evolves, OnLease;
    KeptStill(s);
    if report.Some? && report.value.executionId.Some? && report.value.token.Some? {
      CallKept(s, Call(now, ReleaseLeaseOp(report.value.executionId.value, report.value.token.value)));
    }
  }

  const ANY_GATE := Gate("", "", Pass, None)

  /** Three calls in a row. */
  lemma InARow(s: Session, t: Trail, a: Session -> Result<Session>, b: Session -> Result<Session>,
               c: Session -> Result<Session>)
    requires KeptBy(s, t) && Keeping(a) && Keeping(b) && Keeping(c)
    ensures KeptBy(s, t.Then(a)) && KeptBy(s, t.Then(a).Then(b)) && KeptBy(s, t.Then(a).Then(b).Then(c))
  {
    hide KeptBy, Keeping;
    ThenKept(s, t, a);
    ThenKept(s, t.Then(a), b);
    ThenKept(s, t.Then(a).Then(b), c);
  }

  lemma PauseKept(s: Session, key: string, gate: Gate, report: Option<Report>, now: int)
    requires Sound(s)
    ensures KeptBy(s, IntentTrail(s, key, Pause(gate), report, now))
  {
    hide Keeping, KeptBy, Sound, RecordGate, ReleaseReported, MoveNode, MoveSession;
    FromKept(s);
    NodeCallsKeeping(key, "", map[], gate, "", now);
    ReleaseKeeping(report, now);
    SessionCallsKeeping(WaitingGate);
    InARow(s, From(s), x => RecordGate(x, key, gate), x => ReleaseReported(x, report, now),
      x => MoveNode(x, key, PendingGate));
    ThenKept(s, PausedTrail(s, key, gate, report, now), x => MoveSession(x, WaitingGate));
  }

  /** Wherever an apply intent stops, in the end or at an error, what is stored by then is sound and evolved. */
  lemma IntentKept(s: Session, key: string, intent: Intent, report: Option<Report>, now: int)
    requires Sound(s)
    ensures KeptBy(s, IntentTrail(s, key, intent, report, now))
  {
    hide Keeping, KeptBy, Sound, RecordGate, ReleaseReported, MoveNode, MoveSession, RequeueNode, CompleteNode,
         FailUnlessFailed, ResumeIfWaiting, EnsureRunning;
    FromKept(s);
    SessionCallsKeeping(SessionFailed);
    match intent
    case Pause(gate) => PauseKept(s, key, gate, report, now);
    case Fail(error) =>
      NodeCallsKeeping(key, OrElse(error, FAIL_TEXT), map[], ANY_GATE, "", now);
      InARow(s, From(s), x => FailUnlessFailed(x, key, OrElse(error, FAIL_TEXT), now),
        x => MoveSession(x, SessionFailed), x => EnsureRunning(x));
    case Requeue(reason) =>
      NodeCallsKeeping(key, OrElse(reason, REQUEUE_TEXT), map[], ANY_GATE, "", now);
      InARow(s, From(s), x => ResumeIfWaiting(x), x => RequeueNode(x, key, OrElse(reason, REQUEUE_TEXT), now),
        x => EnsureRunning(x));
    case Complete(output) =>
      NodeCallsKeeping(key, "", output, ANY_GATE, "", now);
      InARow(s, From(s), x => ResumeIfWaiting(x), x => CompleteNode(x, key, Some(output), now), x => EnsureRunning(x));
  }

  lemma OpenExecutionKept(s: Session, key: string, id: string)
    requires Sound(s)
    ensures KeptBy(s, ExecutionTrail(s, key, id))
  {
    hide Keeping, KeptBy, Sound, StartAttempt, StartIfQueued, Accepting;
    FromKept(s);
    NodeCallsKeeping(key, "", map[], ANY_GATE, id, 0);
    SessionCallsKeeping(SessionRunning);
    InARow(s, From(s), x => Accepting(x), x => StartIfQueued(x, key), x => StartAttempt(x, key, id));
  }

  /** The part of a report up to the lease check. */
  lemma StartedKept(s: Session, report: Report, checkedAt: int)
    requires Sound(s)
    ensures KeptBy(s, StartedTrail(s, report, checkedAt))
  {
    hide Keeping, KeptBy, Sound, StartIfQueued, Accepting, Checked;
    FromKept(s);
    NodeCallsKeeping(report.key, "", map[], ANY_GATE, "", 0);
    SessionCallsKeeping(SessionRunning);
    CheckKeeping(report, checkedAt);
    InARow(s, From(s), x => Accepting(x), x => StartIfQueued(x, report.key), x => Checked(x, report, checkedAt));
  }

  lemma CheckKeeping(report: Report, now: int)
    ensures Keeping(x => Checked(x, report, now))
  {
    hide Sound, Evolves, ReportLease;
    forall x | Sound(x) ensures Kept(x, Checked(x, report, now)) { KeptStill(x); }
  }

  lemma ConsumeKeeping(report: Report, id: string)
    ensures Keeping(x => ConsumeReport(x, report.key, report.executionId, report.output, report.error, id))
  {
    hide Sound, Kept, OnNode;
    forall x | Sound(x)
      ensures Kept(x, ConsumeReport(x, report.key, report.executionId, report.output, report.error, id))
    {
      CallKept(x, Call(0, ConsumeReportOp(report.key, report.executionId, report.output, report.error, id)));
    }
  }

  lemma DecideKeeping(gateId: string, action: DecisionAction)
    ensures Keeping(x => DecideGate(x, gateId, action))
  {
    hide Sound, Kept, DecideGate;
    forall x | Sound(x) ensures Kept(x, DecideGate(x, gateId, action)) {
      CallKept(x, Call(0, DecideGateOp(gateId, action)));
    }
  }

  /** Wherever a report stops, from any state and with any arguments. */
  lemma ReportKept(s: Session, report: Report, gate: Option<Gate>, derived: Intent, newId: string, otherId: string,
                   checkedAt: int, now: int)
    requires Sound(s)
    ensures KeptBy(s, ReportTrail(s, report, gate, derived, newId, otherId, checkedAt, now))
  {
    hide Keeping, Sound, Evolves, EnsureAttempt, ConsumeReport, StartedTrail, IntentTrail, DerivedIntent;
    StartedKept(s, report, checkedAt);
    var started := StartedTrail(s, report, checkedAt);
    if Truthy(report.error) {
      IntentKept(started.stored, report.key, Fail(report.error.value), Some(report), now);
      FollowKept(s, started, x => IntentTrail(x, report.key, Fail(report.error.value), Some(report), now));
    } else {
      NodeCallsKeeping(report.key, "", map[], ANY_GATE, newId, 0);
      ConsumeKeeping(report, otherId);
      var attempted := started.Then(x => EnsureAttempt(x, report.key, newId));
      ThenKept(s, started, x => EnsureAttempt(x, report.key, newId));
      var consumed := attempted.Then(x =>
        ConsumeReport(x, report.key, report.executionId, report.output, report.error, otherId));
      ThenKept(s, attempted, x =>
        ConsumeReport(x, report.key, report.executionId, report.output, report.error, otherId));
      IntentKept(consumed.stored, report.key, DerivedIntent(gate, derived), Some(report), now);
      FollowKept(s, consumed, x => IntentTrail(x, report.key, DerivedIntent(gate, derived), Some(report), now));
    }
  }

  lemma DecidedKept(s: Session, gateId: string, action: DecisionAction, now: int)
    requires Sound(s)
    ensures KeptBy(s, DecidedTrail(s, gateId, action, now))
  {
    hide Sound, Evolves, IntentTrail, NodeOfGate, GateIndex;
    StandsStill(s);
    var p := NodeOfGate(s.nodes, gateId);
    if p.Some? {
      var n := s.nodes[p.value];
      var intent := IntentAfterDecision(n.status, n.gates[GateIndex(n.gates, gateId).value], action);
      if intent.Ok? { IntentKept(s, n.key, intent.value, None, now); }
    }
  }

  /** Wherever a gate decision stops. */
  lemma DecisionKept(s: Session, gateId: string, action: DecisionAction, now: int)
    requires Sound(s)
    ensures KeptBy(s, DecisionTrail(s, gateId, action, now))
  {
    hide Keeping, Sound, Evolves, DecideGate, DecidedTrail;
    FromKept(s);
    DecideKeeping(gateId, action);
    var decided := From(s).Then(x => DecideGate(x, gateId, action));
    ThenKept(s, From(s), x => DecideGate(x, gateId, action));
    DecidedKept(decided.stored, gateId, action, now);
    FollowKept(s, decided, x => DecidedTrail(x, gateId, action, now));
  }

  lemma CompletionKept(s: Session)
    requires Sound(s)
    ensures KeptBy(s, CompletionTrail(s))
  {
    hide Keeping, KeptBy, Sound, EnsureRunning, MoveSession, Accepting;
    FromKept(s);
    SessionCallsKeeping(SessionCompleted);
    InARow(s, From(s), x => EnsureRunning(x), x => MoveSession(x, SessionCompleted), x => Accepting(x));
  }
}
