/** The orchestrator loop of one worker after another: recover, pick a ready node, open its execution, run it, report.
    A worker may die while it runs a node, and its lease may run out before it reports. */
module Driver {
  import opened Outcomes
  import opened States
  import opened Leases
  import opened Sessions
  import opened Graphs
  import opened Revisions
  import opened SessionRuns
  import opened SessionServices
  import opened ExecutionLeases
  import opened ControlKeeps
  import opened ControlSteps
  import opened WorkflowGraphs
  import Text

  datatype Beat = Beat(ttl: int, now: int)

  /** Everything the environment decides in one pass of the loop: clock readings, the fresh execution id, whether the
      worker takes a lease, what the harness reports, and what gate function and apply deriver answer. */
  datatype Pass = Pass(
    recoverAt: int,
    id: string,
    owner: Option<Request>,
    grantAt: int,
    beats: seq<Beat>,
    dies: bool,
    output: Output,
    error: Option<string>,
    gate: Option<Gate>,
    derived: Intent,
    newId: string,
    otherId: string,
    checkedAt: int,
    reportedAt: int)

  datatype Step =
    | Iterate(pass: Pass)
    | Decide(gateId: string, action: DecisionAction, at: int)
    | Cancel

  /** The session a step leaves behind, and the error it raised, if any. */
  datatype Taken = Taken(session: Session, error: Option<Error>)

  /** A step that raises leaves what its chain has stored by then. */
  function Settle(t: Trail): Taken { Taken(t.stored, t.error) }

  /** Heartbeats while the node runs; a refused one stores nothing. */
  function AfterBeats(s: Session, id: string, token: string, beats: seq<Beat>): Session {
    if beats == [] then s
    else
      var before := AfterBeats(s, id, token, beats[..|beats| - 1]);
      var r := HeartbeatLease(before, id, token, beats[|beats| - 1].ttl, beats[|beats| - 1].now);
      if r.Ok? then r.value else before
  }

  function Token(pass: Pass): Option<string> {
    if pass.owner.Some? then Some(pass.owner.value.Token()) else None
  }

  /** From the opened execution to the recorded decision. */
  function RunAndReport(s: Session, key: string, pass: Pass): Taken {
    var leased := if pass.owner.Some? then GrantLease(s, key, pass.id, pass.owner.value, pass.grantAt) else Ok(s);
    if leased.Err? then Taken(s, Some(leased.error))
    else
      var beaten := if pass.owner.Some? then AfterBeats(leased.value, pass.id, pass.owner.value.Token(), pass.beats)
        else leased.value;
      if pass.dies then Taken(beaten, None)
      else
        var report := Report(key, Some(pass.id), Token(pass), pass.output, pass.error);
        Settle(ReportTrail(beaten, report, pass.gate, pass.derived, pass.newId, pass.otherId, pass.checkedAt,
          pass.reportedAt))
  }

  /** Runs the first ready node, or records completion when there is none. */
  function ScheduleNext(bp: Blueprint, order: seq<string>, s: Session, pass: Pass): Taken {
    var ready := ReadyNodes(bp, order, s.nodes);
    if ready == [] then Settle(CompletionTrail(s))
    else
      var opening := ExecutionTrail(s, ready[0], pass.id);
      if opening.error.Some? then Settle(opening) else RunAndReport(opening.stored, ready[0], pass)
  }

  /** One pass of `run_session`. */
  function IterateOnce(bp: Blueprint, order: seq<string>, s: Session, pass: Pass): Taken {
    if IsTerminal(s.status) then Taken(s, None)
    else if s.status == WaitingGate then Taken(s, Some(RuntimeError))
    else ScheduleNext(bp, order, RecoverExpired(s, pass.recoverAt), pass)
  }

  function Take(bp: Blueprint, order: seq<string>, s: Session, step: Step): Taken {
    match step
    case Iterate(pass) => IterateOnce(bp, order, s, pass)
    case Decide(gateId, action, at) => Settle(DecisionTrail(s, gateId, action, at))
    case Cancel => Settle(From(s).Then(x => MoveSession(x, Cancelled)))
  }

  function StateAfter(bp: Blueprint, order: seq<string>, s: Session, steps: seq<Step>, k: nat): Session
    requires k <= |steps|
  {
    if k == 0 then s else Take(bp, order, StateAfter(bp, order, s, steps, k - 1), steps[k - 1]).session
  }

  // ---- between steps -----------------------------------------------------------------------

  ghost predicate OnePending(s: Session, p: nat) {
    p < |s.nodes| && Pending(s.nodes[p]) && forall q :: 0 <= q < |s.nodes| && q != p ==> Calm(s.nodes[q])
  }

  predicate Untouched(s: Session) {
    forall p :: 0 <= p < |s.nodes| ==> s.nodes[p].status == NodeQueued && s.nodes[p].attempts == []
  }

  ghost predicate NodesOf(bp: Blueprint, s: Session) {
    forall k :: k in Keys(bp) <==> Find(s.nodes, k).Some?
  }

  /** A running session has no node half-way: each is settled, or was left running by a worker that died or lost its
      lease. A waiting session has exactly one node that waits. */
  ghost predicate InOrder(s: Session) {
    match s.status
    case SessionQueued => Untouched(s)
    case SessionRunning => AllCalm(s)
    case WaitingGate => exists p :: OnePending(s, p)
    case Resuming => false
    case _ => true
  }

  ghost predicate AllCalm(s: Session) {
    forall p :: 0 <= p < |s.nodes| ==> Calm(s.nodes[p])
  }

  ghost predicate BetweenSteps(bp: Blueprint, s: Session) {
    Sound(s) && InOrder(s) && (IsTerminal(s.status) || NodesOf(bp, s))
  }

  /** What the environment guarantees: fresh execution ids, lease tokens without surrounding white space, decisions
      about a gate of the node that waits, and no cancellation of a session that is over. */
  predicate WellBehaved(s: Session, step: Step) {
    match step
    case Iterate(pass) =>
      && NodeOfAttempt(s.nodes, pass.id).None?
      && (pass.owner.Some? ==> Text.Strip(pass.owner.value.Token()) == pass.owner.value.Token())
    case Decide(gateId, _, _) =>
      s.status == WaitingGate && var p := NodeOfGate(s.nodes, gateId); p.Some? && s.nodes[p.value].status == PendingGate
    case Cancel => !IsTerminal(s.status)
  }

  // ---- recovery ----------------------------------------------------------------------------------

  lemma CalmRecovered(n: Node, now: int)
    requires Calm(n)
    ensures var m := RecoveredNode(n, now);
      && Calm(m) && SameIds(n, m)
      && (HasExpiredExecution(n, now) ==> m.status == NodeQueued && Settled(m))
      && (!HasExpiredExecution(n, now) ==> m == n)
  {
  }

  lemma {:induction false} IdsStayFresh(before: seq<Node>, after: seq<Node>, id: string)
    requires |after| == |before| && forall p :: 0 <= p < |before| ==> SameIds(before[p], after[p])
    requires NodeOfAttempt(before, id).None?
    ensures NodeOfAttempt(after, id).None?
  {
  }

  /** Recovery leaves every node calm, and puts those whose lease ran out back into the queue. */
  lemma {:induction false} RecoveryCalms(bp: Blueprint, s: Session, now: int, id: string)
    requires Sound(s) && AllCalm(s) && NodesOf(bp, s) && NodeOfAttempt(s.nodes, id).None?
    ensures var t := RecoverExpired(s, now);
      Sound(t) && AllCalm(t) && NodesOf(bp, t) && NodeOfAttempt(t.nodes, id).None? && t.status == s.status
  {
    hide Calm, Sound, Evolves, SameIds, RecoveredNode, Find, NodeOfAttempt, Keys;
    var t := RecoverExpired(s, now);
    CallKeeps(s, Call(now, RecoverOp));
    forall p | 0 <= p < |s.nodes|
      ensures Calm(t.nodes[p]) && SameIds(s.nodes[p], t.nodes[p]) && t.nodes[p].key == s.nodes[p].key
    {
      CalmRecovered(s.nodes[p], now);
      SameIdsKey(s.nodes[p], t.nodes[p]);
    }
    IdsStayFresh(s.nodes, t.nodes, id);
    NodesStay(bp, s, t);
  }

  lemma SameIdsKey(n: Node, m: Node)
    requires SameIds(n, m)
    ensures m.key == n.key
  {
  }

  lemma NodesStay(bp: Blueprint, s: Session, t: Session)
    requires NodesOf(bp, s) && |t.nodes| == |s.nodes| && forall p :: 0 <= p < |s.nodes| ==>
      t.nodes[p].key == s.nodes[p].key
    ensures NodesOf(bp, t)
  {
  }

  lemma UntouchedIsCalm(s: Session, now: int)
    requires Untouched(s)
    ensures AllCalm(s) && RecoverExpired(s, now) == s
  {
  }

  // ---- one execution --------------------------------------------------------------------------------

  /** The session while a worker runs node `p`: everything else is calm. */
  ghost predicate AtWork(bp: Blueprint, s: Session, p: nat, id: string, token: Option<string>) {
    && Sound(s) && NodesOf(bp, s) && s.status == SessionRunning && AllCalm(s)
    && Executing(s, p, id) && WorkerHolds(s.nodes[p], token)
  }

  /** Nothing but the open attempt of node `p` has changed. */
  predicate LeaseOnly(s: Session, t: Session, p: nat) {
    |t.nodes| == |s.nodes| && p < |s.nodes| && t.nodes == s.nodes[p := t.nodes[p]] && t.nodes[p].key == s.nodes[p].key
  }

  lemma LeaseChanged(bp: Blueprint, s: Session, p: nat, id: string, token: Option<string>, l: Lease,
                     after: Option<string>)
    requires AtWork(bp, s, p, id, token) && Sound(Put(s, p, WithLease(s.nodes[p], l)))
    requires WorkerHolds(WithLease(s.nodes[p], l), after)
    ensures AtWork(bp, Put(s, p, WithLease(s.nodes[p], l)), p, id, after)
  {
    LeaseKeepsExecuting(s, p, id, l);
    hide Names, Find, Keys, Sound, WorkerHolds, OnlyLatestRunning, Settled;
    NodesStay(bp, s, Put(s, p, WithLease(s.nodes[p], l)));
  }

  lemma GrantGives(n: Node, req: Request, now: int)
    requires LatestRunning(n) && Text.Strip(req.Token()) == req.Token()
    ensures var r := Grant(Latest(n).lease, true, req, now);
      if r.Ok? then WorkerHolds(WithLease(n, r.value), Some(req.Token())) else r.error == LeaseError
  {
    hide Text.Strip, IsLive;
  }

  lemma LatestIsSound(s: Session, p: nat)
    requires Sound(s) && p < |s.nodes| && LatestRunning(s.nodes[p])
    ensures Latest(s.nodes[p]).nodeKey == s.nodes[p].key
  {
  }

  /** A worker that asks for a lease gets it, unless its request is malformed. */
  lemma LeaseTaken(bp: Blueprint, s: Session, p: nat, id: string, req: Request, now: int)
    requires AtWork(bp, s, p, id, None) && Text.Strip(req.Token()) == req.Token()
    ensures var r := GrantLease(s, s.nodes[p].key, id, req, now);
      if r.Ok? then LeaseOnly(s, r.value, p) && AtWork(bp, r.value, p, id, Some(req.Token())) else r == Err(LeaseError)
  {
    var n := s.nodes[p];
    var change := (a: Attempt) => if a.nodeKey != n.key then Err(LeaseError)
      else Grant(a.lease, a.status == AttemptRunning, req, now);
    LatestIsSound(s, p);
    OnLeaseAt(s, p, id, change);
    hide Names, Find, Keys, Sound, OnLease, NoneRunning, Settled, Text.Strip, Grant, WorkerHolds;
    GrantGives(n, req, now);
    assert GrantLease(s, n.key, id, req, now) == OnLease(s, id, change);
    if change(Latest(n)).Ok? {
      GrantSound(s, n.key, id, req, now);
      LeaseChanged(bp, s, p, id, None, change(Latest(n)).value, Some(req.Token()));
    }
  }

  lemma GrantSound(s: Session, key: string, id: string, req: Request, now: int)
    requires Sound(s)
    ensures GrantLease(s, key, id, req, now).Ok? ==> Sound(GrantLease(s, key, id, req, now).value)
  {
    hide Sound, Evolves, OnLease;
    CallKeeps(s, Call(now, GrantLeaseOp(key, id, req)));
  }

  lemma {:induction false} BeatsKeep(bp: Blueprint, s: Session, p: nat, id: string, token: string, beats: seq<Beat>)
    requires AtWork(bp, s, p, id, Some(token))
    ensures var t := AfterBeats(s, id, token, beats);
      AtWork(bp, t, p, id, Some(token)) && LeaseOnly(s, t, p)
  {
    if beats != [] {
      var before := AfterBeats(s, id, token, beats[..|beats| - 1]);
      BeatsKeep(bp, s, p, id, token, beats[..|beats| - 1]);
      BeatKeeps(bp, before, p, id, token, beats[|beats| - 1]);
      hide AtWork, HeartbeatLease;
    }
  }

  lemma BeatKeeps(bp: Blueprint, s: Session, p: nat, id: string, token: string, beat: Beat)
    requires AtWork(bp, s, p, id, Some(token))
    ensures var r := HeartbeatLease(s, id, token, beat.ttl, beat.now);
      r.Ok? ==> AtWork(bp, r.value, p, id, Some(token)) && LeaseOnly(s, r.value, p)
  {
    var n := s.nodes[p];
    var change := (a: Attempt) => Heartbeat(a.lease, a.status == AttemptRunning, token, beat.ttl, beat.now);
    OnLeaseAt(s, p, id, change);
    CallKeeps(s, Call(beat.now, HeartbeatLeaseOp(id, token, beat.ttl)));
    hide Names, Find, Keys, Sound, OnLease, OnlyLatestRunning, Settled, Text.Strip, MayUse;
    if change(Latest(n)).Ok? {
      LeaseChanged(bp, s, p, id, Some(token), change(Latest(n)).value, Some(token));
    }
  }

  /** A step changed node `p` only, unless it ended the session. */
  predicate OnlyAt(s: Session, t: Session, p: nat) {
    t.status == SessionFailed || (|t.nodes| == |s.nodes| && p < |s.nodes| && t.nodes == s.nodes[p := t.nodes[p]])
  }

  /** Nobody is left working on a node. */
  predicate AtRest(s: Session) {
    forall p :: 0 <= p < |s.nodes| ==> s.nodes[p].status != NodeRunning
  }

  lemma LeftIsBetween(bp: Blueprint, s: Session, t: Session, p: nat)
    requires NodesOf(bp, s) && Sound(t) && LeftBy(s, t, p)
    requires forall q :: 0 <= q < |s.nodes| && q != p ==> Calm(s.nodes[q])
    ensures BetweenSteps(bp, t) && OnlyAt(s, t, p)
    ensures t.status != SessionFailed ==> t.nodes[p].status != NodeRunning
  {
    hide Sound, Keys, Find, OnlyLatestRunning, NoneRunning;
    if t.status != SessionFailed {
      NodesStay(bp, s, t);
      if t.status == WaitingGate { assert OnePending(t, p); }
    }
  }

  lemma ReportEnds(bp: Blueprint, s: Session, p: nat, pass: Pass)
    requires AtWork(bp, s, p, pass.id, Token(pass))
    ensures var report := Report(s.nodes[p].key, Some(pass.id), Token(pass), pass.output, pass.error);
      var o := Settle(ReportTrail(s, report, pass.gate, pass.derived, pass.newId, pass.otherId, pass.checkedAt,
        pass.reportedAt));
      && BetweenSteps(bp, o.session) && OnlyAt(s, o.session, p)
      && (o.error == None || o.error == Some(LeaseError))
      && (o.error == None && o.session.status != SessionFailed ==> o.session.nodes[p].status != NodeRunning)
  {
    hide Names, WorkerHolds, LeftBy, ReportTrail, IsLive, Find, Keys, OnlyLatestRunning, Settled;
    var report := Report(s.nodes[p].key, Some(pass.id), Token(pass), pass.output, pass.error);
    assert UniqueKeys(s.nodes);
    ReportLeaves(s, p, pass.id, Token(pass), report, pass.gate, pass.derived, pass.newId, pass.otherId,
      pass.checkedAt, pass.reportedAt);
    ReportKept(s, report, pass.gate, pass.derived, pass.newId, pass.otherId, pass.checkedAt, pass.reportedAt);
    var t := ReportTrail(s, report, pass.gate, pass.derived, pass.newId, pass.otherId, pass.checkedAt, pass.reportedAt);
    hide Sound;
    if t.error == None { LeftIsBetween(bp, s, t.stored, p); }
  }

  lemma WorkInOrder(bp: Blueprint, s: Session, p: nat, id: string, token: Option<string>)
    requires AtWork(bp, s, p, id, token)
    ensures BetweenSteps(bp, s) && p < |s.nodes|
  {
  }

  /** Whatever happens while a worker runs a node, it never runs into an illegal move: it dies, or its lease runs out,
      and the node is left open; or its report goes through. */
  lemma WorkEnds(bp: Blueprint, s: Session, p: nat, pass: Pass)
    requires AtWork(bp, s, p, pass.id, None)
    requires pass.owner.Some? ==> Text.Strip(pass.owner.value.Token()) == pass.owner.value.Token()
    ensures var o := RunAndReport(s, s.nodes[p].key, pass);
      && BetweenSteps(bp, o.session) && OnlyAt(s, o.session, p)
      && (o.error == None || o.error == Some(LeaseError))
      && (o.error == None && !pass.dies && o.session.status != SessionFailed ==>
        o.session.nodes[p].status != NodeRunning)
  {
    hide AtWork, AfterBeats, GrantLease, ReportTrail;
    WorkInOrder(bp, s, p, pass.id, None);
    if pass.owner.Some? {
      var req := pass.owner.value;
      LeaseTaken(bp, s, p, pass.id, req, pass.grantAt);
      var leased := GrantLease(s, s.nodes[p].key, pass.id, req, pass.grantAt);
      if leased.Ok? {
        BeatsKeep(bp, leased.value, p, pass.id, req.Token(), pass.beats);
        var beaten := AfterBeats(leased.value, pass.id, req.Token(), pass.beats);
        WorkInOrder(bp, beaten, p, pass.id, Some(req.Token()));
        ReportEnds(bp, beaten, p, pass);
      }
    } else {
      ReportEnds(bp, s, p, pass);
    }
  }

  // ---- one step -----------------------------------------------------------------------------------

  /** The node the loop picks is queued, and nobody works on it. */
  lemma PickedQueued(bp: Blueprint, order: seq<string>, s: Session) returns (p: nat)
    requires AllCalm(s) && ReadyNodes(bp, order, s.nodes) != []
    ensures p < |s.nodes| && s.nodes[p].key == ReadyNodes(bp, order, s.nodes)[0]
    ensures Settled(s.nodes[p]) && s.nodes[p].status == NodeQueued
  {
    hide IsCompleted;
    var key := ReadyNodes(bp, order, s.nodes)[0];
    assert key in ReadyNodes(bp, order, s.nodes);
    hide ReadyNodes;
    p := Find(s.nodes, key).value;
    hide Find;
    assert Calm(s.nodes[p]);
  }

  /** Its execution opens. */
  lemma {:induction false} OpenedIsWork(bp: Blueprint, s: Session, p: nat, id: string)
    requires Sound(s) && NodesOf(bp, s) && AllCalm(s) && s.status in {SessionQueued, SessionRunning}
    requires p < |s.nodes| && Settled(s.nodes[p]) && s.nodes[p].status == NodeQueued && NodeOfAttempt(s.nodes, id).None?
    ensures var t := ExecutionTrail(s, s.nodes[p].key, id);
      t.error == None && AtWork(bp, t.stored, p, id, None) && LeaseOnly(s, t.stored, p)
  {
    assert UniqueKeys(s.nodes);
    hide Keys, NodeOfAttempt, ExecutionTrail, Names, Sound, Evolves, NoneRunning, Find, AllCalm, NodesOf;
    OpensExecution(s, p, id);
    OpenExecutionKept(s, s.nodes[p].key, id);
    var n := s.nodes[p];
    var m := n.(status := NodeRunning, attempts := n.attempts + [FreshAttempt(n, id)]);
    assert Calm(m) by { assert Executing(Put(s, p, m).(status := SessionRunning), p, id); }
    hide Busy, Settled, Calm;
    OneMoreCalm(bp, s, p, m);
  }

  lemma OneMoreCalm(bp: Blueprint, s: Session, p: nat, m: Node)
    requires AllCalm(s) && NodesOf(bp, s) && p < |s.nodes| && Calm(m) && m.key == s.nodes[p].key
    ensures var t := Put(s, p, m).(status := SessionRunning); AllCalm(t) && NodesOf(bp, t) && LeaseOnly(s, t, p)
  {
    hide Calm, NodesOf;
    NodesStay(bp, s, Put(s, p, m).(status := SessionRunning));
  }

  /** The node the loop picks is queued, and its execution opens. */
  lemma PickedOpens(bp: Blueprint, order: seq<string>, s: Session, id: string) returns (p: nat)
    requires Sound(s) && NodesOf(bp, s) && AllCalm(s) && s.status in {SessionQueued, SessionRunning}
    requires ReadyNodes(bp, order, s.nodes) != [] && NodeOfAttempt(s.nodes, id).None?
    ensures p < |s.nodes| && s.nodes[p].key == ReadyNodes(bp, order, s.nodes)[0]
    ensures Settled(s.nodes[p]) && s.nodes[p].status == NodeQueued
    ensures var t := ExecutionTrail(s, s.nodes[p].key, id);
      t.error == None && AtWork(bp, t.stored, p, id, None) && LeaseOnly(s, t.stored, p)
  {
    p := PickedQueued(bp, order, s);
    OpenedIsWork(bp, s, p, id);
    hide *;
  }

  /** When no node is ready the session is running, and its completion is recorded. */
  lemma {:induction false} NothingLeft(bp: Blueprint, order: seq<string>, s: Session)
    requires Topological(bp, order) && bp != [] && Sound(s) && NodesOf(bp, s)
    requires ReadyNodes(bp, order, s.nodes) == [] && s.status in {SessionQueued, SessionRunning}
    requires s.status == SessionQueued ==> Untouched(s)
    ensures s.status == SessionRunning && CompletionTrail(s).error == None
    ensures CompletionTrail(s).stored.status == SessionCompleted
    ensures Sound(CompletionTrail(s).stored)
  {
    hide Find, ReadyNodes;
    assert bp[0].key in Keys(bp);
    assert order != [];
    if s.status == SessionQueued {
      SomethingReady(bp, order, s.nodes);
    }
    CompletionKept(s);
  }

  lemma ScheduleSafe(bp: Blueprint, order: seq<string>, s: Session, pass: Pass)
    requires Topological(bp, order) && bp != [] && Sound(s) && NodesOf(bp, s) && AllCalm(s)
    requires s.status in {SessionQueued, SessionRunning}
    requires s.status == SessionQueued ==> Untouched(s)
    requires WellBehaved(s, Iterate(pass))
    ensures var o := ScheduleNext(bp, order, s, pass);
      && BetweenSteps(bp, o.session) && (o.error == None || o.error == Some(LeaseError))
      && (AtRest(s) && !pass.dies && o.error == None ==> AtRest(o.session) || IsTerminal(o.session.status))
  {
    hide Sound, AllCalm, NodesOf, Topological, ReadyNodes, NodeOfAttempt, Text.Strip, Untouched, RunAndReport, AtWork,
         BetweenSteps, CompletionTrail, ExecutionTrail;
    if ReadyNodes(bp, order, s.nodes) == [] {
      NothingLeft(bp, order, s);
      EndedInOrder(bp, CompletionTrail(s).stored);
    } else {
      var p := PickedOpens(bp, order, s, pass.id);
      WorkEnds(bp, ExecutionTrail(s, s.nodes[p].key, pass.id).stored, p, pass);
    }
  }

  lemma EndedInOrder(bp: Blueprint, s: Session)
    requires Sound(s) && IsTerminal(s.status)
    ensures BetweenSteps(bp, s)
  {
  }

  lemma IterateSafe(bp: Blueprint, order: seq<string>, s: Session, pass: Pass)
    requires Topological(bp, order) && bp != [] && BetweenSteps(bp, s) && WellBehaved(s, Iterate(pass))
    ensures var o := IterateOnce(bp, order, s, pass);
      && BetweenSteps(bp, o.session) && (o.error == None || o.error == Some(LeaseError)
        || o.error == Some(RuntimeError))
      && (AtRest(s) && !pass.dies && o.error == None ==> AtRest(o.session) || IsTerminal(o.session.status))
  {
    if s.status in {SessionQueued, SessionRunning} {
      if s.status == SessionQueued { UntouchedIsCalm(s, pass.recoverAt); }
      RecoveryCalms(bp, s, pass.recoverAt, pass.id);
      hide Sound, NodesOf, Topological, NodeOfAttempt, Text.Strip, Untouched, ScheduleNext, BetweenSteps, Calm,
           RecoverExpired, AtRest;
      if AtRest(s) { RestRecovers(s, pass.recoverAt); }
      ScheduleSafe(bp, order, RecoverExpired(s, pass.recoverAt), pass);
    }
  }

  lemma PendingAt(s: Session, p: nat, q: nat)
    requires OnePending(s, p) && q < |s.nodes| && s.nodes[q].status == PendingGate
    ensures p == q
  {
  }

  lemma DecideSafe(bp: Blueprint, s: Session, gateId: string, action: DecisionAction, at: int)
    requires BetweenSteps(bp, s) && WellBehaved(s, Decide(gateId, action, at))
    ensures var t := DecisionTrail(s, gateId, action, at);
      t.error == None && BetweenSteps(bp, t.stored) && t.stored.status != WaitingGate
  {
    var p :| OnePending(s, p);
    var q := NodeOfGate(s.nodes, gateId).value;
    PendingAt(s, p, q);
    assert UniqueKeys(s.nodes);
    DecisionLeaves(s, p, gateId, action, at);
    DecisionKept(s, gateId, action, at);
    hide Sound, DecisionTrail, NodeOfGate, Pending, Keys;
    LeftIsBetween(bp, s, DecisionTrail(s, gateId, action, at).stored, p);
  }

  /** No step of the orchestrator is ever an illegal transition, and every step leaves the session in order. */
  lemma StepSafe(bp: Blueprint, order: seq<string>, s: Session, step: Step)
    requires Topological(bp, order) && bp != [] && BetweenSteps(bp, s) && WellBehaved(s, step)
    ensures var o := Take(bp, order, s, step); BetweenSteps(bp, o.session) && o.error != Some(InvalidTransition)
  {
    hide IterateOnce, DecisionTrail, Topological, BetweenSteps, MoveSession, NodeOfAttempt, NodeOfGate;
    match step
    case Iterate(pass) => IterateSafe(bp, order, s, pass);
    case Decide(gateId, action, at) => DecideSafe(bp, s, gateId, action, at);
    case Cancel => CancelSafe(bp, s);
  }

  lemma CancelSafe(bp: Blueprint, s: Session)
    requires BetweenSteps(bp, s) && !IsTerminal(s.status)
    ensures var r := MoveSession(s, Cancelled); r.Ok? && BetweenSteps(bp, r.value)
  {
  }

  // ---- runs -----------------------------------------------------------------------------------------

  ghost predicate RunWellBehaved(bp: Blueprint, order: seq<string>, s: Session, steps: seq<Step>) {
    forall k :: 0 <= k < |steps| ==> WellBehaved(StateAfter(bp, order, s, steps, k), steps[k])
  }

  lemma NewSessionInOrder(bp: Blueprint, keys: seq<string>)
    requires forall k :: k in keys <==> k in Keys(bp)
    ensures BetweenSteps(bp, Create(keys))
  {
    hide Sound, Keys, Find;
    NewSessionSound(keys);
    AppendNewUnique([], keys);
    var nodes := AppendNew([], keys);
    forall k ensures Find(nodes, k).Some? <==> k in keys {
      var p := Find(nodes, k);
      if p.Some? { assert nodes[p.value].key in keys; }
    }
  }

  /** From a new session of a non-empty workflow, over every run of the orchestrator, whatever members, gates, derivers,
      humans and crashes do: no step is an illegal transition, and between steps a running session has no node half-way
      and a waiting one has exactly one node that waits, with its one open execution owned by nobody. */
  lemma {:induction false} RunSafe(bp: Blueprint, order: seq<string>, keys: seq<string>, steps: seq<Step>, k: nat)
    requires Topological(bp, order) && bp != [] && (forall n :: n in keys <==> n in Keys(bp))
    requires RunWellBehaved(bp, order, Create(keys), steps) && k <= |steps|
    ensures BetweenSteps(bp, StateAfter(bp, order, Create(keys), steps, k))
    ensures forall j :: 0 <= j < k ==>
      Take(bp, order, StateAfter(bp, order, Create(keys), steps, j), steps[j]).error != Some(InvalidTransition)
  {
    hide Topological, Keys, Take, BetweenSteps, WellBehaved, Create;
    if k == 0 {
      NewSessionInOrder(bp, keys);
    } else {
      RunSafe(bp, order, keys, steps, k - 1);
      StepSafe(bp, order, StateAfter(bp, order, Create(keys), steps, k - 1), steps[k - 1]);
    }
  }

  // ---- runs without crashes ---------------------------------------------------------------------------

  predicate Quiet(step: Step) {
    step.Iterate? ==> !step.pass.dies
  }

  lemma RestRecovers(s: Session, now: int)
    requires AtRest(s)
    ensures RecoverExpired(s, now) == s
  {
  }

  lemma DecideRests(bp: Blueprint, s: Session, gateId: string, action: DecisionAction, at: int)
    requires BetweenSteps(bp, s) && WellBehaved(s, Decide(gateId, action, at)) && AtRest(s)
    ensures DecisionTrail(s, gateId, action, at).error == None
    ensures var t := DecisionTrail(s, gateId, action, at).stored; AtRest(t) || IsTerminal(t.status)
  {
    var p :| OnePending(s, p);
    var q := NodeOfGate(s.nodes, gateId).value;
    PendingAt(s, p, q);
    assert UniqueKeys(s.nodes);
    DecisionLeaves(s, p, gateId, action, at);
    hide Sound, DecisionTrail, NodeOfGate, Pending, Keys, NoneRunning;
  }

  /** As long as no worker dies and no step raises, nobody is ever left working on a node between steps. */
  lemma {:induction false} QuietRunRests(bp: Blueprint, order: seq<string>, keys: seq<string>, steps: seq<Step>, k: nat)
    requires Topological(bp, order) && bp != [] && (forall n :: n in keys <==> n in Keys(bp))
    requires RunWellBehaved(bp, order, Create(keys), steps) && k <= |steps|
    requires forall j :: 0 <= j < k ==>
      Quiet(steps[j]) && Take(bp, order, StateAfter(bp, order, Create(keys), steps, j), steps[j]).error == None
    ensures var t := StateAfter(bp, order, Create(keys), steps, k);
      && BetweenSteps(bp, t) && (AtRest(t) || IsTerminal(t.status))
      && (t.status == SessionRunning ==> forall p :: 0 <= p < |t.nodes| ==> Settled(t.nodes[p]))
      && (t.status == WaitingGate ==> exists p :: OnlyPending(t, p))
  {
    hide Topological, Keys, Take, WellBehaved, Create, BetweenSteps, AtRest, Settled, IsTerminal, OnlyPending;
    RunSafe(bp, order, keys, steps, k);
    if k == 0 {
      NewSessionRests(keys);
    } else {
      QuietRunRests(bp, order, keys, steps, k - 1);
      StepRests(bp, order, StateAfter(bp, order, Create(keys), steps, k - 1), steps[k - 1]);
      RestIsSettled(bp, StateAfter(bp, order, Create(keys), steps, k));
    }
  }

  lemma NewSessionRests(keys: seq<string>)
    ensures AtRest(Create(keys)) && Create(keys).status == SessionQueued
  {
  }

  lemma RestIsSettled(bp: Blueprint, s: Session)
    requires BetweenSteps(bp, s) && (AtRest(s) || IsTerminal(s.status))
    ensures s.status == SessionRunning ==> forall p :: 0 <= p < |s.nodes| ==> Settled(s.nodes[p])
    ensures s.status == WaitingGate ==> exists p :: OnlyPending(s, p)
  {
    hide Sound, NodesOf, NoneRunning, OnlyLatestRunning;
    if s.status == WaitingGate {
      var p :| OnePending(s, p);
      assert OnlyPending(s, p);
    }
  }

  /** One node waits, and nobody is at work on any other. */
  ghost predicate OnlyPending(s: Session, p: nat) {
    p < |s.nodes| && Pending(s.nodes[p]) && forall q :: 0 <= q < |s.nodes| && q != p ==> Settled(s.nodes[q])
  }

  lemma StepRests(bp: Blueprint, order: seq<string>, s: Session, step: Step)
    requires Topological(bp, order) && bp != [] && BetweenSteps(bp, s) && WellBehaved(s, step) && Quiet(step)
    requires (AtRest(s) || IsTerminal(s.status)) && Take(bp, order, s, step).error == None
    ensures var t := Take(bp, order, s, step).session; AtRest(t) || IsTerminal(t.status)
  {
    hide DecisionTrail, Topological, BetweenSteps, NodeOfAttempt, NodeOfGate, RunAndReport, ExecutionTrail;
    match step
    case Iterate(pass) =>
      IterateSafe(bp, order, s, pass);
    case Decide(gateId, action, at) => DecideRests(bp, s, gateId, action, at);
    case Cancel =>
  }

  // ---- what a recorded completion is worth -----------------------------------------------------------

  /** Left running by a worker that died without a lease, or whose lease has not run out yet. */
  predicate Stranded(n: Node, now: int) {
    n.status == NodeRunning && !HasExpiredExecution(n, now)
  }

  /** When the loop finds nothing ready in a running session, whatever state it is in, it records the session as
      completed; every node of the workflow is completed then if and only if, after recovery, each of them is queued or
      completed. */
  lemma {:induction false} CompletionExact(bp: Blueprint, order: seq<string>, s: Session, pass: Pass)
    requires Topological(bp, order) && UniqueKeys(s.nodes) && s.status == SessionRunning
    requires ReadyNodes(bp, order, RecoverExpired(s, pass.recoverAt).nodes) == []
    ensures var o := IterateOnce(bp, order, s, pass);
      && o.error == None && o.session.status == SessionCompleted
      && |o.session.nodes| == |s.nodes| && (forall p :: 0 <= p < |s.nodes| ==>
           o.session.nodes[p].key == s.nodes[p].key && o.session.nodes[p].status
             == RecoveredNode(s.nodes[p], pass.recoverAt).status)
      && ((forall k :: k in Keys(bp) ==> IsCompleted(o.session.nodes, k))
        <==> Unhindered(bp, RecoverExpired(s, pass.recoverAt).nodes))
  {
    var recovered := RecoverExpired(s, pass.recoverAt);
    CompletionKeepsNodes(recovered);
    CompletedIff(bp, order, recovered.nodes);
    hide Unhindered, ReadyNodes, IsCompleted, Unleased, RecoveredNode;
  }

  /** Between steps: every node is completed if and only if no node is stranded. An execution whose worker died without
      a lease is never recovered, and one whose lease has yet to run out is not waited for. */
  lemma {:induction false} CompletionSound(bp: Blueprint, order: seq<string>, s: Session, pass: Pass)
    requires Topological(bp, order) && BetweenSteps(bp, s) && NodeOfAttempt(s.nodes, pass.id).None?
    requires s.status == SessionRunning && ReadyNodes(bp, order, RecoverExpired(s, pass.recoverAt).nodes) == []
    ensures var o := IterateOnce(bp, order, s, pass);
      && o.error == None && o.session.status == SessionCompleted
      && ((forall k :: k in Keys(bp) ==> IsCompleted(o.session.nodes, k)) <==> forall p :: 0 <= p < |s.nodes| ==>
        !Stranded(s.nodes[p], pass.recoverAt))
  {
    var recovered := RecoverExpired(s, pass.recoverAt);
    RecoveryCalms(bp, s, pass.recoverAt, pass.id);
    StrandedStay(s, pass.recoverAt);
    assert UniqueKeys(s.nodes) && UniqueKeys(recovered.nodes);
    CompletionExact(bp, order, s, pass);
    RestIsUnhindered(bp, recovered);
    hide Sound, RecoverExpired, Stranded, ReadyNodes, IterateOnce, Unhindered, AtRest;
  }

  lemma RestIsUnhindered(bp: Blueprint, s: Session)
    requires UniqueKeys(s.nodes) && NodesOf(bp, s) && AllCalm(s)
    ensures Unhindered(bp, s.nodes) <==> AtRest(s)
  {
    hide Keys, Find, NoneRunning, OnlyLatestRunning;
    if !AtRest(s) {
      var p :| 0 <= p < |s.nodes| && s.nodes[p].status == NodeRunning;
      FindUnique(s.nodes, p);
      assert s.nodes[p].key in Keys(bp);
    }
  }

  lemma StrandedStay(s: Session, now: int)
    requires AllCalm(s)
    ensures AtRest(RecoverExpired(s, now)) <==> forall p :: 0 <= p < |s.nodes| ==> !Stranded(s.nodes[p], now)
  {
    hide Calm, HasExpiredExecution, RecoveredNode;
    var t := RecoverExpired(s, now);
    forall p | 0 <= p < |s.nodes| ensures t.nodes[p].status == NodeRunning <==> Stranded(s.nodes[p], now) {
      CalmRecovered(s.nodes[p], now);
    }
  }

  lemma CompletionKeepsNodes(s: Session)
    requires s.status == SessionRunning
    ensures forall k :: IsCompleted(CompletionTrail(s).stored.nodes, k) <==> IsCompleted(s.nodes, k)
  {
    hide Unleased;
    var t := CompletionTrail(s).stored;
    forall k ensures IsCompleted(t.nodes, k) <==> IsCompleted(s.nodes, k) {
      if IsCompleted(s.nodes, k) {
        var p :| 0 <= p < |s.nodes| && s.nodes[p].key == k && s.nodes[p].status == NodeCompleted;
        assert t.nodes[p].key == k;
      }
    }
  }

  /** The proviso that the workflow has a node is needed: the loop asks to complete an empty session that never ran. */
  lemma EmptyWorkflowRefused(pass: Pass)
    ensures IterateOnce([], [], Create([]), pass).error == Some(InvalidTransition)
  {
    assert RecoverExpired(Create([]), pass.recoverAt).nodes == [];
  }

  /** A node that waits or has failed is forgotten when its worker died before the session was told. */
  lemma {:induction false} HalfWayIsMissed(bp: Blueprint, order: seq<string>, s: Session, p: nat, pass: Pass)
    requires Topological(bp, order) && UniqueKeys(s.nodes) && s.status == SessionRunning
    requires p < |s.nodes| && s.nodes[p].key in Keys(bp) && s.nodes[p].status in {PendingGate, NodeFailed}
    requires ReadyNodes(bp, order, RecoverExpired(s, pass.recoverAt).nodes) == []
    ensures var o := IterateOnce(bp, order, s, pass);
      && o.error == None && o.session.status == SessionCompleted
      && |o.session.nodes| == |s.nodes| && o.session.nodes[p].status == s.nodes[p].status
      && !forall k :: k in Keys(bp) ==> IsCompleted(o.session.nodes, k)
  {
    CompletionExact(bp, order, s, pass);
    FindUnique(RecoverExpired(s, pass.recoverAt).nodes, p);
    hide Find, ReadyNodes, IterateOnce, Keys, IsCompleted;
  }

  /** The proviso that workers die only while a node runs is needed as well. A worker that dies in the pause chain,
      after the node was put to wait and before the session was, leaves a running session; a pass that finds nothing
      ready records it as completed, with the gate undecided. */
  lemma {:induction false} TornPauseIsMissed(bp: Blueprint, order: seq<string>, s: Session, p: nat, id: string,
                                             token: Option<string>, gate: Gate, report: Report, now: int, pass: Pass)
    requires Topological(bp, order) && UniqueKeys(s.nodes) && s.status == SessionRunning && Executing(s, p, id)
    requires WorkerHolds(s.nodes[p], token)
    requires report.executionId == Some(id) && report.token == token && s.nodes[p].key in Keys(bp)
    ensures var torn := PausedTrail(s, s.nodes[p].key, gate, Some(report), now);
      && torn.error == None
      && (ReadyNodes(bp, order, RecoverExpired(torn.stored, pass.recoverAt).nodes) == [] ==>
            var o := IterateOnce(bp, order, torn.stored, pass);
            && o.error == None && o.session.status == SessionCompleted
            && |o.session.nodes| == |s.nodes| && o.session.nodes[p].status == PendingGate)
  {
    PausedNode(s, p, id, token, gate, report, now);
    hide Names, WorkerHolds, PausedTrail, IterateOnce, ReadyNodes, Keys, RecoverExpired, Topological;
    var torn := PausedTrail(s, s.nodes[p].key, gate, Some(report), now).stored;
    PutUnique(s, p, torn.nodes[p]);
    if ReadyNodes(bp, order, RecoverExpired(torn, pass.recoverAt).nodes) == [] {
      HalfWayIsMissed(bp, order, torn, p, pass);
    }
  }

  /** The same in the fail chain: the node has failed, and the session is recorded as completed. */
  lemma {:induction false} TornFailIsMissed(bp: Blueprint, order: seq<string>, s: Session, p: nat, error: string,
                                            now: int, pass: Pass)
    requires Topological(bp, order) && UniqueKeys(s.nodes) && s.status == SessionRunning
    requires p < |s.nodes| && Busy(s.nodes[p]) && s.nodes[p].key in Keys(bp)
    ensures var torn := FailUnlessFailed(s, s.nodes[p].key, error, now);
      && torn.Ok?
      && (ReadyNodes(bp, order, RecoverExpired(torn.value, pass.recoverAt).nodes) == [] ==>
            var o := IterateOnce(bp, order, torn.value, pass);
            && o.error == None && o.session.status == SessionCompleted
            && |o.session.nodes| == |s.nodes| && o.session.nodes[p].status == NodeFailed)
  {
    var n := s.nodes[p];
    BusyEnds(n, None, error, now);
    OnNodeAt(s, p, (m: Node) => Failed(m, error, now));
    FindUnique(s.nodes, p);
    var failed := Failed(n, error, now).value;
    PutUnique(s, p, failed);
    hide Find, OnNode, Failed, IterateOnce, ReadyNodes, Keys, RecoverExpired, Topological, UniqueKeys;
    var torn := FailUnlessFailed(s, n.key, error, now).value;
    if ReadyNodes(bp, order, RecoverExpired(torn, pass.recoverAt).nodes) == [] {
      HalfWayIsMissed(bp, order, torn, p, pass);
    }
  }
}
