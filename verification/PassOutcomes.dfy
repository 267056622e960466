/** What one pass of the orchestrator loop comes to, said of the session before and after it and of what the environment
    did meanwhile, without following the loop. */
module PassOutcomes {
  import opened Outcomes
  import opened States
  import opened Leases
  import opened Sessions
  import opened Graphs
  import opened Revisions
  import opened SessionRuns
  import opened SessionServices
  import opened ExecutionLeases
  import opened ControlSteps
  import opened WorkflowGraphs
  import opened Driver
  import Text

  // ---- what a pass is meant to do ------------------------------------------------------------

  /** What has to be done with the node: an error the harness reported fails it; otherwise the gate decides if it asks
      for a decision or blocks; otherwise the deriver does. */
  function IntentOf(pass: Pass): Intent {
    if pass.error.Some? && pass.error.value != "" then Fail(pass.error.value)
    else if pass.gate.Some? && pass.gate.value.outcome == RequiresDecision then Pause(pass.gate.value)
    else if pass.gate.Some? && pass.gate.value.outcome == Block then Fail("gate " + pass.gate.value.name + " BLOCK")
    else pass.derived
  }

  /** The output of the execution, of which a failed one leaves none. */
  function OutputOf(pass: Pass): Output {
    if pass.error.Some? && pass.error.value != "" then map[] else pass.output
  }

  /** The heartbeats that come in time extend the lease. */
  function Extended(l: Lease, beats: seq<Beat>): Lease {
    if beats == [] then l
    else
      var earlier, beat := Extended(l, beats[..|beats| - 1]), beats[|beats| - 1];
      if InForce(earlier, beat.now) && beat.ttl > 0 then
        earlier.(heartbeatAt := Some(beat.now), expiresAt := Some(beat.now + beat.ttl))
      else earlier
  }

  /** The lease the worker holds when it comes to report. */
  function LeaseOf(pass: Pass): Lease {
    match pass.owner
    case None => NO_LEASE
    case Some(req) =>
      Extended(Lease(Some(req.Token()), Some(Text.Strip(req.owner)), Some(pass.grantAt), Some(pass.grantAt + req.ttl)),
        pass.beats)
  }

  /** A worker without a lease always may report. */
  predicate InTime(pass: Pass) {
    pass.owner.Some? ==> Proper(pass.owner.value) && InForce(LeaseOf(pass), pass.checkedAt)
  }

  /** The node with its execution opened. */
  function Opened(n: Node, id: string): Node {
    n.(status := NodeRunning,
       attempts := n.attempts + [Attempt(id, n.key, |n.attempts| + 1, AttemptRunning, None, map[], None, NO_LEASE)])
  }

  /** What running node `p` of a session comes to: nothing has happened but that its execution is open, under the lease
      the worker holds by now, if the worker dies or is not in time; otherwise what has to be done with it is done. */
  ghost predicate RanNode(s: Session, p: nat, pass: Pass, o: Taken)
    requires p < |s.nodes|
  {
    var open := Opened(s.nodes[p], pass.id);
    if pass.dies && (pass.owner.Some? ==> Proper(pass.owner.value)) then
      o == Taken(Running(s, p, WithLease(open, LeaseOf(pass))), None)
    else if !InTime(pass) then
      && o.error == Some(LeaseError)
      && o.session == Running(s, p, if Proper(pass.owner.value) then WithLease(open, LeaseOf(pass)) else open)
    else
      && o.error == None && o.session.status == StatusAfter(IntentOf(pass))
      && OthersKept(s, o.session, p) && Did(o.session.nodes[p], open, IntentOf(pass), OutputOf(pass))
  }

  function Running(s: Session, p: nat, n: Node): Session
    requires p < |s.nodes|
  {
    Session(SessionRunning, s.nodes[p := n])
  }

  /** One pass: a session that is over is left alone, one that waits cannot go on; otherwise expired executions are
      recovered, and either the first node that can run is run, or there is none and completion is recorded. */
  ghost predicate PassDid(bp: Blueprint, order: seq<string>, s: Session, pass: Pass, o: Taken) {
    var r := RecoverExpired(s, pass.recoverAt);
    if IsTerminal(s.status) then o == Taken(s, None)
    else if s.status == WaitingGate then o == Taken(s, Some(RuntimeError))
    else if exists k :: k in order && CanRun(bp, r.nodes, k) then
      exists p :: 0 <= p < |r.nodes| && FirstToRun(bp, order, r.nodes, r.nodes[p].key) && RanNode(r, p, pass, o)
    else
      && o.error == None && o.session.status == SessionCompleted && |o.session.nodes| == |r.nodes|
      && forall p :: 0 <= p < |r.nodes| ==> o.session.nodes[p] == Unleased(r.nodes[p])
  }

  // ---- and it does ---------------------------------------------------------------------------

  lemma GrantIs(bp: Blueprint, s: Session, p: nat, id: string, req: Request, now: int)
    requires AtWork(bp, s, p, id, None)
    ensures GrantLease(s, s.nodes[p].key, id, req, now)
         == if Proper(req) then
              Ok(Put(s, p, WithLease(s.nodes[p],
                Lease(Some(req.Token()), Some(Text.Strip(req.owner)), Some(now), Some(now + req.ttl)))))
            else Err(LeaseError)
  {
    var n := s.nodes[p];
    var change := (a: Attempt) => if a.nodeKey != n.key then Err(LeaseError)
      else Grant(a.lease, a.status == AttemptRunning, req, now);
    LatestIsSound(s, p);
    OnLeaseAt(s, p, id, change);
    GrantExact(Latest(n).lease, true, req, now);
    hide Names, Find, Keys, Sound, OnLease, NoneRunning, Settled, Text.Strip, Grant, Proper;
    assert GrantLease(s, n.key, id, req, now) == OnLease(s, id, change);
  }

  lemma BeatIs(bp: Blueprint, s: Session, p: nat, id: string, token: string, beat: Beat)
    requires AtWork(bp, s, p, id, Some(token))
    ensures var l := Latest(s.nodes[p]).lease;
      HeartbeatLease(s, id, token, beat.ttl, beat.now)
      == if InForce(l, beat.now) && beat.ttl > 0 then
           Ok(Put(s, p, WithLease(s.nodes[p],
             l.(heartbeatAt := Some(beat.now), expiresAt := Some(beat.now + beat.ttl)))))
         else Err(LeaseError)
  {
    var n := s.nodes[p];
    OnLeaseAt(s, p, id, (a: Attempt) => Heartbeat(a.lease, a.status == AttemptRunning, token, beat.ttl, beat.now));
    HeartbeatExact(Latest(n).lease, true, token, beat.ttl, beat.now);
    hide Names, Find, Keys, Sound, OnLease, NoneRunning, Settled, Text.Strip, Heartbeat, InForce;
  }

  lemma {:induction false} BeatsAre(bp: Blueprint, s: Session, p: nat, id: string, token: string, beats: seq<Beat>)
    requires AtWork(bp, s, p, id, Some(token))
    ensures AfterBeats(s, id, token, beats)
         == Put(s, p, WithLease(s.nodes[p], Extended(Latest(s.nodes[p]).lease, beats)))
  {
    if beats == [] {
      SameLease(s, p);
    } else {
      var before := AfterBeats(s, id, token, beats[..|beats| - 1]);
      BeatsKeep(bp, s, p, id, token, beats[..|beats| - 1]);
      BeatsAre(bp, s, p, id, token, beats[..|beats| - 1]);
      BeatIs(bp, before, p, id, token, beats[|beats| - 1]);
      hide AtWork, HeartbeatLease, InForce;
      LeaseTwice(s, p, Extended(Latest(s.nodes[p]).lease, beats[..|beats| - 1]),
        Extended(Latest(s.nodes[p]).lease, beats));
    }
  }

  lemma SameLease(s: Session, p: nat)
    requires p < |s.nodes| && s.nodes[p].attempts != []
    ensures Put(s, p, WithLease(s.nodes[p], Latest(s.nodes[p]).lease)) == s
  {
    assert WithLease(s.nodes[p], Latest(s.nodes[p]).lease).attempts == s.nodes[p].attempts;
    assert s.nodes[p := s.nodes[p]] == s.nodes;
  }

  lemma LeaseTwice(s: Session, p: nat, l: Lease, m: Lease)
    requires p < |s.nodes| && s.nodes[p].attempts != []
    ensures var t := Put(s, p, WithLease(s.nodes[p], l));
      && Latest(t.nodes[p]).lease == l && t.nodes[p].attempts != []
      && Put(t, p, WithLease(t.nodes[p], m)) == Put(s, p, WithLease(s.nodes[p], m))
  {
    var t := Put(s, p, WithLease(s.nodes[p], l));
    assert WithLease(t.nodes[p], m).attempts == WithLease(s.nodes[p], m).attempts;
    assert t.nodes[p := WithLease(t.nodes[p], m)] == s.nodes[p := WithLease(s.nodes[p], m)];
  }

  /** What was done to a node does not depend on the lease its execution held. */
  lemma DidIgnoresLease(m: Node, n: Node, l: Lease, intent: Intent, output: Output)
    requires n.attempts != [] && Did(m, WithLease(n, l), intent, output)
    ensures Did(m, n, intent, output)
  {
    forall i | 0 <= i < |n.attempts| - 1 ensures m.attempts[i].(lease := n.attempts[i].lease) == n.attempts[i] {
      assert WithLease(n, l).attempts[i] == n.attempts[i];
    }
  }

  /** The report of the worker that holds the execution: refused if it is not in time, and then nothing has changed. */
  lemma ReportIs(bp: Blueprint, s: Session, p: nat, pass: Pass)
    requires AtWork(bp, s, p, pass.id, Token(pass)) && Latest(s.nodes[p]).lease == LeaseOf(pass)
    requires Latest(s.nodes[p]).output == map[] && (pass.owner.Some? ==> Proper(pass.owner.value))
    ensures var report := Report(s.nodes[p].key, Some(pass.id), Token(pass), pass.output, pass.error);
      var t := ReportTrail(s, report, pass.gate, pass.derived, pass.newId, pass.otherId, pass.checkedAt,
        pass.reportedAt);
      if InTime(pass) then
        && t.error == None && t.stored.status == StatusAfter(IntentOf(pass)) && OthersKept(s, t.stored, p)
        && Did(t.stored.nodes[p], s.nodes[p], IntentOf(pass), OutputOf(pass))
      else t == Trail(s, Some(LeaseError))
  {
    var report := Report(s.nodes[p].key, Some(pass.id), Token(pass), pass.output, pass.error);
    assert UniqueKeys(s.nodes);
    ReportLeaves(s, p, pass.id, Token(pass), report, pass.gate, pass.derived, pass.newId, pass.otherId,
      pass.checkedAt, pass.reportedAt);
    assert pass.owner.Some? ==> (IsLive(Latest(s.nodes[p]).lease, pass.checkedAt) <==> InTime(pass));
    assert map[] + pass.output == pass.output;
    hide Names, WorkerHolds, LeftBy, ReportTrail, IsLive, Find, Keys, OnlyLatestRunning, Settled, LeaseOf, Did,
         OthersKept, Sound, InForce, Proper;
  }

  /** The session with the execution of node `p` open. */
  function Open(s: Session, p: nat, id: string): Session
    requires p < |s.nodes|
  {
    Running(s, p, Opened(s.nodes[p], id))
  }

  lemma UnleasedWork(bp: Blueprint, s: Session, p: nat, pass: Pass)
    requires p < |s.nodes| && AtWork(bp, Open(s, p, pass.id), p, pass.id, None) && pass.owner.None?
    ensures RanNode(s, p, pass, RunAndReport(Open(s, p, pass.id), s.nodes[p].key, pass))
  {
    var open := Open(s, p, pass.id);
    SameLease(open, p);
    assert open.nodes[p].key == s.nodes[p].key;
    ReportIs(bp, open, p, pass);
    OthersOfOpen(s, p, pass.id);
    hide AtWork, OthersKept, Did, IntentOf, OutputOf, ReportTrail;
  }

  lemma OthersOfOpen(s: Session, p: nat, id: string)
    requires p < |s.nodes|
    ensures forall t :: OthersKept(Open(s, p, id), t, p) ==> OthersKept(s, t, p)
  {
  }

  function Granted(req: Request, now: int): Lease {
    Lease(Some(req.Token()), Some(Text.Strip(req.owner)), Some(now), Some(now + req.ttl))
  }

  lemma GrantedWork(bp: Blueprint, s: Session, p: nat, id: string, req: Request, now: int)
    requires AtWork(bp, s, p, id, None) && Text.Strip(req.Token()) == req.Token() && Proper(req)
    ensures var leased := Put(s, p, WithLease(s.nodes[p], Granted(req, now)));
      GrantLease(s, s.nodes[p].key, id, req, now) == Ok(leased) && AtWork(bp, leased, p, id, Some(req.Token()))
  {
    GrantIs(bp, s, p, id, req, now);
    LeaseTaken(bp, s, p, id, req, now);
    hide AtWork, GrantLease, Proper, Text.Strip;
  }

  /** With the lease granted and the heartbeats sent. */
  lemma {:induction false} HeldWork(bp: Blueprint, s: Session, p: nat, id: string, req: Request, now: int,
                                    beats: seq<Beat>)
    requires AtWork(bp, s, p, id, None) && Text.Strip(req.Token()) == req.Token() && Proper(req)
    ensures var leased := GrantLease(s, s.nodes[p].key, id, req, now);
      var held := Put(s, p, WithLease(s.nodes[p], Extended(Granted(req, now), beats)));
      leased.Ok? && AfterBeats(leased.value, id, req.Token(), beats) == held
        && AtWork(bp, held, p, id, Some(req.Token()))
  {
    GrantedWork(bp, s, p, id, req, now);
    WorkHasAttempt(bp, s, p, id, None);
    hide AtWork, GrantLease, AfterBeats, Proper, Text.Strip, Extended;
    var leased := Put(s, p, WithLease(s.nodes[p], Granted(req, now)));
    BeatsKeep(bp, leased, p, id, req.Token(), beats);
    BeatsAre(bp, leased, p, id, req.Token(), beats);
    LeaseTwice(s, p, Granted(req, now), Extended(Granted(req, now), beats));
  }

  lemma WorkHasAttempt(bp: Blueprint, s: Session, p: nat, id: string, token: Option<string>)
    requires AtWork(bp, s, p, id, token)
    ensures p < |s.nodes| && s.nodes[p].attempts != []
  {
  }

  /** The steps of a worker that asks for a lease. */
  lemma LeasedRunIs(s: Session, key: string, pass: Pass, req: Request)
    requires pass.owner == Some(req)
    ensures var granted := GrantLease(s, key, pass.id, req, pass.grantAt);
      RunAndReport(s, key, pass)
      == if granted.Err? then Taken(s, Some(granted.error))
         else
           var held := AfterBeats(granted.value, pass.id, req.Token(), pass.beats);
           if pass.dies then Taken(held, None)
           else
             Settle(ReportTrail(held, Report(key, Some(pass.id), Some(req.Token()), pass.output, pass.error), pass.gate,
               pass.derived, pass.newId, pass.otherId, pass.checkedAt, pass.reportedAt))
  {
    hide GrantLease, AfterBeats, ReportTrail;
  }

  lemma SettleIs(s: Session, report: Report, pass: Pass)
    ensures var t := ReportTrail(s, report, pass.gate, pass.derived, pass.newId, pass.otherId, pass.checkedAt,
        pass.reportedAt);
      Settle(t) == Taken(t.stored, t.error)
  {
    hide ReportTrail;
  }

  lemma LeasedWork(bp: Blueprint, s: Session, p: nat, pass: Pass)
    requires p < |s.nodes| && AtWork(bp, Open(s, p, pass.id), p, pass.id, None)
    requires pass.owner.Some? && Text.Strip(pass.owner.value.Token()) == pass.owner.value.Token()
    ensures RanNode(s, p, pass, RunAndReport(Open(s, p, pass.id), s.nodes[p].key, pass))
  {
    hide AtWork, GrantLease, AfterBeats, IntentOf, OutputOf, Proper, InForce, RunAndReport, ReportTrail, OthersKept,
         Did, Extended, Text.Strip, Settle;
    assert !Proper(pass.owner.value) ==> !InTime(pass);
    hide InTime;
    var open, req := Open(s, p, pass.id), pass.owner.value;
    assert open.nodes[p] == Opened(s.nodes[p], pass.id) && open.nodes[p].key == s.nodes[p].key;
    assert open == Running(s, p, Opened(s.nodes[p], pass.id));
    GrantIs(bp, open, p, pass.id, req, pass.grantAt);
    LeasedRunIs(open, s.nodes[p].key, pass, req);
    if Proper(req) {
      HeldWork(bp, open, p, pass.id, req, pass.grantAt, pass.beats);
      var held := Put(open, p, WithLease(open.nodes[p], LeaseOf(pass)));
      hide LeaseOf;
      assert held == Running(s, p, WithLease(Opened(s.nodes[p], pass.id), LeaseOf(pass)));
      hide Open, Opened, WithLease;
      HeldReport(bp, s, p, pass, held);
      SettleIs(held, Report(s.nodes[p].key, Some(pass.id), Some(req.Token()), pass.output, pass.error), pass);
    }
  }

  lemma HeldReport(bp: Blueprint, s: Session, p: nat, pass: Pass, held: Session)
    requires p < |s.nodes| && held == Running(s, p, WithLease(Opened(s.nodes[p], pass.id), LeaseOf(pass)))
    requires AtWork(bp, held, p, pass.id, Token(pass)) && (pass.owner.Some? ==> Proper(pass.owner.value))
    ensures var report := Report(s.nodes[p].key, Some(pass.id), Token(pass), pass.output, pass.error);
      var t := ReportTrail(held, report, pass.gate, pass.derived, pass.newId, pass.otherId, pass.checkedAt,
        pass.reportedAt);
      if InTime(pass) then
        && t.error == None && t.stored.status == StatusAfter(IntentOf(pass)) && OthersKept(s, t.stored, p)
        && Did(t.stored.nodes[p], Opened(s.nodes[p], pass.id), IntentOf(pass), OutputOf(pass))
      else t == Trail(held, Some(LeaseError))
  {
    assert held.nodes[p] == WithLease(Opened(s.nodes[p], pass.id), LeaseOf(pass));
    hide AtWork, IntentOf, OutputOf, LeaseOf, Proper, InTime, ReportTrail, Did;
    ReportIs(bp, held, p, pass);
    var report := Report(s.nodes[p].key, Some(pass.id), Token(pass), pass.output, pass.error);
    var t := ReportTrail(held, report, pass.gate, pass.derived, pass.newId, pass.otherId, pass.checkedAt,
      pass.reportedAt).stored;
    if InTime(pass) {
      DidIgnoresLease(t.nodes[p], Opened(s.nodes[p], pass.id), LeaseOf(pass), IntentOf(pass), OutputOf(pass));
    }
  }

  /** A pass that finds a node to run. */
  lemma {:induction false} PassRuns(bp: Blueprint, order: seq<string>, s: Session, pass: Pass)
    requires Sound(s) && NodesOf(bp, s) && AllCalm(s) && s.status in {SessionQueued, SessionRunning}
    requires ReadyNodes(bp, order, s.nodes) != [] && WellBehaved(s, Iterate(pass))
    ensures exists p ::
      0 <= p < |s.nodes| && FirstToRun(bp, order, s.nodes, s.nodes[p].key)
      && RanNode(s, p, pass, ScheduleNext(bp, order, s, pass))
  {
    assert UniqueKeys(s.nodes);
    ReadyExactly(bp, order, s.nodes);
    var p := PickedOpens(bp, order, s, pass.id);
    PickedIsOpen(s, p, pass.id);
    hide AtWork, ReadyNodes, ExecutionTrail, RunAndReport, RanNode, FirstToRun, CanRun, Open, Sound, AllCalm, NodesOf,
         NodeOfAttempt, LeaseOnly;
    if pass.owner.Some? { LeasedWork(bp, s, p, pass); } else { UnleasedWork(bp, s, p, pass); }
    assert RanNode(s, p, pass, ScheduleNext(bp, order, s, pass));
  }

  lemma {:induction false} PickedIsOpen(s: Session, p: nat, id: string)
    requires UniqueKeys(s.nodes) && s.status in {SessionQueued, SessionRunning} && p < |s.nodes|
    requires Settled(s.nodes[p]) && s.nodes[p].status == NodeQueued && NodeOfAttempt(s.nodes, id).None?
    ensures ExecutionTrail(s, s.nodes[p].key, id) == From(Open(s, p, id))
  {
    OpensExecution(s, p, id);
    hide NodeOfAttempt, Names, UniqueKeys, Settled;
    var t := ExecutionTrail(s, s.nodes[p].key, id);
    hide ExecutionTrail;
    assert t.Outcome() == OpenExecution(s, s.nodes[p].key, id);
  }

  /** A pass that finds nothing to run. */
  lemma {:induction false} PassEnds(bp: Blueprint, order: seq<string>, s: Session, pass: Pass)
    requires s.status == SessionRunning && ReadyNodes(bp, order, s.nodes) == []
    ensures var o := ScheduleNext(bp, order, s, pass);
      && o.error == None && o.session.status == SessionCompleted && |o.session.nodes| == |s.nodes|
      && forall p :: 0 <= p < |s.nodes| ==> o.session.nodes[p] == Unleased(s.nodes[p])
  {
    hide Unleased;
  }

  /** The pass, once expired executions are recovered. */
  lemma PassSchedules(bp: Blueprint, order: seq<string>, s: Session, pass: Pass)
    requires Topological(bp, order) && bp != [] && Sound(s) && NodesOf(bp, s) && AllCalm(s)
    requires s.status in {SessionQueued, SessionRunning} && WellBehaved(s, Iterate(pass))
    requires s.status == SessionQueued ==> Untouched(s)
    ensures var o := ScheduleNext(bp, order, s, pass);
      if exists k :: k in order && CanRun(bp, s.nodes, k) then
        exists p :: 0 <= p < |s.nodes| && FirstToRun(bp, order, s.nodes, s.nodes[p].key) && RanNode(s, p, pass, o)
      else
        && o.error == None && o.session.status == SessionCompleted && |o.session.nodes| == |s.nodes|
        && forall p :: 0 <= p < |s.nodes| ==> o.session.nodes[p] == Unleased(s.nodes[p])
  {
    assert UniqueKeys(s.nodes);
    ReadyExactly(bp, order, s.nodes);
    if ReadyNodes(bp, order, s.nodes) == [] {
      NothingLeft(bp, order, s);
      PassEnds(bp, order, s, pass);
    } else {
      assert ReadyNodes(bp, order, s.nodes)[0] in ReadyNodes(bp, order, s.nodes);
      PassRuns(bp, order, s, pass);
    }
    hide *;
  }

  lemma RecoveredInOrder(bp: Blueprint, s: Session, pass: Pass)
    requires BetweenSteps(bp, s) && WellBehaved(s, Iterate(pass)) && s.status in {SessionQueued, SessionRunning}
    ensures var r := RecoverExpired(s, pass.recoverAt);
      && Sound(r) && NodesOf(bp, r) && AllCalm(r) && r.status == s.status && WellBehaved(r, Iterate(pass))
      && (r.status == SessionQueued ==> Untouched(r))
  {
    if s.status == SessionQueued { UntouchedIsCalm(s, pass.recoverAt); }
    RecoveryCalms(bp, s, pass.recoverAt, pass.id);
    hide Sound, NodesOf, NodeOfAttempt, Text.Strip, RecoverExpired;
  }

  /** Every pass over a session in order does what it is meant to do. */
  lemma IterateDid(bp: Blueprint, order: seq<string>, s: Session, pass: Pass)
    requires Topological(bp, order) && bp != [] && BetweenSteps(bp, s) && WellBehaved(s, Iterate(pass))
    ensures PassDid(bp, order, s, pass, IterateOnce(bp, order, s, pass))
  {
    hide Sound, NodesOf, Topological, BetweenSteps, WellBehaved, ScheduleNext, AllCalm, RecoverExpired, CanRun,
         FirstToRun, RanNode, Unleased, Untouched;
    StatusInOrder(bp, s);
    if s.status in {SessionQueued, SessionRunning} {
      RecoveredInOrder(bp, s, pass);
      PassSchedules(bp, order, RecoverExpired(s, pass.recoverAt), pass);
    }
  }

  lemma StatusInOrder(bp: Blueprint, s: Session)
    requires BetweenSteps(bp, s)
    ensures s.status in {SessionQueued, SessionRunning, WaitingGate} || IsTerminal(s.status)
  {
  }

  // ---- runs --------------------------------------------------------------------------------

  /** What a step comes to: a pass, the decision on a gate, or the end of the session. */
  ghost predicate StepDid(bp: Blueprint, order: seq<string>, s: Session, step: Step, o: Taken) {
    match step
    case Iterate(pass) => PassDid(bp, order, s, pass, o)
    case Decide(gateId, action, at) =>
      && o.error == None
      && var p := NodeOfGate(s.nodes, gateId);
         && p.Some? && OthersKept(s, o.session, p.value)
         && DecisionOutcome(o.session.nodes[p.value], s.nodes[p.value], action,
              RevisionText(s.nodes[p.value], gateId, action), at)
         && GateDecided(o.session.nodes[p.value], s.nodes[p.value], gateId, action)
         && o.session.status == if action == Reject then SessionFailed else SessionRunning
    case Cancel =>
      && o.error == None && o.session.status == Cancelled && |o.session.nodes| == |s.nodes|
      && forall p :: 0 <= p < |s.nodes| ==> o.session.nodes[p] == Unleased(s.nodes[p])
  }

  lemma DecideDid(bp: Blueprint, order: seq<string>, s: Session, gateId: string, action: DecisionAction, at: int)
    requires BetweenSteps(bp, s) && WellBehaved(s, Decide(gateId, action, at))
    ensures StepDid(bp, order, s, Decide(gateId, action, at), Take(bp, order, s, Decide(gateId, action, at)))
  {
    var p :| OnePending(s, p);
    var q := NodeOfGate(s.nodes, gateId).value;
    PendingAt(s, p, q);
    assert UniqueKeys(s.nodes);
    DecisionLeaves(s, p, gateId, action, at);
    hide Sound, DecisionTrail, NodeOfGate, GateIndex, Pending, Keys, OthersKept, DecisionOutcome, GateDecided,
         RevisionText;
  }

  lemma CancelDid(bp: Blueprint, order: seq<string>, s: Session)
    requires BetweenSteps(bp, s) && !IsTerminal(s.status)
    ensures StepDid(bp, order, s, Cancel, Take(bp, order, s, Cancel))
  {
    StatusInOrder(bp, s);
    hide Unleased, BetweenSteps;
  }

  lemma StepDoes(bp: Blueprint, order: seq<string>, s: Session, step: Step)
    requires Topological(bp, order) && bp != [] && BetweenSteps(bp, s) && WellBehaved(s, step)
    ensures StepDid(bp, order, s, step, Take(bp, order, s, step))
  {
    hide BetweenSteps, Topological, IterateOnce, DecisionTrail, PassDid;
    match step
    case Iterate(pass) => IterateDid(bp, order, s, pass);
    case Decide(gateId, action, at) => DecideDid(bp, order, s, gateId, action, at);
    case Cancel => CancelDid(bp, order, s);
  }

  /** Over every run from a new session of a non-empty workflow, every step does what it is meant to do. */
  lemma {:induction false} RunDid(bp: Blueprint, order: seq<string>, keys: seq<string>, steps: seq<Step>, k: nat)
    requires Topological(bp, order) && bp != [] && (forall n :: n in keys <==> n in Keys(bp))
    requires RunWellBehaved(bp, order, Create(keys), steps) && k < |steps|
    ensures var s := StateAfter(bp, order, Create(keys), steps, k);
      StepDid(bp, order, s, steps[k], Take(bp, order, s, steps[k]))
  {
    hide Topological, Keys, Take, BetweenSteps, WellBehaved, Create, StepDid;
    RunSafe(bp, order, keys, steps, k);
    StepDoes(bp, order, StateAfter(bp, order, Create(keys), steps, k), steps[k]);
  }
}
