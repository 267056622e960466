/** The control plane as a sequence of session-service calls, and the orchestrator loop on top of it. */
module ControlPlanes {
  import opened Outcomes
  import opened States
  import opened Leases
  import opened Sessions
  import opened Graphs
  import opened SessionRuns
  import opened SessionServices
  import opened ExecutionLeases
  import opened ControlSteps
  import opened WorkflowGraphs
  import opened Driver
  import opened PassOutcomes
  import Text

  /** The calls came as far as the chain does: what they have stored by then is there, whether or not they stopped with
      an error. */
  ghost predicate Ran(t: Trail, after: Session, r: Result<()>) {
    after == t.stored && r == if t.error.None? then Ok(()) else Err(t.error.value)
  }

  /** Session and node of a report or an execution are running. */
  function WorkTrail(s: Session, key: string): Trail {
    From(s).Then(x => Accepting(x)).Then(x => StartIfQueued(x, key))
  }

  class ControlPlane {
    const service: SessionService

    constructor (service: SessionService)
      ensures this.service == service
    {
      this.service := service;
    }

    method ResumeSessionIfWaiting() returns (r: Result<()>)
      modifies service
      ensures Took(old(service.session), ResumeIfWaiting(old(service.session)), service.session, r)
    {
      hide MoveSession;
      if service.session.status == WaitingGate {
        r := service.TransitionSession(Resuming);
      } else {
        r := Ok(());
      }
    }

    method EnsureSessionRunning() returns (r: Result<()>)
      modifies service
      ensures Took(old(service.session), EnsureRunning(old(service.session)), service.session, r)
    {
      hide MoveSession;
      if service.session.status == Resuming {
        r := service.TransitionSession(SessionRunning);
      } else {
        r := Ok(());
      }
    }

    method ReleaseReportLease(report: Option<Report>, now: int) returns (r: Result<()>)
      modifies service
      ensures Took(old(service.session), ReleaseReported(old(service.session), report, now), service.session, r)
    {
      hide OnLease;
      if report.None? || report.value.executionId.None? || report.value.token.None? { return Ok(()); }
      r := service.ReleaseExecutionLease(report.value.executionId.value, report.value.token.value, now);
    }

    method ApplyNodeIntent(key: string, intent: Intent, report: Option<Report>, now: int) returns (r: Result<()>)
      modifies service
      ensures Ran(IntentTrail(old(service.session), key, intent, report, now), service.session, r)
    {
      hide OnNode, OnLease, MoveSession, ReleaseReported, ResumeIfWaiting, EnsureRunning, Find;
      match intent {
        case Pause(gate) =>
          var _ :- service.RecordGate(key, gate);
          var _ :- ReleaseReportLease(report, now);
          var _ :- service.TransitionNode(key, PendingGate);
          r := service.TransitionSession(WaitingGate);
        case Fail(error) =>
          var p := Find(service.session.nodes, key);
          if p.None? { return Err(NodeNotFound); }
          if service.session.nodes[p.value].status != NodeFailed {
            var _ :- service.FailNode(key, OrElse(error, FAIL_TEXT), now);
          }
          r := service.TransitionSession(SessionFailed);
        case Requeue(reason) =>
          var _ :- ResumeSessionIfWaiting();
          var _ :- service.RequeueNode(key, OrElse(reason, REQUEUE_TEXT), now);
          r := EnsureSessionRunning();
        case Complete(output) =>
          var _ :- ResumeSessionIfWaiting();
          var _ :- service.CompleteNode(key, Some(output), now);
          r := EnsureSessionRunning();
      }
    }

    /** Makes sure the session accepts work and the node is running. */
    method StartWork(key: string) returns (r: Result<()>)
      modifies service
      ensures Ran(WorkTrail(old(service.session), key), service.session, r)
    {
      hide OnNode, MoveSession, Find;
      if service.session.status !in {SessionRunning, Resuming} {
        if service.session.status != SessionQueued { return Err(RuntimeError); }
        var _ :- service.TransitionSession(SessionRunning);
      }
      var p := Find(service.session.nodes, key);
      if p.None? { return Err(RuntimeError); }
      if service.session.nodes[p.value].status == NodeQueued {
        r := service.TransitionNode(key, NodeRunning);
      } else {
        r := Ok(());
      }
    }

    method OpenNodeExecution(key: string, id: string) returns (r: Result<()>)
      modifies service
      ensures Ran(ExecutionTrail(old(service.session), key, id), service.session, r)
    {
      hide OnNode, Accepting, StartIfQueued;
      var _ :- StartWork(key);
      r := service.StartAttempt(key, id);
    }

    method AssertReportLease(report: Report, now: int) returns (r: Result<()>)
      ensures r == ReportLease(service.session, report, now)
    {
      hide LeaseAsserted, Find, HasMetadata;
      var p := Find(service.session.nodes, report.key);
      if p.None? || service.session.nodes[p.value].attempts == [] { return Ok(()); }
      var latest := Latest(service.session.nodes[p.value]);
      if !HasMetadata(latest.lease) { return Ok(()); }
      if report.executionId != Some(latest.id) || report.token.None? { return Err(LeaseError); }
      r := service.AssertExecutionLease(latest.id, report.token.value, now);
    }

    method OpenRuntimeDecision(report: Report, gate: Option<Gate>, derived: Intent, newId: string, otherId: string,
                               checkedAt: int, now: int) returns (r: Result<()>)
      modifies service
      ensures Ran(ReportTrail(old(service.session), report, gate, derived, newId, otherId, checkedAt, now),
        service.session, r)
    {
      hide OnNode, Accepting, StartIfQueued, ReportLease, IntentTrail, DerivedIntent, Find;
      var _ :- StartWork(report.key);
      var _ :- AssertReportLease(report, checkedAt);
      if Truthy(report.error) {
        r := ApplyNodeIntent(report.key, Fail(report.error.value), Some(report), now);
        return;
      }
      var p := Find(service.session.nodes, report.key);
      if p.None? || !LatestRunning(service.session.nodes[p.value]) {
        var _ :- service.StartAttempt(report.key, newId);
      }
      var _ :- service.ConsumeAgentReport(report.key, report.executionId, report.output, report.error, otherId);
      r := ApplyNodeIntent(report.key, DerivedIntent(gate, derived), Some(report), now);
    }

    method ApplyDecision(gateId: string, action: DecisionAction, now: int) returns (r: Result<()>)
      modifies service
      ensures Ran(DecisionTrail(old(service.session), gateId, action, now), service.session, r)
    {
      hide DecideGate, IntentTrail, NodeOfGate, GateIndex;
      var _ :- service.ApplyGateDecision(gateId, action);
      var p := NodeOfGate(service.session.nodes, gateId);
      if p.None? { return Err(GateNotFound); }
      var node := service.session.nodes[p.value];
      var intent :- IntentAfterDecision(node.status, node.gates[GateIndex(node.gates, gateId).value], action);
      r := ApplyNodeIntent(node.key, intent, None, now);
    }

    method RecordSessionComplete() returns (r: Result<()>)
      modifies service
      ensures Ran(CompletionTrail(old(service.session)), service.session, r)
    {
      hide MoveSession;
      if service.session.status == Resuming {
        var _ :- service.TransitionSession(SessionRunning);
      }
      r := service.TransitionSession(SessionCompleted);
    }

    /** Heartbeats sent while the node runs; one that is refused does not stop the others. */
    method KeepAlive(id: string, token: string, beats: seq<Beat>)
      modifies service
      ensures service.session == AfterBeats(old(service.session), id, token, beats)
    {
      hide OnLease;
      for k := 0 to |beats|
        invariant service.session == AfterBeats(old(service.session), id, token, beats[..k])
      {
        assert beats[..k + 1][..k] == beats[..k];
        var _ := service.HeartbeatExecutionLease(id, token, beats[k].ttl, beats[k].now);
      }
      assert beats[..|beats|] == beats;
    }
  }

  function Passes(passes: seq<Pass>): (r: seq<Step>)
    ensures |r| == |passes| && forall k :: 0 <= k < |passes| ==> r[k] == Iterate(passes[k])
  {
    seq(|passes|, k requires 0 <= k < |passes| => Iterate(passes[k]))
  }

  class OrchestratorAgent {
    const control: ControlPlane
    const bp: Blueprint
    const order: seq<string>

    constructor (control: ControlPlane, bp: Blueprint, order: seq<string>)
      ensures this.control == control && this.bp == bp && this.order == order
    {
      this.control := control;
      this.bp := bp;
      this.order := order;
    }

    /** One pass over the opened execution, from the lease to the recorded decision. */
    method RunNode(key: string, pass: Pass, ghost p: nat) returns (raised: Option<Error>)
      requires AtWork(bp, control.service.session, p, pass.id, None) && control.service.session.nodes[p].key == key
      requires WellBehavedPass(pass)
      modifies control.service
      ensures var o := RunAndReport(old(control.service.session), key, pass);
        control.service.session == o.session && raised == o.error
    {
      hide AtWork, GrantLease, ReportTrail, AfterBeats;
      ghost var s := control.service.session;
      WorkInOrder(bp, s, p, pass.id, None);
      if pass.owner.Some? {
        var req := pass.owner.value;
        var granted := control.service.GrantExecutionLease(key, pass.id, req, pass.grantAt);
        if granted.Err? { return Some(granted.error); }
        LeaseTaken(bp, s, p, pass.id, req, pass.grantAt);
        BeatsKeep(bp, control.service.session, p, pass.id, req.Token(), pass.beats);
        control.KeepAlive(pass.id, req.Token(), pass.beats);
      }
      if pass.dies { return None; }
      var report := Report(key, Some(pass.id), Token(pass), pass.output, pass.error);
      var r := control.OpenRuntimeDecision(report, pass.gate, pass.derived, pass.newId, pass.otherId, pass.checkedAt,
        pass.reportedAt);
      raised := if r.Ok? then None else Some(r.error);
    }

    /** `run_session`: drives the session until it ends, waits for a decision, or the passes are used up. Each pass is
        one step of the orchestrator. */
    method RunSession(passes: seq<Pass>) returns (taken: nat, raised: Option<Error>)
      requires Topological(bp, order) && bp != [] && BetweenSteps(bp, control.service.session)
      requires RunWellBehaved(bp, order, control.service.session, Passes(passes))
      modifies control.service
      ensures taken <= |passes|
      ensures control.service.session == StateAfter(bp, order, old(control.service.session), Passes(passes), taken)
      ensures BetweenSteps(bp, control.service.session) && raised != Some(InvalidTransition)
      ensures raised == None ==> Stopped(control.service.session) || (taken > 0 && passes[taken - 1].dies)
      ensures forall k :: 0 <= k < taken - 1 ==> Passed(bp, order, old(control.service.session), passes, k, None)
      ensures if taken == 0 then raised in {None, Some(RuntimeError)}
        else
          || Passed(bp, order, old(control.service.session), passes, taken - 1, raised)
          || (taken == |passes| && raised == Some(RuntimeError)
              && Passed(bp, order, old(control.service.session), passes, taken - 1, None))
    {
      hide BetweenSteps, Topological, RunAndReport, RecoverExpired, ExecutionTrail, CompletionTrail, ReadyNodes,
           AtWork, StateAfter, NodeOfAttempt, Passed;
      ghost var start := control.service.session;
      ghost var steps := Passes(passes);
      StateAfterNone(bp, order, start, steps);
      taken := 0;
      while taken < |passes|
        invariant taken <= |passes| && control.service.session == StateAfter(bp, order, start, steps, taken)
        invariant BetweenSteps(bp, control.service.session)
        invariant forall k :: 0 <= k < taken ==> Passed(bp, order, start, passes, k, None)
      {
        if IsTerminal(control.service.session.status) { return taken, None; }
        if control.service.session.status == WaitingGate {
          return taken, if taken == 0 then Some(RuntimeError) else None;
        }
        var pass := passes[taken];
        ghost var before := control.service.session;
        assert WellBehaved(before, steps[taken]);
        StateAfterOne(bp, order, start, steps, taken);
        IterateSafe(bp, order, before, pass);
        PassedNext(bp, order, start, passes, taken);
        var _ := control.service.RecoverExpiredNodeExecutions(pass.recoverAt);
        var ready := ReadyNodes(bp, order, control.service.session.nodes);
        taken := taken + 1;
        if ready == [] {
          var r := control.RecordSessionComplete();
          CompletedNext(bp, order, before, pass);
          return taken, if r.Ok? then None else Some(r.error);
        }
        ghost var p := PickedNext(bp, order, before, pass);
        var opening := control.OpenNodeExecution(ready[0], pass.id);
        raised := RunNode(ready[0], pass, p);
        if raised.Some? || pass.dies || Stopped(control.service.session) { return; }
      }
      raised := Some(RuntimeError);
    }
  }

  /** Pass `k` did what a pass is meant to do, and raised this error, if any. */
  ghost predicate Passed(bp: Blueprint, order: seq<string>, start: Session, passes: seq<Pass>, k: nat,
                         raised: Option<Error>)
    requires k < |passes|
  {
    PassDid(bp, order, StateAfter(bp, order, start, Passes(passes), k), passes[k],
      Taken(StateAfter(bp, order, start, Passes(passes), k + 1), raised))
  }

  lemma {:induction false} PassedNext(bp: Blueprint, order: seq<string>, start: Session, passes: seq<Pass>, k: nat)
    requires Topological(bp, order) && bp != [] && k < |passes|
    requires var s := StateAfter(bp, order, start, Passes(passes), k);
      BetweenSteps(bp, s) && WellBehaved(s, Iterate(passes[k]))
    ensures Passed(bp, order, start, passes, k,
      IterateOnce(bp, order, StateAfter(bp, order, start, Passes(passes), k), passes[k]).error)
  {
    var s := StateAfter(bp, order, start, Passes(passes), k);
    StateAfterOne(bp, order, start, Passes(passes), k);
    IterateDid(bp, order, s, passes[k]);
    hide StateAfter, IterateOnce, PassDid, BetweenSteps, WellBehaved, Topological;
  }

  /** The session is over, or waits for a decision. */
  predicate Stopped(s: Session) {
    IsTerminal(s.status) || s.status == WaitingGate
  }

  lemma PickedNext(bp: Blueprint, order: seq<string>, s: Session, pass: Pass) returns (p: nat)
    requires Topological(bp, order) && bp != [] && BetweenSteps(bp, s) && WellBehaved(s, Iterate(pass)) && !Stopped(s)
    requires ReadyNodes(bp, order, RecoverExpired(s, pass.recoverAt).nodes) != []
    ensures var recovered := RecoverExpired(s, pass.recoverAt);
      var key := ReadyNodes(bp, order, recovered.nodes)[0];
      var t := ExecutionTrail(recovered, key, pass.id);
      && t.error == None && AtWork(bp, t.stored, p, pass.id, None) && t.stored.nodes[p].key == key
      && IterateOnce(bp, order, s, pass) == RunAndReport(t.stored, key, pass)
  {
    if s.status == SessionQueued { UntouchedIsCalm(s, pass.recoverAt); }
    RecoveryCalms(bp, s, pass.recoverAt, pass.id);
    hide Sound, AllCalm, NodesOf, RecoverExpired, Topological, ReadyNodes, NodeOfAttempt, AtWork, RunAndReport,
         ExecutionTrail;
    p := PickedOpens(bp, order, RecoverExpired(s, pass.recoverAt), pass.id);
  }

  lemma {:induction false} CompletedNext(bp: Blueprint, order: seq<string>, s: Session, pass: Pass)
    requires Topological(bp, order) && bp != [] && BetweenSteps(bp, s) && WellBehaved(s, Iterate(pass)) && !Stopped(s)
    requires ReadyNodes(bp, order, RecoverExpired(s, pass.recoverAt).nodes) == []
    ensures var t := CompletionTrail(RecoverExpired(s, pass.recoverAt));
      t.error == None && IsTerminal(t.stored.status) && IterateOnce(bp, order, s, pass) == Taken(t.stored, None)
  {
    if s.status == SessionQueued { UntouchedIsCalm(s, pass.recoverAt); }
    RecoveryCalms(bp, s, pass.recoverAt, pass.id);
    hide Sound, AllCalm, NodesOf, RecoverExpired, Topological, ReadyNodes, NodeOfAttempt, CompletionTrail;
    NothingLeft(bp, order, RecoverExpired(s, pass.recoverAt));
  }

  predicate WellBehavedPass(pass: Pass) {
    pass.owner.Some? ==> Text.Strip(pass.owner.value.Token()) == pass.owner.value.Token()
  }

  lemma {:induction false} StateAfterNone(bp: Blueprint, order: seq<string>, s: Session, steps: seq<Step>)
    ensures StateAfter(bp, order, s, steps, 0) == s
  {
  }

  lemma StateAfterOne(bp: Blueprint, order: seq<string>, s: Session, steps: seq<Step>, k: nat)
    requires k < |steps|
    ensures StateAfter(bp, order, s, steps, k + 1) == Take(bp, order, StateAfter(bp, order, s, steps, k),
      steps[k]).session
  {
  }
}
