/** The mutable map of durable interactions on a session, and the operations that rewrite its entries. */
module InteractionLedgers {
  import opened Outcomes
  import opened Leases
  import opened DurableInteractions
  import opened TurnLeases

  /** One recovered turn, as reported to the caller. */
  datatype RecoveredTurn = RecoveredTurn(interactionId: string, index: nat, owner: Option<string>,
    expiresAt: Option<int>, resumeAt: nat)

  /** The recovered turns of one interaction, in recorded order. */
  function RecoveryReport(id: string, turns: seq<DurableTurn>, resumeAt: nat, now: int): seq<RecoveredTurn> {
    if turns == [] then []
    else
      var t := turns[|turns| - 1];
      RecoveryReport(id, turns[..|turns| - 1], resumeAt, now)
      + if IsExpired(t, now) then [RecoveredTurn(id, t.index, t.lease.owner, t.lease.expiresAt, resumeAt)] else []
  }

  /** The report has one entry for every overdue turn, in recorded order: whose lease it was, until when, and where the
      interaction goes on. */
  lemma {:induction false} ReportExact(id: string, turns: seq<DurableTurn>, resumeAt: nat, now: int, k: nat)
    requires k < |turns|
    ensures var before, t := RecoveryReport(id, turns[..k], resumeAt, now), turns[k];
      RecoveryReport(id, turns[..k + 1], resumeAt, now)
      == before + if OverdueTurn(t, now) then [RecoveredTurn(id, t.index, t.lease.owner, t.lease.expiresAt, resumeAt)]
                  else []
    ensures RecoveryReport(id, [], resumeAt, now) == []
  {
    assert turns[..k + 1][..k] == turns[..k];
    assert IsExpired(turns[k], now) == OverdueTurn(turns[k], now);
  }

  /** An interaction of which the first `k` turns have been looked at. */
  ghost function PartlyRecovered(i: DurableInteraction, k: nat, now: int): DurableInteraction
    requires k <= |i.turns|
  {
    var n := ExpiredCount(i.turns[..k], now);
    i.(turns := RecoverTurns(i.turns[..k], now) + i.turns[k..], version := i.version + n,
       recoveredFrom := if n == 0 then i.recoveredFrom else Some(Lowest(i.turns)))
  }

  lemma {:induction false} PartlyRecoveredStart(i: DurableInteraction, now: int)
    ensures PartlyRecovered(i, 0, now) == i && RecoveryReport(i.id, i.turns[..0], Lowest(i.turns), now) == []
  {
  }

  lemma {:induction false} PartlyRecoveredStep(i: DurableInteraction, k: nat, now: int)
    requires k < |i.turns| && DistinctTurns(i.turns)
    ensures var t, done := i.turns[k], PartlyRecovered(i, k, now);
      PartlyRecovered(i, k + 1, now)
      == if IsExpired(t, now) then Replaced(done, RecoverTurn(t, now)).(recoveredFrom := Some(Lowest(i.turns)))
        else done
    ensures var t := i.turns[k];
      RecoveryReport(i.id, i.turns[..k + 1], Lowest(i.turns), now)
        == RecoveryReport(i.id, i.turns[..k], Lowest(i.turns), now)
        + if IsExpired(t, now) then [RecoveredTurn(i.id, t.index, t.lease.owner, t.lease.expiresAt, Lowest(i.turns))]
          else []
  {
    hide IsExpired, Lowest;
    var t := i.turns[k];
    assert i.turns[..k + 1][..k] == i.turns[..k];
    var done := RecoverTurns(i.turns[..k], now) + i.turns[k..];
    var more := RecoverTurns(i.turns[..k + 1], now) + i.turns[k + 1..];
    if IsExpired(t, now) {
      assert ReplaceTurn(done, RecoverTurn(t, now)) == more;
    } else {
      assert done == more;
    }
  }

  lemma PartlyRecoveredEnd(i: DurableInteraction, now: int)
    ensures PartlyRecovered(i, |i.turns|, now) == Recovered(i, now)
    ensures i.turns[..|i.turns|] == i.turns
  {
    assert i.turns[..|i.turns|] == i.turns;
    assert RecoverTurns(i.turns, now) + i.turns[|i.turns|..] == RecoverTurns(i.turns, now);
    NothingExpired(i.turns, now);
    RecoveryKeepsCompleted(i.turns, now);
    LowestIsUnique(i.turns, Lowest(RecoverTurns(i.turns, now)), Lowest(i.turns));
  }

  lemma PartlyRecoveredLowest(i: DurableInteraction, k: nat, now: int, n: nat)
    requires k < |i.turns| && DistinctTurns(i.turns) && IsExpired(i.turns[k], now)
    requires IsLowestIncomplete(Replaced(PartlyRecovered(i, k, now), RecoverTurn(i.turns[k], now)).turns, n)
    ensures n == Lowest(i.turns)
  {
    var r := Replaced(PartlyRecovered(i, k, now), RecoverTurn(i.turns[k], now)).turns;
    forall t: DurableTurn ensures SameProgress(RecoverTurn(t, now), t) { RecoveryKeepsProgress(t, now); }
    hide RecoverTurn, IsExpired, Lowest, CompletedIndices;
    forall m | 0 <= m < |r| ensures SameProgress(r[m], i.turns[m]) {}
    hide PartlyRecovered, Replaced;
    SameIndicesCompleted(r, i.turns);
    LowestIsUnique(i.turns, n, Lowest(i.turns));
  }

  predicate SameProgress(t: DurableTurn, u: DurableTurn) {
    t.index == u.index && (t.status == TurnCompleted <==> u.status == TurnCompleted)
  }

  lemma RecoveryKeepsProgress(t: DurableTurn, now: int)
    ensures SameProgress(RecoverTurn(t, now), t)
  {
  }

  lemma SameIndicesCompleted(a: seq<DurableTurn>, b: seq<DurableTurn>)
    requires |a| == |b| && forall m :: 0 <= m < |a| ==> SameProgress(a[m], b[m])
    ensures CompletedIndices(a) == CompletedIndices(b)
  {
  }

  /** The recovery loop over the turns of one interaction. */
  method RecoverOne(i: DurableInteraction, now: int)
    returns (current: DurableInteraction, recovered: seq<RecoveredTurn>)
    requires DistinctTurns(i.turns)
    ensures current == Recovered(i, now)
    ensures recovered == RecoveryReport(i.id, i.turns, Lowest(i.turns), now)
  {
    hide PartlyRecovered, Recovered, RecoveryReport, Lowest, IsExpired, RecoverTurn, DistinctTurns,
         IsLowestIncomplete, Replaced;
    PartlyRecoveredStart(i, now);
    current, recovered := i, [];
    for k := 0 to |i.turns|
      invariant current == PartlyRecovered(i, k, now)
      invariant recovered == RecoveryReport(i.id, i.turns[..k], Lowest(i.turns), now)
    {
      var turn := i.turns[k];
      PartlyRecoveredStep(i, k, now);
      if IsExpired(turn, now) {
        current := Replaced(current, RecoverTurn(turn, now));
        var resumeAt := LowestIncomplete(current.turns);
        PartlyRecoveredLowest(i, k, now, resumeAt);
        current := current.(recoveredFrom := Some(resumeAt));
        recovered := recovered + [RecoveredTurn(i.id, turn.index, turn.lease.owner, turn.lease.expiresAt, resumeAt)];
      }
    }
    PartlyRecoveredEnd(i, now);
  }

  lemma RecoveredKeepsDistinct(i: DurableInteraction, now: int)
    requires DistinctTurns(i.turns)
    ensures DistinctTurns(Recovered(i, now).turns) && Recovered(i, now).id == i.id
  {
  }

  lemma LeaseWritesKeepDistinct(i: DurableInteraction, index: nat, agent: string, req: Request, token: string,
                                ttl: int, completed: bool, now: int)
    requires DistinctTurns(i.turns)
    ensures var r := GrantTurn(i, index, agent, req, now); r.Ok? ==> DistinctTurns(r.value.turns) && r.value.id == i.id
    ensures var r := HeartbeatTurn(i, index, token, ttl, now);
      r.Ok? ==> DistinctTurns(r.value.turns) && r.value.id == i.id
    ensures var r := ReleaseTurn(i, index, token, completed, now);
      r.Ok? ==> DistinctTurns(r.value.turns) && r.value.id == i.id
  {
    hide Grant, Heartbeat, Release;
    FindTurnSpec(i.turns, index);
  }

  /** Each interaction is filed under its id and records every turn index at most once. */
  ghost predicate WellKept(byId: map<string, DurableInteraction>) {
    forall id :: id in byId ==> byId[id].id == id && DistinctTurns(byId[id].turns)
  }

  class InteractionLedger {
    var byId: map<string, DurableInteraction>

    ghost predicate Valid()
      reads this
    {
      WellKept(byId)
    }

    function Stored(id: string): Option<DurableInteraction>
      reads this
    {
      if id in byId then Some(byId[id]) else None
    }

    constructor ()
      ensures byId == map[] && Valid()
    {
      byId := map[];
    }

    /** Creates the aggregate; a replayed start leaves an existing one as it is. */
    method Start(id: string, nodeKey: string, executionId: string, members: seq<string>)
      requires Valid()
      modifies this
      ensures Valid()
      ensures byId == if id in old(byId) then old(byId) else old(byId)[id := Fresh(id, nodeKey, executionId, members)]
      ensures id !in old(byId) ==>
        byId[id] == DurableInteraction(id, nodeKey, executionId, members, InteractionRunning, [], [], None, 1, None,
          None)
    {
      if id !in byId {
        byId := byId[id := Fresh(id, nodeKey, executionId, members)];
      }
    }

    method RecordTurn(id: string, index: nat, agent: string, status: TurnStatus, now: int) returns (r: Result<()>)
      requires Valid()
      modifies this
      ensures Valid() && (r.Ok? <==> id in old(byId))
      ensures byId == if id in old(byId) then old(byId)[id := WithTurn(old(byId)[id], index, agent, status, now)]
        else old(byId)
    {
      if id !in byId { return Err(KeyError); }
      var i := byId[id];
      WithTurnKeepsDistinct(i, index, agent, status, now);
      var existing := FindTurn(i.turns, index);
      var completedAt := if status == TurnCompleted then Some(now) else None;
      var turns := i.turns;
      if existing.Some? {
        if existing.value.status == status {
          return Ok(());
        }
        turns := ReplaceTurn(i.turns, existing.value.(status := status, completedAt := completedAt));
      } else {
        turns := i.turns + [DurableTurn(index, agent, status, NO_LEASE, completedAt)];
      }
      byId := byId[id := i.(turns := turns, version := i.version + 1)];
      r := Ok(());
    }

    method RecordMessage(id: string, index: nat, sender: string, content: string) returns (r: Result<()>)
      requires Valid()
      modifies this
      ensures Valid() && (r.Ok? <==> id in old(byId))
      ensures byId == if id in old(byId) then old(byId)[id := WithMessage(old(byId)[id], index, sender, content)]
        else old(byId)
    {
      if id !in byId { return Err(KeyError); }
      var i := byId[id];
      if !HasMessage(i, index, sender) {
        byId := byId[id := i.(messages := i.messages + [DurableMessage(index, sender, content)],
          version := i.version + 1)];
      }
      r := Ok(());
    }

    method RecordOutcome(id: string, outcome: Option<TypedOutcome>) returns (r: Result<()>)
      requires Valid()
      modifies this
      ensures Valid() && (r.Ok? <==> id in old(byId))
      ensures byId == if id in old(byId) then old(byId)[id := WithOutcome(old(byId)[id], outcome)] else old(byId)
    {
      if id !in byId { return Err(KeyError); }
      var i := byId[id];
      if i.outcome.None? && outcome.Some? {
        byId := byId[id := i.(outcome := outcome, version := i.version + 1)];
      }
      r := Ok(());
    }

    method MarkResumed(id: string, from: nat) returns (r: Result<()>)
      requires Valid()
      modifies this
      ensures Valid() && (r.Ok? <==> id in old(byId))
      ensures byId == if id in old(byId) then old(byId)[id := WithResumeMark(old(byId)[id], from)] else old(byId)
      ensures id in old(byId) ==>
        var was := old(byId)[id];
        byId[id] == if was.recoveredFrom == Some(from) then was
                    else was.(recoveredFrom := Some(from), version := was.version + 1)
    {
      if id !in byId { return Err(KeyError); }
      var i := byId[id];
      if i.recoveredFrom != Some(from) {
        byId := byId[id := i.(recoveredFrom := Some(from), version := i.version + 1)];
      }
      r := Ok(());
    }

    method Close(id: string, status: InteractionStatus, error: Option<string>) returns (r: Result<()>)
      requires Valid()
      modifies this
      ensures Valid() && (r.Ok? <==> id in old(byId))
      ensures byId == if id in old(byId) then old(byId)[id := Closed(old(byId)[id], status, error)] else old(byId)
      ensures id in old(byId) ==>
        var was := old(byId)[id];
        byId[id] == if was.status == status then was
                    else was.(status := status, error := error, version := was.version + 1)
    {
      if id !in byId { return Err(KeyError); }
      var i := byId[id];
      if i.status != status {
        byId := byId[id := i.(status := status, error := error, version := i.version + 1)];
      }
      r := Ok(());
    }

    /** `find_resumable_interaction`. */
    method FindResumable(id: string) returns (r: Option<DurableInteraction>)
      ensures r == Resumable(Stored(id))
    {
      if id !in byId { return None; }
      var i := byId[id];
      if i.status != InteractionRunning { return None; }
      r := if HasCompletedTurn(i) then Some(i) else None;
    }

    method GrantLease(id: string, index: nat, agent: string, req: Request, now: int) returns (r: Result<()>)
      requires Valid()
      modifies this
      ensures Valid()
      ensures r.Ok? <==> id in old(byId) && GrantTurn(old(byId)[id], index, agent, req, now).Ok?
      ensures byId == if r.Ok? then old(byId)[id := GrantTurn(old(byId)[id], index, agent, req, now).value]
        else old(byId)
    {
      hide GrantTurn, DistinctTurns;
      if id !in byId { return Err(LeaseError); }
      LeaseWritesKeepDistinct(byId[id], index, agent, req, "", 0, false, now);
      var updated :- GrantTurn(byId[id], index, agent, req, now);
      byId := byId[id := updated];
      r := Ok(());
    }

    method HeartbeatLease(id: string, index: nat, token: string, ttl: int, now: int) returns (r: Result<()>)
      requires Valid()
      modifies this
      ensures Valid()
      ensures r.Ok? <==> id in old(byId) && HeartbeatTurn(old(byId)[id], index, token, ttl, now).Ok?
      ensures byId == if r.Ok? then old(byId)[id := HeartbeatTurn(old(byId)[id], index, token, ttl, now).value]
        else old(byId)
    {
      hide HeartbeatTurn, DistinctTurns;
      if id !in byId { return Err(LeaseError); }
      LeaseWritesKeepDistinct(byId[id], index, "", Request("", 0, None, ""), token, ttl, false, now);
      var updated :- HeartbeatTurn(byId[id], index, token, ttl, now);
      byId := byId[id := updated];
      r := Ok(());
    }

    method ReleaseLease(id: string, index: nat, token: string, completed: bool, now: int) returns (r: Result<()>)
      requires Valid()
      modifies this
      ensures Valid()
      ensures r.Ok? <==> id in old(byId) && ReleaseTurn(old(byId)[id], index, token, completed, now).Ok?
      ensures byId == if r.Ok? then old(byId)[id := ReleaseTurn(old(byId)[id], index, token, completed, now).value]
        else old(byId)
    {
      hide ReleaseTurn, DistinctTurns;
      if id !in byId { return Err(LeaseError); }
      LeaseWritesKeepDistinct(byId[id], index, "", Request("", 0, None, ""), token, 0, completed, now);
      var updated :- ReleaseTurn(byId[id], index, token, completed, now);
      byId := byId[id := updated];
      r := Ok(());
    }

    /** `recover_expired_durable_turn_leases`: every interaction is recovered, and the report lists exactly the turns
        that were. */
    method RecoverExpired(now: int) returns (recovered: map<string, seq<RecoveredTurn>>)
      requires Valid()
      modifies this
      ensures Valid()
      ensures byId == map id | id in old(byId) :: Recovered(old(byId)[id], now)
      ensures recovered == map id | id in old(byId) ::
        RecoveryReport(id, old(byId)[id].turns, Lowest(old(byId)[id].turns), now)
    {
      byId, recovered := RecoverAll(byId, now);
    }
  }

  method RecoverAll(before: map<string, DurableInteraction>, now: int)
    returns (after: map<string, DurableInteraction>, recovered: map<string, seq<RecoveredTurn>>)
    requires WellKept(before)
    ensures WellKept(after)
    ensures after == map id | id in before :: Recovered(before[id], now)
    ensures recovered == map id | id in before :: RecoveryReport(id, before[id].turns, Lowest(before[id].turns), now)
  {
    hide Recovered, RecoveryReport, DistinctTurns, Lowest;
    var todo := before.Keys;
    after, recovered := map[], map[];
    while todo != {}
      invariant todo <= before.Keys && after.Keys == recovered.Keys == before.Keys - todo
      invariant forall id :: id in after ==>
        after[id] == Recovered(before[id], now) && after[id].id == id && DistinctTurns(after[id].turns)
      invariant forall id :: id in recovered ==>
        recovered[id] == RecoveryReport(id, before[id].turns, Lowest(before[id].turns), now)
      decreases |todo|
    {
      var id :| id in todo;
      var current, records := RecoverOne(before[id], now);
      RecoveredKeepsDistinct(before[id], now);
      after := after[id := current];
      recovered := recovered[id := records];
      todo := todo - {id};
    }
  }
}
