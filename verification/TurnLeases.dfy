/** Turn leases on a durable interaction and the recovery of expired ones. */
module TurnLeases {
  import opened Outcomes
  import opened Leases
  import opened DurableInteractions
  import Text

  predicate IsOpen(t: DurableTurn) { t.status != TurnCompleted }

  /** `_ensure_turn`: a turn about to be worked on is recorded as pending. */
  function EnsureTurn(i: DurableInteraction, index: nat, agent: string): (DurableInteraction, DurableTurn) {
    match FindTurn(i.turns, index)
    case Some(existing) => (i, existing)
    case None =>
      var turn := DurableTurn(index, agent, TurnPending, NO_LEASE, None);
      (i.(turns := i.turns + [turn], version := i.version + 1), turn)
  }

  function Replaced(i: DurableInteraction, turn: DurableTurn): DurableInteraction {
    i.(turns := ReplaceTurn(i.turns, turn), version := i.version + 1)
  }

  function GrantTurn(i: DurableInteraction, index: nat, agent: string, req: Request,
                     now: int): Result<DurableInteraction> {
    var (j, turn) := EnsureTurn(i, index, agent);
    var lease :- Grant(turn.lease, IsOpen(turn), req, now);
    Ok(Replaced(j, turn.(lease := lease)))
  }

  function HeartbeatTurn(i: DurableInteraction, index: nat, token: string, ttl: int,
                         now: int): Result<DurableInteraction> {
    match FindTurn(i.turns, index)
    case None => Err(LeaseError)
    case Some(turn) =>
      var lease :- Heartbeat(turn.lease, IsOpen(turn), token, ttl, now);
      Ok(Replaced(i, turn.(lease := lease)))
  }

  function ReleaseTurn(i: DurableInteraction, index: nat, token: string, completed: bool,
                       now: int): Result<DurableInteraction> {
    match FindTurn(i.turns, index)
    case None => Err(LeaseError)
    case Some(turn) =>
      var lease :- Release(turn.lease, IsOpen(turn), token, now);
      var cleared := turn.(lease := lease);
      Ok(Replaced(i, if completed then cleared.(status := TurnCompleted, completedAt := Some(now)) else cleared))
  }

  // ---- exactly when, and nothing else ------------------------------------------------

  lemma {:induction false} FindDistinct(turns: seq<DurableTurn>, p: nat)
    requires DistinctTurns(turns) && p < |turns|
    ensures FindTurn(turns, turns[p].index) == Some(turns[p])
    ensures forall turn: DurableTurn :: turn.index == turns[p].index ==> ReplaceTurn(turns, turn) == turns[p := turn]
  {
    FindTurnSpec(turns, turns[p].index);
  }

  /** The turn at place `p` is replaced, as one write, and nothing else changes. */
  predicate OnlyTurn(i: DurableInteraction, r: Result<DurableInteraction>, p: nat, turn: DurableTurn)
    requires p < |i.turns|
  {
    r == Ok(i.(turns := i.turns[p := turn], version := i.version + 1))
  }

  /** What holders may do with a recorded turn. A heartbeat is accepted exactly while the turn is not completed and its
      lease is in force, from its holder, for a positive time; a release exactly from the holder of a turn not
      completed, and it completes the turn if asked to; a grant exactly while the turn is not completed and no lease is
      in force, by a proper request. */
  lemma TurnHoldingExact(i: DurableInteraction, p: nat, agent: string, req: Request, token: string, ttl: int,
                         completed: bool, now: int)
    requires DistinctTurns(i.turns) && p < |i.turns|
    ensures var t := i.turns[p]; var r := HeartbeatTurn(i, t.index, token, ttl, now);
      if t.status != TurnCompleted && InForce(t.lease, now) && Matches(t.lease, token) && ttl > 0 then
        OnlyTurn(i, r, p, t.(lease := Lease(t.lease.token, t.lease.owner, Some(now), Some(now + ttl))))
      else r == Err(LeaseError)
    ensures var t := i.turns[p]; var r := ReleaseTurn(i, t.index, token, completed, now);
      if t.status != TurnCompleted && Matches(t.lease, token) then
        OnlyTurn(i, r, p, DurableTurn(t.index, t.agent, if completed then TurnCompleted else t.status,
          Lease(None, None, None, None), if completed then Some(now) else t.completedAt))
      else r == Err(LeaseError)
    ensures var t := i.turns[p]; var r := GrantTurn(i, t.index, agent, req, now);
      if t.status != TurnCompleted && !InForce(t.lease, now) && Proper(req) then
        OnlyTurn(i, r, p,
          t.(lease := Lease(Some(req.Token()), Some(Text.Strip(req.owner)), Some(now), Some(now + req.ttl))))
      else r == Err(LeaseError)
  {
    var t := i.turns[p];
    FindDistinct(i.turns, p);
    GrantExact(t.lease, t.status != TurnCompleted, req, now);
    HeartbeatExact(t.lease, t.status != TurnCompleted, token, ttl, now);
    ReleaseExact(t.lease, t.status != TurnCompleted, token, now);
    hide Grant, Heartbeat, Release, InForce, Matches, Proper, Text.Strip, DistinctTurns, FindTurn, ReplaceTurn;
  }

  /** Nothing can be done with the lease of a turn that is not recorded, but it can be leased, by a proper request, and
      is recorded as pending then, for the agent that is to take it. */
  lemma NewTurnExact(i: DurableInteraction, index: nat, agent: string, req: Request, token: string, ttl: int,
                     completed: bool, now: int)
    requires forall p :: 0 <= p < |i.turns| ==> i.turns[p].index != index
    ensures HeartbeatTurn(i, index, token, ttl, now) == Err(LeaseError)
    ensures ReleaseTurn(i, index, token, completed, now) == Err(LeaseError)
    ensures GrantTurn(i, index, agent, req, now) == if !Proper(req) then Err(LeaseError)
      else
        var lease := Lease(Some(req.Token()), Some(Text.Strip(req.owner)), Some(now), Some(now + req.ttl));
        Ok(i.(turns := i.turns + [DurableTurn(index, agent, TurnPending, lease, None)], version := i.version + 2))
  {
    FindTurnSpec(i.turns, index);
    GrantExact(NO_LEASE, true, req, now);
    hide Grant, Proper, Text.Strip, FindTurn;
    var turn := DurableTurn(index, agent, TurnPending, NO_LEASE, None);
    forall lease: Lease
      ensures ReplaceTurn(i.turns + [turn], turn.(lease := lease)) == i.turns + [turn.(lease := lease)]
    {
    }
  }

  // ---- a turn as a lease slot -----------------------------------------------------

  /** The lease slot of one turn index; a turn not recorded yet is an open slot without a lease. */
  function TurnSlot(i: DurableInteraction, index: nat): Slot {
    match FindTurn(i.turns, index)
    case None => Slot(true, NO_LEASE)
    case Some(t) => Slot(IsOpen(t), t.lease)
  }

  /** The interaction moved exactly the slot of `index`, as event `e` prescribes; every other slot stayed. */
  ghost predicate StepsSlot(i: DurableInteraction, j: DurableInteraction, index: nat, e: Event) {
    && TurnSlot(j, index) == Step(TurnSlot(i, index), e).slot
    && forall k: nat :: k != index ==> TurnSlot(j, k) == TurnSlot(i, k)
  }

  lemma ReplacedSlots(i: DurableInteraction, turn: DurableTurn)
    requires FindTurn(i.turns, turn.index).Some?
    ensures TurnSlot(Replaced(i, turn), turn.index) == Slot(IsOpen(turn), turn.lease)
    ensures forall k: nat :: k != turn.index ==> TurnSlot(Replaced(i, turn), k) == TurnSlot(i, k)
  {
    FindReplaced(i.turns, turn, turn.index);
    forall k: nat | k != turn.index ensures TurnSlot(Replaced(i, turn), k) == TurnSlot(i, k) {
      FindReplaced(i.turns, turn, k);
    }
  }

  lemma {:induction false} EnsuredSlots(i: DurableInteraction, index: nat, agent: string)
    ensures var (j, turn) := EnsureTurn(i, index, agent);
      turn.index == index && FindTurn(j.turns, index) == Some(turn) && forall k: nat :: TurnSlot(j, k) == TurnSlot(i, k)
  {
    FindTurnSpec(i.turns, index);
    var (j, turn) := EnsureTurn(i, index, agent);
    forall k: nat ensures TurnSlot(j, k) == TurnSlot(i, k) {
      FindAppended(i.turns, turn, k);
    }
    FindAppended(i.turns, turn, index);
  }

  lemma GrantStepsSlot(i: DurableInteraction, index: nat, agent: string, req: Request, now: int)
    ensures var e := GrantAt(now, req); var r := GrantTurn(i, index, agent, req, now);
      (r.Ok? <==> Step(TurnSlot(i, index), e).accepted) && (r.Ok? ==> StepsSlot(i, r.value, index, e))
  {
    EnsuredSlots(i, index, agent);
    var (j, turn) := EnsureTurn(i, index, agent);
    hide Grant, EnsureTurn;
    var lease := Grant(turn.lease, IsOpen(turn), req, now);
    if lease.Ok? {
      ReplacedSlots(j, turn.(lease := lease.value));
    }
  }

  lemma UseStepsSlot(i: DurableInteraction, index: nat, token: string, ttl: int, completed: bool, now: int)
    ensures var e := HeartbeatAt(now, token, ttl); var r := HeartbeatTurn(i, index, token, ttl, now);
      (r.Ok? <==> Step(TurnSlot(i, index), e).accepted) && (r.Ok? ==> StepsSlot(i, r.value, index, e))
    ensures var e := ReleaseAt(now, token, completed); var r := ReleaseTurn(i, index, token, completed, now);
      (r.Ok? <==> Step(TurnSlot(i, index), e).accepted) && (r.Ok? ==> StepsSlot(i, r.value, index, e))
  {
    var found := FindTurn(i.turns, index);
    FindTurnSpec(i.turns, index);
    NoLeaseUnusable(token, ttl, now);
    assert found.Some? && Release(found.value.lease, IsOpen(found.value), token, now).Ok? ==> IsOpen(found.value);
    hide Heartbeat, Release;
    if found.Some? {
      var turn := found.value;
      var beat := Heartbeat(turn.lease, IsOpen(turn), token, ttl, now);
      if beat.Ok? {
        ReplacedSlots(i, turn.(lease := beat.value));
      }
      var freed := Release(turn.lease, IsOpen(turn), token, now);
      if freed.Ok? {
        var cleared := turn.(lease := freed.value);
        ReplacedSlots(i, if completed then cleared.(status := TurnCompleted, completedAt := Some(now)) else cleared);
      }
    }
  }

  lemma NoLeaseUnusable(token: string, ttl: int, now: int)
    ensures Heartbeat(NO_LEASE, true, token, ttl, now).Err? && Release(NO_LEASE, true, token, now).Err?
  {
  }

  /** Recording a turn as completed closes its slot and keeps whatever lease metadata it has. */
  lemma CompletionClosesSlot(i: DurableInteraction, index: nat, agent: string, now: int)
    ensures StepsSlot(i, WithTurn(i, index, agent, TurnCompleted, now), index, CloseAt(now, true, false))
  {
    FindTurnSpec(i.turns, index);
    if FindTurn(i.turns, index).Some? {
      var existing := FindTurn(i.turns, index).value;
      if existing.status != TurnCompleted {
        ReplacedSlots(i, existing.(status := TurnCompleted, completedAt := Some(now)));
      }
    } else {
      var turn := DurableTurn(index, agent, TurnCompleted, NO_LEASE, Some(now));
      FindAppended(i.turns, turn, index);
      forall k: nat | k != index ensures FindTurn(i.turns + [turn], k) == FindTurn(i.turns, k) {
        FindAppended(i.turns, turn, k);
      }
    }
  }

  // ---- recovery -------------------------------------------------------------------

  function CompletedIndices(turns: seq<DurableTurn>): (s: set<nat>)
    ensures forall n :: n in s <==> exists k ::
      0 <= k < |turns| && turns[k].status == TurnCompleted && turns[k].index == n
  {
    set k | 0 <= k < |turns| && turns[k].status == TurnCompleted :: turns[k].index
  }

  /** The least index that is not recorded as completed. */
  ghost predicate IsLowestIncomplete(turns: seq<DurableTurn>, n: nat) {
    n !in CompletedIndices(turns) && forall m: nat :: m < n ==> m in CompletedIndices(turns)
  }

  lemma {:induction false} RangeFits(s: set<nat>, n: nat)
    requires forall m: nat :: m < n ==> m in s
    ensures n <= |s|
  {
    if n > 0 {
      RangeFits(s - {n - 1}, n - 1);
    }
  }

  /** `_lowest_incomplete_turn_index`: counts up through the completed indices. There are finitely many of them, so
      the count stops. */
  method LowestIncomplete(turns: seq<DurableTurn>) returns (n: nat)
    ensures IsLowestIncomplete(turns, n)
  {
    var completed := CompletedIndices(turns);
    n := 0;
    while n in completed
      invariant forall m: nat :: m < n ==> m in completed
      decreases |completed| - n
    {
      RangeFits(completed, n + 1);
      n := n + 1;
    }
  }

  ghost function CountUp(completed: set<nat>, n: nat): (r: nat)
    requires forall m: nat :: m < n ==> m in completed
    ensures r !in completed && forall m: nat :: m < r ==> m in completed
    decreases |completed| - n
  {
    if n in completed then RangeFits(completed, n + 1); CountUp(completed, n + 1) else n
  }

  ghost function Lowest(turns: seq<DurableTurn>): (n: nat)
    ensures IsLowestIncomplete(turns, n)
  {
    CountUp(CompletedIndices(turns), 0)
  }

  lemma LowestIsUnique(turns: seq<DurableTurn>, m: nat, n: nat)
    requires IsLowestIncomplete(turns, m) && IsLowestIncomplete(turns, n)
    ensures m == n
  {
  }

  /** When the completed turns are those of indices below `k`, the resume point is `k`. */
  lemma LowestOfPrefix(turns: seq<DurableTurn>, k: nat)
    requires forall n: nat :: n in CompletedIndices(turns) <==> n < k
    ensures IsLowestIncomplete(turns, k)
  {
  }

  predicate IsExpired(t: DurableTurn, now: int) { Expired(t.lease, IsOpen(t), now) }

  function RecoverTurn(t: DurableTurn, now: int): DurableTurn {
    if IsExpired(t, now) then t.(status := TurnPending, lease := NO_LEASE) else t
  }

  function RecoverTurns(turns: seq<DurableTurn>, now: int): (r: seq<DurableTurn>)
    ensures |r| == |turns| && forall k :: 0 <= k < |turns| ==> r[k] == RecoverTurn(turns[k], now)
  {
    seq(|turns|, k requires 0 <= k < |turns| => RecoverTurn(turns[k], now))
  }

  function ExpiredCount(turns: seq<DurableTurn>, now: int): nat {
    if turns == [] then 0
    else ExpiredCount(turns[..|turns| - 1], now) + if IsExpired(turns[|turns| - 1], now) then 1 else 0
  }

  /** What recovery makes of one interaction: every expired turn is reopened without a lease, each of them counts
      as one write, and if there was one the resume point is stamped. */
  ghost function Recovered(i: DurableInteraction, now: int): DurableInteraction {
    var n := ExpiredCount(i.turns, now);
    if n == 0 then i
    else i.(turns := RecoverTurns(i.turns, now), version := i.version + n,
      recoveredFrom := Some(Lowest(RecoverTurns(i.turns, now))))
  }

  lemma {:induction false} NothingExpired(turns: seq<DurableTurn>, now: int)
    ensures ExpiredCount(turns, now) == 0 <==> forall k :: 0 <= k < |turns| ==> !IsExpired(turns[k], now)
    ensures ExpiredCount(turns, now) == 0 ==> RecoverTurns(turns, now) == turns
  {
    if turns != [] {
      NothingExpired(turns[..|turns| - 1], now);
    }
  }

  lemma RecoveryKeepsCompleted(turns: seq<DurableTurn>, now: int)
    ensures CompletedIndices(RecoverTurns(turns, now)) == CompletedIndices(turns)
  {
  }

  /** The turn is not completed, and carries a lease that is not in force. */
  predicate OverdueTurn(t: DurableTurn, now: int) {
    t.status != TurnCompleted && !InForce(t.lease, now)
    && ((t.lease.token.Some? && t.lease.token.value != "") || (t.lease.owner.Some? && t.lease.owner.value != "")
        || t.lease.expiresAt.Some?)
  }

  /** Recovery is exact: precisely the incomplete turns whose lease is no longer live lose it, every other turn stays
      as it was, the completed indices do not change, and the stamp is the least index not completed. */
  lemma RecoveryExact(i: DurableInteraction, now: int)
    ensures var j := Recovered(i, now);
      && |j.turns| == |i.turns|
      && (forall k :: 0 <= k < |i.turns| ==>
           var t := i.turns[k];
           j.turns[k] == if OverdueTurn(t, now) then DurableTurn(t.index, t.agent, TurnPending, NO_LEASE, t.completedAt)
                         else t)
      && (forall k :: 0 <= k < |i.turns| && i.turns[k].status == TurnCompleted ==> j.turns[k] == i.turns[k])
      && j.version == i.version + |set k | 0 <= k < |i.turns| && OverdueTurn(i.turns[k], now)|
      && j.messages == i.messages && j.outcome == i.outcome && j.status == i.status
      && CompletedIndices(j.turns) == CompletedIndices(i.turns)
      && (j != i ==> j.recoveredFrom.Some? && IsLowestIncomplete(i.turns, j.recoveredFrom.value))
  {
    NothingExpired(i.turns, now);
    RecoveryKeepsCompleted(i.turns, now);
    ExpiredAreOverdue(i.turns, now);
    forall k | 0 <= k < |i.turns| { RecoveredTurnExact(i.turns[k], now); }
    assert forall k :: 0 <= k < |i.turns| && i.turns[k].status == TurnCompleted ==> !OverdueTurn(i.turns[k], now);
    hide OverdueTurn, IsExpired, RecoverTurn, IsLowestIncomplete;
  }

  lemma RecoveredTurnExact(t: DurableTurn, now: int)
    ensures IsExpired(t, now) == OverdueTurn(t, now)
    ensures RecoverTurn(t, now)
         == if OverdueTurn(t, now) then DurableTurn(t.index, t.agent, TurnPending, NO_LEASE, t.completedAt) else t
  {
  }

  lemma {:induction false} ExpiredAreOverdue(turns: seq<DurableTurn>, now: int)
    ensures ExpiredCount(turns, now) == |set k | 0 <= k < |turns| && OverdueTurn(turns[k], now)|
  {
    if turns != [] {
      var init := turns[..|turns| - 1];
      ExpiredAreOverdue(init, now);
      var before := set k | 0 <= k < |init| && OverdueTurn(init[k], now);
      var after := set k | 0 <= k < |turns| && OverdueTurn(turns[k], now);
      assert IsExpired(turns[|init|], now) == OverdueTurn(turns[|init|], now);
      assert forall k :: 0 <= k < |init| ==> turns[k] == init[k];
      hide OverdueTurn, IsExpired;
      assert forall k :: k in after <==> k in before || (k == |init| && OverdueTurn(turns[k], now));
      if OverdueTurn(turns[|init|], now) {
        assert after == before + {|init|};
      } else {
        assert after == before;
      }
    }
  }

  /** Recovering again at the same time changes nothing. */
  lemma RecoveryIdempotent(i: DurableInteraction, now: int)
    ensures Recovered(Recovered(i, now), now) == Recovered(i, now)
  {
    RecoveryExact(i, now);
    var j := Recovered(i, now);
    forall m | 0 <= m < |j.turns| ensures !IsExpired(j.turns[m], now) {
      RecoveredTurnExact(i.turns[m], now);
    }
    NothingExpired(j.turns, now);
  }

  lemma {:induction false} RecoveryStepsTurns(turns: seq<DurableTurn>, now: int, index: nat)
    ensures FindTurn(RecoverTurns(turns, now), index)
         == match FindTurn(turns, index) case None => None case Some(t) => Some(RecoverTurn(t, now))
  {
    if turns != [] {
      assert RecoverTurns(turns, now)[1..] == RecoverTurns(turns[1..], now);
      RecoveryStepsTurns(turns[1..], now, index);
    }
  }

  /** Recovery moves the slot of every turn as the lease protocol's recovery event does. */
  lemma RecoveryStepsSlots(i: DurableInteraction, now: int, index: nat)
    ensures TurnSlot(Recovered(i, now), index) == Step(TurnSlot(i, index), RecoverAt(now, false)).slot
  {
    NothingExpired(i.turns, now);
    RecoveryStepsTurns(i.turns, now, index);
  }

  // ---- runs of operations on one interaction ----------------------------------------

  datatype TurnOp =
    | GrantOp(index: nat, agent: string, req: Request, now: int)
    | HeartbeatOp(index: nat, token: string, ttl: int, now: int)
    | ReleaseOp(index: nat, token: string, completed: bool, now: int)
    | RecoverOp(now: int)
    | CompleteOp(index: nat, agent: string, now: int)

  ghost function Attempt(i: DurableInteraction, op: TurnOp): Result<DurableInteraction> {
    match op
    case GrantOp(index, agent, req, now) => GrantTurn(i, index, agent, req, now)
    case HeartbeatOp(index, token, ttl, now) => HeartbeatTurn(i, index, token, ttl, now)
    case ReleaseOp(index, token, completed, now) => ReleaseTurn(i, index, token, completed, now)
    case RecoverOp(now) => Ok(Recovered(i, now))
    case CompleteOp(index, agent, now) => Ok(WithTurn(i, index, agent, TurnCompleted, now))
  }

  /** The interaction before operation `k`; a refused operation leaves it as it is. */
  ghost function StateAt(i: DurableInteraction, ops: seq<TurnOp>, k: nat): DurableInteraction
    requires k <= |ops|
  {
    if k == 0 then i
    else
      var before := StateAt(i, ops, k - 1);
      var r := Attempt(before, ops[k - 1]);
      if r.Ok? then r.value else before
  }

  ghost predicate Succeeds(i: DurableInteraction, ops: seq<TurnOp>, k: nat)
    requires k < |ops|
  {
    Attempt(StateAt(i, ops, k), ops[k]).Ok?
  }

  /** What an operation means for the slot of one turn. */
  function EventFor(op: TurnOp, index: nat): Event {
    if op.RecoverOp? then RecoverAt(op.now, false)
    else if op.index != index then Elsewhere(op.now)
    else match op
      case GrantOp(_, _, req, now) => GrantAt(now, req)
      case HeartbeatOp(_, token, ttl, now) => HeartbeatAt(now, token, ttl)
      case ReleaseOp(_, token, completed, now) => ReleaseAt(now, token, completed)
      case CompleteOp(_, _, now) => CloseAt(now, true, false)
  }

  function Events(ops: seq<TurnOp>, index: nat): (r: seq<Event>)
    ensures |r| == |ops| && forall k :: 0 <= k < |ops| ==> r[k] == EventFor(ops[k], index)
  {
    seq(|ops|, k requires 0 <= k < |ops| => EventFor(ops[k], index))
  }

  /** One operation is one lease event on every slot. */
  lemma OperationStepsSlot(i: DurableInteraction, op: TurnOp, index: nat)
    ensures var r, o := Attempt(i, op), Step(TurnSlot(i, index), EventFor(op, index));
      && TurnSlot(if r.Ok? then r.value else i, index) == o.slot
      && (!op.RecoverOp? && op.index == index ==> (r.Ok? <==> o.accepted))
  {
    hide Step, GrantTurn, HeartbeatTurn, ReleaseTurn, Recovered, WithTurn, TurnSlot;
    match op
    case GrantOp(k, agent, req, now) =>
      GrantStepsSlot(i, k, agent, req, now);
      RefusalKeepsSlot(TurnSlot(i, index), EventFor(op, index));
    case HeartbeatOp(k, token, ttl, now) =>
      UseStepsSlot(i, k, token, ttl, false, now);
      RefusalKeepsSlot(TurnSlot(i, index), EventFor(op, index));
    case ReleaseOp(k, token, completed, now) =>
      UseStepsSlot(i, k, token, 1, completed, now);
      RefusalKeepsSlot(TurnSlot(i, index), EventFor(op, index));
    case RecoverOp(now) =>
      RecoveryStepsSlots(i, now, index);
    case CompleteOp(k, agent, now) =>
      CompletionClosesSlot(i, k, agent, now);
      RefusalKeepsSlot(TurnSlot(i, index), EventFor(op, index));
  }

  lemma RefusalKeepsSlot(s: Slot, e: Event)
    ensures !Step(s, e).accepted ==> Step(s, e).slot == s
    ensures e.Elsewhere? ==> !Step(s, e).accepted
    ensures e.CloseAt? ==> Step(s, e).accepted
  {
  }

  /** A run of operations on an interaction is, for each turn, a run of the lease protocol. */
  lemma {:induction false} RunProjects(i: DurableInteraction, ops: seq<TurnOp>, index: nat, k: nat)
    requires k <= |ops|
    ensures TurnSlot(StateAt(i, ops, k), index) == At(TurnSlot(i, index), Events(ops, index), k)
  {
    hide Step, TurnSlot, Attempt, EventFor;
    if k > 0 {
      RunProjects(i, ops, index, k - 1);
      OperationStepsSlot(StateAt(i, ops, k - 1), ops[k - 1], index);
    }
  }

  lemma SuccessIsAcceptance(i: DurableInteraction, ops: seq<TurnOp>, k: nat)
    requires k < |ops| && !ops[k].RecoverOp?
    ensures Succeeds(i, ops, k) <==> Accepted(TurnSlot(i, ops[k].index), Events(ops, ops[k].index), k)
  {
    hide Step, TurnSlot, Attempt, EventFor;
    RunProjects(i, ops, ops[k].index, k);
    OperationStepsSlot(StateAt(i, ops, k), ops[k], ops[k].index);
  }

  lemma SuccessIsGrant(i: DurableInteraction, ops: seq<TurnOp>, a: nat)
    requires a < |ops| && ops[a].GrantOp? && Succeeds(i, ops, a)
    ensures Granted(TurnSlot(i, ops[a].index), Events(ops, ops[a].index), a)
  {
    hide Step, TurnSlot, Attempt, At, StateAt;
    SuccessIsAcceptance(i, ops, a);
  }

  lemma FirstTurnLeaseEnds(i: DurableInteraction, ops: seq<TurnOp>, a: nat, b: nat) returns (k: nat)
    requires a < b < |ops|
    requires ops[a].GrantOp? && ops[b].GrantOp? && ops[a].index == ops[b].index
    requires WellFormed(TurnSlot(i, ops[a].index).lease)
    requires FreshTokens(TurnSlot(i, ops[a].index), Events(ops, ops[a].index))
    requires Succeeds(i, ops, a) && Succeeds(i, ops, b)
    ensures a < k <= b
    ensures GivesUp(TurnSlot(StateAt(i, ops, k), ops[a].index), Events(ops, ops[a].index)[k], ops[a].req.Token())
  {
    hide Step, TurnSlot, Attempt, At, StateAt, GivesUp, Granted, WellFormed, FreshTokens, Succeeds;
    SuccessIsGrant(i, ops, a);
    SuccessIsGrant(i, ops, b);
    k := FirstLeaseEnds(TurnSlot(i, ops[a].index), Events(ops, ops[a].index), a, b);
    RunProjects(i, ops, ops[a].index, k);
  }

  lemma FirstTurnTokenLockedOut(i: DurableInteraction, ops: seq<TurnOp>, a: nat, b: nat, m: nat)
    requires a < b < m < |ops|
    requires ops[a].GrantOp? && ops[b].GrantOp? && ops[a].index == ops[b].index
    requires FreshTokens(TurnSlot(i, ops[a].index), Events(ops, ops[a].index))
    requires Succeeds(i, ops, a) && Succeeds(i, ops, b)
    requires ActsWith(ops[m], ops[a].index, ops[a].req.Token())
    ensures !Succeeds(i, ops, m)
  {
    hide Step, TurnSlot, Attempt, At, StateAt, Granted, FreshTokens, Presents, Succeeds;
    SuccessIsGrant(i, ops, a);
    SuccessIsGrant(i, ops, b);
    SuccessIsAcceptance(i, ops, m);
    FirstTokenLockedOut(TurnSlot(i, ops[a].index), Events(ops, ops[a].index), a, b, m);
  }

  /** Two workers never own one turn at a time. When the same turn of an interaction is granted twice, the first lease
      has been given up in between (released by its holder, past its last expiry, or recovered after it), and from the
      second grant on the first token can neither extend nor release the lease nor complete the turn. */
  lemma {:induction false} TurnLeaseExclusive(i: DurableInteraction, ops: seq<TurnOp>, a: nat, b: nat)
    requires a < b < |ops|
    requires ops[a].GrantOp? && ops[b].GrantOp? && ops[a].index == ops[b].index
    requires WellFormed(TurnSlot(i, ops[a].index).lease)
    requires FreshTokens(TurnSlot(i, ops[a].index), Events(ops, ops[a].index))
    requires Succeeds(i, ops, a) && Succeeds(i, ops, b)
    ensures exists k ::
      a < k <= b && GivesUp(TurnSlot(StateAt(i, ops, k), ops[a].index), Events(ops, ops[a].index)[k],
        ops[a].req.Token())
    ensures forall m :: b < m < |ops| && ActsWith(ops[m], ops[a].index, ops[a].req.Token()) ==> !Succeeds(i, ops, m)
  {
    hide TurnSlot, StateAt, GivesUp, WellFormed, FreshTokens, Succeeds, ActsWith;
    var k := FirstTurnLeaseEnds(i, ops, a, b);
    forall m | b < m < |ops| && ActsWith(ops[m], ops[a].index, ops[a].req.Token()) ensures !Succeeds(i, ops, m) {
      FirstTurnTokenLockedOut(i, ops, a, b, m);
    }
  }

  /** The operation extends or releases the lease of turn `index`, presenting `token`. */
  predicate ActsWith(op: TurnOp, index: nat, token: string) {
    (op.HeartbeatOp? || op.ReleaseOp?) && op.index == index && Presents(EventFor(op, index), token)
  }

  /** A turn is completed through a lease release at most once. */
  lemma TurnReleasedAsCompletedOnce(i: DurableInteraction, ops: seq<TurnOp>, a: nat, b: nat)
    requires a < |ops| && b < |ops| && ops[a].ReleaseOp? && ops[b].ReleaseOp? && ops[a].index == ops[b].index
    requires ops[a].completed && ops[b].completed && Succeeds(i, ops, a) && Succeeds(i, ops, b)
    ensures a == b
  {
    SuccessIsAcceptance(i, ops, a);
    SuccessIsAcceptance(i, ops, b);
    CompletedOnce(TurnSlot(i, ops[a].index), Events(ops, ops[a].index), a, b);
  }
}
