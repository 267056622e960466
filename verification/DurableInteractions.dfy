/** The durable, control-owned form of a team interaction and its idempotent recording operations. */
module DurableInteractions {
  import opened Outcomes
  import opened Leases
  import opened VoteTally

  datatype TurnStatus = TurnPending | TurnCompleted | TurnFailed

  datatype InteractionStatus = InteractionPending | InteractionRunning | InteractionCompleted | InteractionFailed

  datatype DurableTurn = DurableTurn(index: nat, agent: string, status: TurnStatus, lease: Lease,
    completedAt: Option<int>)

  datatype DurableMessage = DurableMessage(turnIndex: nat, sender: string, content: string)

  datatype TypedOutcome =
    | VoteResult(vote: VoteOutcome)
    | CoordinatorResult(coordinator: Option<string>, summary: string)

  datatype DurableInteraction = DurableInteraction(
    id: string,
    nodeKey: string,
    executionId: string,
    members: seq<string>,
    status: InteractionStatus,
    turns: seq<DurableTurn>,
    messages: seq<DurableMessage>,
    outcome: Option<TypedOutcome>,
    version: nat,
    recoveredFrom: Option<nat>,
    error: Option<string>)

  function Fresh(id: string, nodeKey: string, executionId: string, members: seq<string>): DurableInteraction {
    DurableInteraction(id, nodeKey, executionId, members, InteractionRunning, [], [], None, 1, None, None)
  }

  /** `turn_by_index`: the first recorded turn with this index. */
  function FindTurn(turns: seq<DurableTurn>, index: nat): Option<DurableTurn> {
    if turns == [] then None
    else if turns[0].index == index then Some(turns[0])
    else FindTurn(turns[1..], index)
  }

  /** Replaces every turn carrying the index of `turn` by it. */
  function ReplaceTurn(turns: seq<DurableTurn>, turn: DurableTurn): (r: seq<DurableTurn>)
    ensures |r| == |turns|
    ensures forall k :: 0 <= k < |turns| ==> r[k] == if turns[k].index == turn.index then turn else turns[k]
  {
    seq(|turns|, k requires 0 <= k < |turns| => if turns[k].index == turn.index then turn else turns[k])
  }

  /** A message is identified by its interaction, turn and sender. */
  predicate HasMessage(i: DurableInteraction, index: nat, sender: string) {
    exists k :: 0 <= k < |i.messages| && i.messages[k].turnIndex == index && i.messages[k].sender == sender
  }

  function WithTurn(i: DurableInteraction, index: nat, agent: string, status: TurnStatus,
                    now: int): DurableInteraction {
    var completedAt := if status == TurnCompleted then Some(now) else None;
    match FindTurn(i.turns, index)
    case Some(existing) =>
      if existing.status == status then i
      else i.(turns := ReplaceTurn(i.turns, existing.(status := status, completedAt := completedAt)),
        version := i.version + 1)
    case None =>
      i.(turns := i.turns + [DurableTurn(index, agent, status, NO_LEASE, completedAt)], version := i.version + 1)
  }

  function WithMessage(i: DurableInteraction, index: nat, sender: string, content: string): DurableInteraction {
    if HasMessage(i, index, sender) then i
    else i.(messages := i.messages + [DurableMessage(index, sender, content)], version := i.version + 1)
  }

  function WithOutcome(i: DurableInteraction, outcome: Option<TypedOutcome>): DurableInteraction {
    if i.outcome.Some? || outcome.None? then i else i.(outcome := outcome, version := i.version + 1)
  }

  function WithResumeMark(i: DurableInteraction, from: nat): DurableInteraction {
    if i.recoveredFrom == Some(from) then i else i.(recoveredFrom := Some(from), version := i.version + 1)
  }

  function Closed(i: DurableInteraction, status: InteractionStatus, error: Option<string>): DurableInteraction {
    if i.status == status then i else i.(status := status, error := error, version := i.version + 1)
  }

  predicate HasCompletedTurn(i: DurableInteraction) {
    exists k :: 0 <= k < |i.turns| && i.turns[k].status == TurnCompleted
  }

  /** Every index is recorded at most once. */
  ghost predicate DistinctTurns(turns: seq<DurableTurn>) {
    forall j, k :: 0 <= j < k < |turns| ==> turns[j].index != turns[k].index
  }

  /** `find_resumable_interaction`: only a running interaction with recorded progress is worth resuming. */
  function Resumable(stored: Option<DurableInteraction>): Option<DurableInteraction> {
    if stored.Some? && stored.value.status == InteractionRunning && HasCompletedTurn(stored.value) then stored else None
  }

  lemma {:induction false} FindTurnSpec(turns: seq<DurableTurn>, index: nat)
    ensures match FindTurn(turns, index)
      case None => forall k :: 0 <= k < |turns| ==> turns[k].index != index
      case Some(t) => t.index == index && exists k :: 0 <= k < |turns| && turns[k] == t
  {
    if turns != [] && turns[0].index != index {
      FindTurnSpec(turns[1..], index);
      if FindTurn(turns[1..], index).Some? {
        var k :| 0 <= k < |turns[1..]| && turns[1..][k] == FindTurn(turns[1..], index).value;
        assert turns[k + 1] == FindTurn(turns, index).value;
      } else {
        assert forall k :: 1 <= k < |turns| ==> turns[k] == turns[1..][k - 1];
      }
    }
  }

  lemma {:induction false} FindReplaced(turns: seq<DurableTurn>, turn: DurableTurn, index: nat)
    ensures FindTurn(ReplaceTurn(turns, turn), index)
         == if index == turn.index && FindTurn(turns, index).Some? then Some(turn) else FindTurn(turns, index)
  {
    if turns != [] {
      assert ReplaceTurn(turns, turn)[1..] == ReplaceTurn(turns[1..], turn);
      FindReplaced(turns[1..], turn, index);
    }
  }

  lemma {:induction false} FindAppended(turns: seq<DurableTurn>, turn: DurableTurn, index: nat)
    ensures FindTurn(turns + [turn], index)
         == if FindTurn(turns, index).Some? then FindTurn(turns, index) else if turn.index == index then Some(turn)
           else None
  {
    if turns == [] {
      assert turns + [turn] == [turn];
    } else {
      assert (turns + [turn])[1..] == turns[1..] + [turn];
      FindAppended(turns[1..], turn, index);
    }
  }

  /** Recording a turn keeps every index recorded at most once. */
  lemma WithTurnKeepsDistinct(i: DurableInteraction, index: nat, agent: string, status: TurnStatus, now: int)
    requires DistinctTurns(i.turns)
    ensures DistinctTurns(WithTurn(i, index, agent, status, now).turns)
  {
    FindTurnSpec(i.turns, index);
  }
}
