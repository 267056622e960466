/** The ephemeral runtime of one team interaction: scheduling over the kernel interaction, and its reconstruction
    from durable state. */
module TeamRuntime {
  import opened Outcomes
  import opened Teams
  import opened Scheduler
  import opened DurableInteractions

  // ---- seeding --------------------------------------------------------------------

  function CompletedTurns(turns: seq<DurableTurn>): (r: seq<DurableTurn>)
    ensures forall t :: t in r <==> t in turns && t.status == TurnCompleted
  {
    if turns == [] then []
    else CompletedTurns(turns[..|turns| - 1]) + if turns[|turns| - 1].status == TurnCompleted then
      [turns[|turns| - 1]] else []
  }

  /** Inserts behind every turn with the same or a smaller index. */
  function Insert(sorted: seq<DurableTurn>, t: DurableTurn): (r: seq<DurableTurn>)
    ensures |r| == |sorted| + 1 && forall x :: x in r <==> x == t || x in sorted
  {
    if sorted == [] || sorted[|sorted| - 1].index <= t.index then sorted + [t]
    else Insert(sorted[..|sorted| - 1], t) + [sorted[|sorted| - 1]]
  }

  /** `sorted(turns, key=turn_index)`, a stable sort. */
  function SortTurns(turns: seq<DurableTurn>): (r: seq<DurableTurn>)
    ensures |r| == |turns| && forall x :: x in r <==> x in turns
  {
    if turns == [] then [] else Insert(SortTurns(turns[..|turns| - 1]), turns[|turns| - 1])
  }

  /** The kernel messages recorded for one turn, in recorded order. */
  function MessagesOfTurn(messages: seq<DurableMessage>, index: nat): seq<Message> {
    if messages == [] then []
    else
      var m := messages[|messages| - 1];
      MessagesOfTurn(messages[..|messages| - 1], index)
      + if m.turnIndex == index then [Message(m.turnIndex, m.sender, m.content)] else []
  }

  function SeedTurns(turns: seq<DurableTurn>): seq<Turn> {
    seq(|turns|, k requires 0 <= k < |turns| => Turn(turns[k].index, turns[k].agent))
  }

  function SeedMessages(turns: seq<DurableTurn>, messages: seq<DurableMessage>): seq<Message> {
    if turns == [] then []
    else SeedMessages(turns[..|turns| - 1], messages) + MessagesOfTurn(messages, turns[|turns| - 1].index)
  }

  /** The kernel interaction a durable interaction stands for; refused when a completed turn names a stranger. */
  function Seed(team: Team, d: DurableInteraction): Result<Interaction> {
    var completed := SortTurns(CompletedTurns(d.turns));
    if exists k :: 0 <= k < |completed| && completed[k].agent !in team.members then Err(ValueError)
    else Ok(Interaction(team.members, team.protocol, SeedTurns(completed), SeedMessages(completed, d.messages)))
  }

  /** `seed_from_durable`: one pass over the completed turns in index order. */
  method SeedFromDurable(team: Team, d: DurableInteraction) returns (r: Result<Interaction>)
    ensures r == Seed(team, d)
  {
    hide SortTurns, CompletedTurns, MessagesOfTurn;
    var completed := SortTurns(CompletedTurns(d.turns));
    var seedTurns: seq<Turn> := [];
    var seedMessages: seq<Message> := [];
    for k := 0 to |completed|
      invariant forall j :: 0 <= j < k ==> completed[j].agent in team.members
      invariant seedTurns == SeedTurns(completed[..k])
      invariant seedMessages == SeedMessages(completed[..k], d.messages)
    {
      var turn := completed[k];
      if turn.agent !in team.members {
        return Err(ValueError);
      }
      assert completed[..k + 1][..k] == completed[..k];
      seedMessages := seedMessages + MessagesOfTurn(d.messages, turn.index);
      seedTurns := seedTurns + [Turn(turn.index, turn.agent)];
      assert SeedTurns(completed[..k + 1]) == SeedTurns(completed[..k]) + [Turn(turn.index, turn.agent)];
    }
    assert completed[..|completed|] == completed;
    r := Ok(Interaction(team.members, team.protocol, seedTurns, seedMessages));
  }

  ghost predicate StrictlyAscending(turns: seq<DurableTurn>) {
    forall i, j :: 0 <= i < j < |turns| ==> turns[i].index < turns[j].index
  }

  lemma {:induction false} InsertAscends(sorted: seq<DurableTurn>, t: DurableTurn)
    requires StrictlyAscending(sorted) && forall x :: x in sorted ==> x.index != t.index
    ensures StrictlyAscending(Insert(sorted, t))
  {
    if sorted != [] {
      var last := sorted[|sorted| - 1];
      if last.index > t.index {
        var init := sorted[..|sorted| - 1];
        InsertAscends(init, t);
        var r := Insert(init, t);
        forall i | 0 <= i < |r| ensures r[i].index < last.index {
          assert r[i] in r;
          assert r[i] == t || r[i] in init;
        }
      }
    }
  }

  lemma {:induction false} CompletedDistinct(turns: seq<DurableTurn>)
    requires DistinctTurns(turns)
    ensures DistinctTurns(CompletedTurns(turns))
  {
    if turns != [] {
      var init := turns[..|turns| - 1];
      CompletedDistinct(init);
      forall x | x in CompletedTurns(init) ensures x.index != turns[|turns| - 1].index {
        assert x in init;
      }
    }
  }

  lemma {:induction false} SortedStrictly(turns: seq<DurableTurn>)
    requires DistinctTurns(turns)
    ensures StrictlyAscending(SortTurns(turns))
  {
    if turns != [] {
      var init := turns[..|turns| - 1];
      SortedStrictly(init);
      forall x | x in SortTurns(init) ensures x.index != turns[|turns| - 1].index {
        assert x in init;
      }
      InsertAscends(SortTurns(init), turns[|turns| - 1]);
    }
  }

  function Indices(turns: seq<DurableTurn>): (r: seq<nat>)
    ensures |r| == |turns| && forall i :: 0 <= i < |turns| ==> r[i] == turns[i].index
  {
    seq(|turns|, i requires 0 <= i < |turns| => turns[i].index)
  }

  /** A strictly ascending list of exactly the numbers below `k` has number `i` at place `i`. */
  lemma {:induction false} AscendingRange(list: seq<nat>, k: nat)
    requires forall i, j :: 0 <= i < j < |list| ==> list[i] < list[j]
    requires forall n: nat :: n in list <==> n < k
    ensures |list| == k && forall i :: 0 <= i < k ==> list[i] == i
  {
    assert forall i :: 0 <= i < |list| ==> list[i] in list;
    if k > 0 {
      assert k - 1 in list;
      var p :| 0 <= p < |list| && list[p] == k - 1;
      var init := list[..p];
      forall n: nat ensures n in init <==> n < k - 1 {
        if n < k - 1 {
          assert n in list;
          var q :| 0 <= q < |list| && list[q] == n;
          assert init[q] == n;
        }
      }
      AscendingRange(init, k - 1);
    }
  }

  // ---- the runtime object -----------------------------------------------------------

  /** One scheduled turn: who acts, under which index, reading what. */
  datatype ScheduledTurn = ScheduledTurn(index: nat, agent: string, context: seq<Message>)

  class NativeTeamInteractionRuntime {
    const strategy: Strategy
    var interaction: Interaction

    constructor (strategy: Strategy, interaction: Interaction)
      ensures this.strategy == strategy && this.interaction == interaction
    {
      this.strategy := strategy;
      this.interaction := interaction;
    }

    function NextTurn(): Option<ScheduledTurn>
      reads this
    {
      match Scheduler.NextTurn(strategy, interaction)
      case None => None
      case Some(turn) => Some(ScheduledTurn(turn.index, turn.agent, Visible(strategy, interaction, turn.agent)))
    }

    /** Appends the produced message and the completed turn. */
    method RecordMemberMessage(turn: ScheduledTurn, content: string)
      modifies this
      ensures interaction == old(interaction).(
        turns := old(interaction).turns + [Turn(turn.index, turn.agent)],
        messages := old(interaction).messages + [Message(turn.index, turn.agent, content)])
    {
      var produced := Message(turn.index, turn.agent, content);
      var completed := Turn(turn.index, turn.agent);
      interaction := interaction.(messages := interaction.messages + [produced],
        turns := interaction.turns + [completed]);
    }
  }
}
