/** The executor of a team node: it drives the scheduled turns and writes each of them to durable state. A worker may
    die before any of these writes; `budget` is the number of writes it lives to make. */
module TeamExecutor {
  import opened Outcomes
  import opened Teams
  import opened Scheduler
  import opened DurableInteractions
  import opened InteractionLedgers
  import opened TeamRuntime
  import opened TeamRuns
  import opened TeamRecording

  datatype Invocation =
    | Crashed
    | Raised(error: Error)
    | Finished(results: seq<MemberResult>, outcome: Option<TypedOutcome>)

  // ---- results of turns completed earlier -----------------------------------------

  /** `content_by_turn.get(index, "")`: the last message recorded for the turn. */
  function LastContent(messages: seq<DurableMessage>, index: nat): string {
    if messages == [] then ""
    else if messages[|messages| - 1].turnIndex == index then messages[|messages| - 1].content
    else LastContent(messages[..|messages| - 1], index)
  }

  lemma {:induction false} LastContentOfTurn(messages: seq<DurableMessage>, index: nat)
    ensures var ms := MessagesOfTurn(messages, index);
      LastContent(messages, index) == if ms == [] then "" else ms[|ms| - 1].content
  {
    if messages != [] {
      LastContentOfTurn(messages[..|messages| - 1], index);
    }
  }

  function PriorResult(t: DurableTurn, messages: seq<DurableMessage>): MemberResult {
    MemberResult(t.agent, Reply(LastContent(messages, t.index), ""), true)
  }

  /** `_prior_results_from_durable`: results of completed turns are read back, not produced again. */
  method PriorResults(d: DurableInteraction) returns (results: seq<MemberResult>)
    ensures var sorted := SortTurns(CompletedTurns(d.turns));
      |results| == |sorted| && forall k :: 0 <= k < |sorted| ==> results[k] == PriorResult(sorted[k], d.messages)
  {
    hide SortTurns, CompletedTurns;
    var sorted := SortTurns(CompletedTurns(d.turns));
    results := [];
    for k := 0 to |sorted|
      invariant |results| == k && forall j :: 0 <= j < k ==> results[j] == PriorResult(sorted[j], d.messages)
    {
      results := results + [PriorResult(sorted[k], d.messages)];
    }
  }

  lemma PriorResultsMatch(s: Setup, lost: set<nat>, k: nat, d: DurableInteraction, results: seq<MemberResult>)
    requires Records(s, lost, k, d)
    requires var sorted := SortTurns(CompletedTurns(d.turns));
      |results| == |sorted| && forall i :: 0 <= i < |sorted| ==> results[i] == PriorResult(sorted[i], d.messages)
    ensures ContributionsOf(results) == Contributions(s, lost, k)
  {
    CompletedSorted(s, k, d.turns);
    hide SortTurns, CompletedTurns, Transcript, Said, OutcomeFor, Schedule;
    forall i | 0 <= i < k ensures ContributionOf(results[i]) == Contribution(s.Plan()[i], Recorded(s, lost, i)) {
      LastContentOfTurn(d.messages, i);
      MessagesOfTurnIn(s, lost, k, i);
    }
  }

  // ---- termination ------------------------------------------------------------------

  lemma {:induction false} FirstUnactedIsNew(members: seq<string>, skip: Option<string>, acted: seq<string>)
    ensures var a := FirstUnacted(members, skip, acted); a.Some? ==> a.value in members && a.value !in acted
  {
    if members != [] {
      FirstUnactedIsNew(members[1..], skip, acted);
    }
  }

  /** An upper bound on the turns an interaction can still take. */
  function Remaining(strategy: Strategy, i: Interaction): nat {
    if strategy == Debate then
      var all := RoundsSetting(i.protocol) * |i.members|;
      if |i.turns| < all then all - |i.turns| else 0
    else
      |set m | m in i.members && m !in Acted(i.turns)|
  }

  lemma TurnUsesUp(strategy: Strategy, i: Interaction, j: Interaction)
    requires i.protocol.coordinator.Some? ==> i.protocol.coordinator.value in i.members
    requires NextTurn(strategy, i).Some?
    requires j.members == i.members && j.protocol == i.protocol && j.turns == i.turns + [NextTurn(strategy, i).value]
    ensures Remaining(strategy, j) < Remaining(strategy, i)
  {
    if strategy != Debate {
      var agent := NextTurn(strategy, i).value.agent;
      FirstUnactedIsNew(i.members, None, Acted(i.turns));
      FirstUnactedIsNew(i.members, i.protocol.coordinator, Acted(i.turns));
      assert Acted(j.turns) == Acted(i.turns) + [agent];
      var before := set m | m in i.members && m !in Acted(i.turns);
      var after := set m | m in j.members && m !in Acted(j.turns);
      assert after == before - {agent} && agent in before;
    }
  }

  // ---- the executor -----------------------------------------------------------------

  ghost function Range(from: nat, to: nat): (r: seq<nat>)
    requires from <= to
    ensures |r| == to - from && forall i :: 0 <= i < |r| ==> r[i] == from + i
  {
    seq(to - from, i requires 0 <= i < to - from => from + i)
  }

  /** What the worker holds in memory is the run after `k` turns. */
  ghost predicate InMemory(s: Setup, lost: set<nat>, k: nat, i: Interaction, results: seq<MemberResult>) {
    k <= |s.Plan()| && i == Kernel(s, lost, k) && ContributionsOf(results) == Contributions(s, lost, k)
  }

  /** What is known of the durable state and of how far this worker is: the run is under way after `k` turns with the
      messages of `lost` missing; or it was already concluded in full and is being replayed, `k` turns in. */
  datatype Knowledge = UnderWay(lost: set<nat>, k: nat) | Replaying(k: nat) | Unknown {
    function Lost(): set<nat> { if UnderWay? then lost else {} }

    function At(k: nat): Knowledge {
      match this
      case UnderWay(lost, _) => UnderWay(lost, k)
      case Replaying(_) => Replaying(k)
      case Unknown => Unknown
    }

    /** The turn is written, its message is not. */
    function Torn(): Knowledge {
      if UnderWay? then UnderWay(lost + {k}, k + 1) else this
    }
  }

  ghost predicate Holds(s: Setup, known: Knowledge, stored: Option<DurableInteraction>) {
    match known
    case UnderWay(lost, k) => InProgress(s, lost, k, stored)
    case Replaying(_) => stored.Some? && Concluded(s, {}, stored.value)
    case Unknown => true
  }

  /** Memory agrees with what is known. */
  ghost predicate Agrees(s: Setup, known: Knowledge, i: Interaction, results: seq<MemberResult>) {
    known != Unknown ==> InMemory(s, known.Lost(), known.k, i, results)
  }

  lemma ContributionsGrow(s: Setup, lost: set<nat>, k: nat, results: seq<MemberResult>, r: MemberResult)
    requires k < |s.Plan()| && ContributionsOf(results) == Contributions(s, lost, k)
    requires ContributionOf(r) == Contribution(s.Plan()[k], Recorded(s, lost, k))
    ensures ContributionsOf(results + [r]) == Contributions(s, lost, k + 1)
  {
  }

  lemma KernelGrows(s: Setup, lost: set<nat>, k: nat)
    requires k < |s.Plan()| && k !in lost
    ensures var i := Kernel(s, lost, k);
      Kernel(s, lost, k + 1)
      == i.(turns := i.turns + [Turn(k, s.Plan()[k])], messages := i.messages + [Message(k, s.Plan()[k],
        Said(s, lost, k))])
  {
  }

  lemma {:induction false} MemoryAdvances(s: Setup, lost: set<nat>, k: nat, i: Interaction,
                                          results: seq<MemberResult>, agent: string, reply: Reply)
    requires InMemory(s, lost, k, i, results) && k < |s.Plan()| && k !in lost
    requires agent == s.Plan()[k] && reply == s.speak(agent, Peers(Visible(s.strategy, i, agent)))
    ensures ReplyContent(reply) == Said(s, lost, k)
    ensures InMemory(s, lost, k + 1,
      i.(turns := i.turns + [Turn(k, agent)], messages := i.messages + [Message(k, agent, ReplyContent(reply))]),
      results + [MemberResult(agent, reply, false)])
  {
    SaidIs(s, lost, k);
    KernelGrows(s, lost, k);
    ContributionsGrow(s, lost, k, results, MemberResult(agent, reply, false));
    hide Transcript, Said, Schedule, Visible, Kernel, Contributions, ContributionsOf;
  }

  // ---- how far a number of durable writes carries a worker -----------------------------

  /** The start of the interaction is written first, and the resume mark if there is something to resume. */
  function WritesBeforeTurns(resuming: bool): nat { if resuming then 2 else 1 }

  /** The outcome, if there is one, and the closing of the interaction. */
  function ClosingWrites(outcome: Option<TypedOutcome>): nat { if outcome.Some? then 2 else 1 }

  /** The writes a worker that finds `k` turns on record has left for turns; none of its turns begins if negative. */
  function TurnWrites(k: nat, budget: nat): int { budget - WritesBeforeTurns(k > 0) }

  /** The turns on record, of `n`, when a worker that found `k` and may write `budget` times is gone. */
  function Turns(n: nat, k: nat, budget: nat): (r: nat)
    requires k <= n
    ensures k <= r <= n
  {
    var writes := TurnWrites(k, budget);
    if writes < 0 then k else if writes >= 2 * (n - k) then n else k + (writes + 1) / 2
  }

  /** The worker dies between the two writes of a turn: the turn is on record, its message is not. */
  predicate DiesInsideTurn(n: nat, k: nat, budget: nat)
    requires k <= n
  {
    var writes := TurnWrites(k, budget);
    0 <= writes < 2 * (n - k) && writes % 2 == 1
  }

  /** The worker runs members for the turns from `k` up to this one. */
  function RunUpTo(n: nat, k: nat, budget: nat): (r: nat)
    requires k <= n
    ensures k <= r <= n
  {
    var writes := TurnWrites(k, budget);
    if writes < 0 then k else if writes >= 2 * (n - k) then n else k + writes / 2 + 1
  }

  /** What a worker leaves of a run of `n` turns that is under way. */
  function Leaves(n: nat, known: Knowledge, budget: nat): Knowledge
    requires known.UnderWay? && known.k <= n
  {
    var k := Turns(n, known.k, budget);
    UnderWay(if DiesInsideTurn(n, known.k, budget) then known.lost + {k - 1} else known.lost, k)
  }

  lemma LeavesIs(n: nat, known: Knowledge, budget: nat)
    requires known.UnderWay? && known.k <= n
    ensures var writes := budget - WritesBeforeTurns(known.k > 0);
      if writes < 0 then Leaves(n, known, budget) == known && RunUpTo(n, known.k, budget) == known.k
      else if writes >= 2 * (n - known.k) then
        Leaves(n, known, budget) == known.At(n) && RunUpTo(n, known.k, budget) == n
      else
        var k := known.k + writes / 2;
        && Leaves(n, known, budget) == (if writes % 2 == 0 then known.At(k) else known.At(k).Torn())
        && RunUpTo(n, known.k, budget) == k + 1
  {
  }

  class NativeTeamExecutor {
    const ledger: InteractionLedger
    ghost var ran: seq<nat>       // the turn indices a member was run for, in order

    constructor (ledger: InteractionLedger)
      ensures this.ledger == ledger && ran == []
    {
      this.ledger := ledger;
      ran := [];
    }

    /** Reconstructs the prior interaction if there is one to resume, or starts a fresh one. */
    method Prepare(s: Setup, id: string, ghost known: Knowledge)
      returns (r: Result<Interaction>, results: seq<MemberResult>, resumed: bool)
      requires s.Valid() && Holds(s, known, ledger.Stored(id))
      requires known.Replaying? ==> known.k == 0
      ensures known != Unknown ==> r.Ok?
      ensures r.Ok? ==> r.value.members == s.team.members && r.value.protocol == s.team.protocol
      ensures r.Ok? ==> Agrees(s, known, r.value, results)
      ensures r.Ok? && resumed ==> ledger.Stored(id).Some? && !known.Replaying?
      ensures known != Unknown ==> (resumed <==> known.UnderWay? && known.k > 0)
    {
      var prior := ledger.FindResumable(id);
      if prior.Some? {
        r := SeedFromDurable(s.team, prior.value);
        results := PriorResults(prior.value);
        resumed := true;
        if known.UnderWay? {
          SeedIsKernel(s, known.lost, known.k, prior.value);
          PriorResultsMatch(s, known.lost, known.k, prior.value, results);
        }
      } else {
        results := [];
        resumed := false;
        r := Ok(Interaction(s.team.members, s.team.protocol, [], []));
        NothingYet(s, known, ledger.Stored(id));
      }
    }

    /** One scheduled turn: the member acts, then the turn and its message are written. */
    method TakeTurn(s: Setup, id: string, runtime: NativeTeamInteractionRuntime, turn: ScheduledTurn,
                    prior: seq<MemberResult>, budget: nat, now: int, ghost known: Knowledge)
      returns (crashed: bool, results: seq<MemberResult>, left: nat, ghost after: Knowledge)
      requires s.Valid() && ledger.Valid() && id in ledger.byId
      requires runtime.strategy == s.strategy && runtime.NextTurn() == Some(turn)
      requires Holds(s, known, ledger.Stored(id)) && Agrees(s, known, runtime.interaction, prior)
      modifies this`ran, ledger, runtime
      ensures ledger.Valid() && id in ledger.byId && ledger.byId - {id} == old(ledger.byId) - {id}
      ensures ran == old(ran) + [turn.index] && (known != Unknown ==> turn.index == known.k < |s.Plan()|)
      ensures Holds(s, after, ledger.Stored(id))
      ensures crashed <==> budget < 2
      ensures crashed ==> after == if budget == 0 then known else known.Torn()
      ensures !crashed ==> left == budget - 2 && after == known.At(turn.index + 1)
      ensures !crashed ==> Agrees(s, after, runtime.interaction, results)
      ensures !crashed ==> Extends(old(runtime.interaction), runtime.interaction, turn)
      ensures known.Replaying? ==> ledger.byId == old(ledger.byId)
    {
      hide Concluded, Records, Transcript, Said, Schedule, OutcomeFor, WithTurn, WithMessage, InMemory, InProgress,
           Setup.Valid, SelectStrategy;
      left, after := budget, known;
      var reply := s.speak(turn.agent, Peers(turn.context));
      var content := ReplyContent(reply);
      results := prior + [MemberResult(turn.agent, reply, false)];
      ran := ran + [turn.index];
      if known != Unknown {
        TurnSteps(s, known, runtime.interaction, prior, ledger.byId[id], turn, reply, now);
      }
      if left == 0 { return true, results, left, known; }
      left := left - 1;
      var _ := ledger.RecordTurn(id, turn.index, turn.agent, TurnCompleted, now);
      if left == 0 { return true, results, left, known.Torn(); }
      left := left - 1;
      var _ := ledger.RecordMessage(id, turn.index, turn.agent, content);
      runtime.RecordMemberMessage(turn, content);
      crashed, after := false, known.At(turn.index + 1);
    }

    /** The loop of `invoke`: turns are taken until the strategy has none left. `k` is the turn a crash cut short. */
    method Drive(s: Setup, id: string, runtime: NativeTeamInteractionRuntime, prior: seq<MemberResult>, budget: nat,
                 now: int, ghost known: Knowledge)
      returns (crashed: bool, results: seq<MemberResult>, left: nat, ghost after: Knowledge, ghost k: nat)
      requires s.Valid() && ledger.Valid() && id in ledger.byId
      requires runtime.strategy == s.strategy
      requires runtime.interaction.members == s.team.members && runtime.interaction.protocol == s.team.protocol
      requires Holds(s, known, ledger.Stored(id)) && Agrees(s, known, runtime.interaction, prior)
      modifies this`ran, ledger, runtime
      ensures ledger.Valid() && id in ledger.byId && ledger.byId - {id} == old(ledger.byId) - {id}
      ensures Holds(s, after, ledger.Stored(id))
      ensures known.Replaying? ==> ledger.byId == old(ledger.byId)
      ensures !crashed ==> Agrees(s, after, runtime.interaction, results)
      ensures known == Unknown ==> after == Unknown
      ensures known != Unknown ==> known.k <= k <= |s.Plan()|
      ensures known != Unknown && !crashed ==>
        after == known.At(|s.Plan()|) && k == |s.Plan()| && left == budget - 2 * (k - known.k)
      ensures known != Unknown && !crashed ==> ran == old(ran) + Range(known.k, k)
      ensures known != Unknown && crashed ==> k < |s.Plan()| && ran == old(ran) + Range(known.k, k + 1)
      ensures known != Unknown ==> (crashed <==> budget < 2 * (|s.Plan()| - known.k))
      ensures known != Unknown && crashed ==> k == known.k + budget / 2
      ensures known != Unknown && crashed ==> after == if budget % 2 == 0 then known.At(k) else known.At(k).Torn()
    {
      hide Holds, InMemory, Schedule, SelectStrategy, ValidProtocol, Scheduler.NextTurn, Visible, Remaining;
      crashed, results, left, after := false, prior, budget, known;
      k := if known != Unknown then known.k else 0;
      ghost var k0 := k;
      var next := runtime.NextTurn();
      MemoryTells(s, known, runtime.interaction, prior);
      while next.Some?
        invariant next == runtime.NextTurn()
        invariant ledger.Valid() && id in ledger.byId && ledger.byId - {id} == old(ledger.byId) - {id}
        invariant runtime.interaction.members == s.team.members && runtime.interaction.protocol == s.team.protocol
        invariant Holds(s, after, ledger.Stored(id)) && Agrees(s, after, runtime.interaction, results)
        invariant known.Replaying? ==> ledger.byId == old(ledger.byId)
        invariant after == known.At(k)
        invariant known != Unknown ==>
          known.k == k0 <= k <= |s.Plan()| && left == budget - 2 * (k - k0) && ran == old(ran) + Range(k0, k)
        decreases Remaining(s.strategy, runtime.interaction)
      {
        ghost var before := runtime.interaction;
        crashed, results, left, after := TakeTurn(s, id, runtime, next.value, results, left, now, after);
        assert known != Unknown ==> Range(k0, k) + [k] == Range(k0, k + 1);
        if crashed { return; }
        TurnUsesUp(s.strategy, before, runtime.interaction);
        k := if known != Unknown then k + 1 else next.value.index + 1;
        next := runtime.NextTurn();
        MemoryTells(s, after, runtime.interaction, results);
      }
      if known != Unknown {
        ScheduledTurnKnown(s, after, runtime.interaction, results);
      }
    }

    /** The end of `invoke`: the typed outcome, if the protocol has one, and the closing of the interaction. */
    method Conclude(s: Setup, id: string, results: seq<MemberResult>, budget: nat, ghost known: Knowledge)
      returns (r: Invocation)
      requires s.Valid() && ledger.Valid() && id in ledger.byId
      requires known != Unknown ==>
        known.k == |s.Plan()| && ContributionsOf(results) == Contributions(s, known.Lost(), known.k)
      requires Holds(s, known, ledger.Stored(id))
      modifies ledger
      ensures ledger.Valid() && id in ledger.byId && ledger.byId - {id} == old(ledger.byId) - {id}
      ensures known.Replaying? ==> ledger.byId == old(ledger.byId)
      ensures r.Crashed? ==> Holds(s, known, ledger.Stored(id))
      ensures r.Finished? <==> budget >= ClosingWrites(OutcomeFor(s.team.protocol, ContributionsOf(results)))
      ensures r.Finished? ==> r.results == results && r.outcome == OutcomeFor(s.team.protocol, ContributionsOf(results))
      ensures r.Finished? && known != Unknown ==> Concluded(s, known.Lost(), ledger.byId[id])
      ensures !r.Raised?
    {
      hide Concluded, Records, InProgress, OutcomeFor, WithOutcome, Closed, Setup.Valid, Contributions,
           ContributionsOf, Schedule;
      var outcome := TeamTypedOutcome(s.team.protocol, results);
      var left := budget;
      ghost var d := ledger.byId[id];
      if known != Unknown { Concludes(s, known, d, outcome); }
      if outcome.Some? {
        if left == 0 { return Crashed; }
        left := left - 1;
        var _ := ledger.RecordOutcome(id, outcome);
      }
      if left == 0 { return Crashed; }
      var _ := ledger.Close(id, InteractionCompleted, None);
      r := Finished(results, outcome);
    }

    /** The start of the interaction, which a replay leaves alone, and the resume mark. */
    method Begin(s: Setup, id: string, nodeKey: string, executionId: string, resumed: bool, turns: nat, budget: nat,
                 ghost known: Knowledge)
      returns (crashed: bool, left: nat)
      requires ledger.Valid() && Holds(s, known, ledger.Stored(id)) && (known.Replaying? ==> !resumed)
      modifies ledger
      ensures ledger.Valid() && ledger.byId - {id} == old(ledger.byId) - {id} && Holds(s, known, ledger.Stored(id))
      ensures known.Replaying? ==> ledger.byId == old(ledger.byId)
      ensures crashed <==> budget < WritesBeforeTurns(resumed)
      ensures !crashed ==> id in ledger.byId && left == budget - WritesBeforeTurns(resumed)
    {
      hide Holds, Fresh, WithResumeMark;
      left := budget;
      if left == 0 { return true, left; }
      left := left - 1;
      Started(s, known, ledger.byId, id, nodeKey, executionId);
      ledger.Start(id, nodeKey, executionId, s.team.members);
      if resumed {
        if left == 0 { return true, left; }
        left := left - 1;
        MarkedResumed(s, known, ledger.byId[id], turns);
        var _ := ledger.MarkResumed(id, turns);
      }
      crashed := false;
    }

    method Invoke(s: Setup, id: string, nodeKey: string, executionId: string, budget: nat, now: int,
                  ghost known: Knowledge)
      returns (r: Invocation, ghost after: Knowledge, ghost reached: nat)
      requires s.Valid() && ledger.Valid() && Holds(s, known, ledger.Stored(id))
      requires known.Replaying? ==> known.k == 0
      modifies this`ran, ledger
      ensures ledger.Valid() && ledger.byId - {id} == old(ledger.byId) - {id}
      ensures known != Unknown ==> !r.Raised?
      ensures known != Unknown ==> known.k <= reached <= |s.Plan()| && ran == old(ran) + Range(known.k, reached)
      ensures known.Replaying? ==> ledger.byId == old(ledger.byId)
      ensures known != Unknown && r.Finished? ==> id in ledger.byId && Concluded(s, known.Lost(), ledger.byId[id])
      ensures known != Unknown && r.Finished? ==>
        ContributionsOf(r.results) == Contributions(s, known.Lost(), |s.Plan()|)
      ensures known != Unknown && r.Finished? ==>
        r.outcome == OutcomeFor(s.team.protocol, ContributionsOf(r.results)) && reached == |s.Plan()|
      ensures known.UnderWay? ==>
        after == Leaves(|s.Plan()|, known, budget) && reached == RunUpTo(|s.Plan()|, known.k, budget)
      ensures known.UnderWay? && r.Crashed? ==> Holds(s, after, ledger.Stored(id))
      ensures known != Unknown ==>
        (r.Finished? <==> budget >= WritesBeforeTurns(known.UnderWay? && known.k > 0) + 2 * (|s.Plan()| - known.k)
                                  + ClosingWrites(OutcomeFor(s.team.protocol,
                                    Contributions(s, known.Lost(), |s.Plan()|))))
    {
      hide Holds, InMemory, Schedule, SelectStrategy, ValidProtocol, Concluded, OutcomeFor, Contributions,
           ContributionsOf, Scheduler.NextTurn, Setup.Valid, Fresh, WithResumeMark, Leaves, RunUpTo;
      after, reached := known, if known != Unknown then known.k else 0;
      var interaction, results, resumed := Prepare(s, id, known);
      if interaction.Err? {
        return Raised(interaction.error), after, reached;
      }
      MemoryTells(s, known, interaction.value, results);
      if known.UnderWay? { LeavesIs(|s.Plan()|, known, budget); }
      assert known != Unknown ==> Range(known.k, known.k) == [];
      var runtime := new NativeTeamInteractionRuntime(s.strategy, interaction.value);
      var crashed, left := Begin(s, id, nodeKey, executionId, resumed, |interaction.value.turns|, budget, known);
      if crashed { return Crashed, after, reached; }
      ghost var k;
      crashed, results, left, after, k := Drive(s, id, runtime, results, left, now, known);
      if crashed {
        return Crashed, after, k + 1;
      }
      reached := k;
      MemoryTells(s, after, runtime.interaction, results);
      r := Conclude(s, id, results, left, after);
    }
  }

  ghost predicate Extends(i: Interaction, j: Interaction, turn: ScheduledTurn) {
    j.members == i.members && j.protocol == i.protocol && j.turns == i.turns + [Turn(turn.index, turn.agent)]
  }

  /** Everything one scheduled turn does, to durable state and to memory. */
  lemma TurnSteps(s: Setup, known: Knowledge, i: Interaction, results: seq<MemberResult>, d: DurableInteraction,
                  turn: ScheduledTurn, reply: Reply, now: int)
    requires s.Valid() && known != Unknown && Holds(s, known, Some(d)) && Agrees(s, known, i, results)
    requires NextTurn(s.strategy, i) == Some(Turn(turn.index, turn.agent))
    requires turn.context == Visible(s.strategy, i, turn.agent)
    requires reply == s.speak(turn.agent, Peers(turn.context))
    ensures turn.index == known.k < |s.Plan()|
    ensures var e := WithTurn(d, turn.index, turn.agent, TurnCompleted, now);
      var f := WithMessage(e, turn.index, turn.agent, ReplyContent(reply));
      && Holds(s, known.Torn(), Some(e)) && Holds(s, known.At(turn.index + 1), Some(f))
      && (known.Replaying? ==> e == d && f == d)
    ensures Agrees(s, known.At(turn.index + 1),
      i.(turns := i.turns + [Turn(turn.index, turn.agent)],
        messages := i.messages + [Message(turn.index, turn.agent, ReplyContent(reply))]),
      results + [MemberResult(turn.agent, reply, false)])
  {
    hide Transcript, Said, Schedule, OutcomeFor, Setup.Valid, RecordsTurns, Visible;
    ScheduledTurnKnown(s, known, i, results);
    assert known.k !in known.Lost();
    MemoryAdvances(s, known.Lost(), known.k, i, results, turn.agent, reply);
    match known
    case UnderWay(lost, k) =>
      TurnWritten(s, lost, k, d, now);
      TurnAndMessageWritten(s, lost, k, d, now);
    case Replaying(k) =>
      ReplayChangesNothing(s, k, d, now);
  }

  /** The turn the runtime schedules is the next one of the plan, read by the right member. */
  lemma ScheduledTurnKnown(s: Setup, known: Knowledge, i: Interaction, results: seq<MemberResult>)
    requires s.Valid() && Agrees(s, known, i, results) && known != Unknown
    ensures known.k <= |s.Plan()|
    ensures NextTurn(s.strategy, i) == if known.k < |s.Plan()| then Some(Turn(known.k, s.Plan()[known.k])) else None
  {
    KernelNextTurn(s, known.Lost(), known.k);
  }

  lemma ProgressIsResumable(s: Setup, lost: set<nat>, k: nat, d: DurableInteraction)
    requires Records(s, lost, k, d) && k > 0
    ensures HasCompletedTurn(d)
  {
    var t := ListedIndexCompleted(d.turns, 0);
    var p :| 0 <= p < |d.turns| && d.turns[p] == t;
  }

  /** With nothing to resume, a run under way has not completed any turn. */
  lemma NothingYet(s: Setup, known: Knowledge, stored: Option<DurableInteraction>)
    requires s.Valid() && Holds(s, known, stored) && Resumable(stored).None? && (known.Replaying? ==> known.k == 0)
    ensures known.UnderWay? ==> known.k == 0
    ensures Agrees(s, known, Interaction(s.team.members, s.team.protocol, [], []), [])
  {
    if known.UnderWay? && stored.Some? && known.k > 0 {
      ProgressIsResumable(s, known.lost, known.k, stored.value);
    }
  }

  lemma MemoryTells(s: Setup, known: Knowledge, i: Interaction, results: seq<MemberResult>)
    requires Agrees(s, known, i, results)
    ensures known != Unknown ==>
      known.k <= |s.Plan()| && ContributionsOf(results) == Contributions(s, known.Lost(), known.k)
  {
  }

  lemma Started(s: Setup, known: Knowledge, byId: map<string, DurableInteraction>, id: string, nodeKey: string,
                executionId: string)
    requires Holds(s, known, if id in byId then Some(byId[id]) else None)
    ensures Holds(s, known, Some(if id in byId then byId[id] else Fresh(id, nodeKey, executionId, s.team.members)))
    ensures known.Replaying? ==> id in byId
  {
  }

  lemma MarkedResumed(s: Setup, known: Knowledge, d: DurableInteraction, from: nat)
    requires Holds(s, known, Some(d)) && !known.Replaying?
    ensures Holds(s, known, Some(WithResumeMark(d, from)))
  {
  }

  /** The two closing writes. */
  lemma Concludes(s: Setup, known: Knowledge, d: DurableInteraction, outcome: Option<TypedOutcome>)
    requires known != Unknown && known.k == |s.Plan()| && Holds(s, known, Some(d))
    requires outcome == OutcomeFor(s.team.protocol, Contributions(s, known.Lost(), known.k))
    ensures Holds(s, known, Some(WithOutcome(d, outcome)))
    ensures outcome.None? ==> WithOutcome(d, outcome) == d
    ensures Concluded(s, known.Lost(), Closed(WithOutcome(d, outcome), InteractionCompleted, None))
    ensures known.Replaying? ==> WithOutcome(d, outcome) == d && Closed(d, InteractionCompleted, None) == d
  {
    hide RecordsTurns, Transcript, OutcomeFor, Schedule, Contributions;
  }
}
