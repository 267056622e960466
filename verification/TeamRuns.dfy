/** What a team run is meant to produce, as a function of the team and its members' behaviour, and what a durable
    interaction records of it. */
module TeamRuns {
  import opened Outcomes
  import opened Teams
  import opened Scheduler
  import opened VoteOutcomes
  import opened VoteTally
  import opened DurableInteractions
  import opened TeamRuntime

  /** A prior message as a member sees it: sender and content, nothing else. */
  datatype Peer = Peer(sender: string, content: string)

  datatype Reply = Reply(content: string, summary: string)

  /** `content or summary or ""`. */
  function ReplyContent(r: Reply): string {
    if r.content != "" then r.content else r.summary
  }

  /** A team, the strategy its protocol selects, and what each member answers to the messages it may read. */
  datatype Setup = Setup(team: Team, strategy: Strategy, speak: (string, seq<Peer>) -> Reply) {
    predicate Valid() {
      ValidTeam(team) && SelectStrategy(team.protocol) == Ok(strategy)
    }

    function Plan(): seq<string> { Schedule(strategy, team) }
  }

  function Peers(messages: seq<Message>): seq<Peer> {
    seq(|messages|, k requires 0 <= k < |messages| => Peer(messages[k].sender, messages[k].content))
  }

  // ---- the intended run -------------------------------------------------------------

  function TurnsTaken(s: Setup, k: nat): (r: seq<Turn>)
    requires k <= |s.Plan()|
    ensures |r| == k && forall i :: 0 <= i < k ==> r[i] == Turn(i, s.Plan()[i])
  {
    seq(k, i requires 0 <= i < k => Turn(i, s.Plan()[i]))
  }

  /** The messages on record after `k` turns when the messages of the turns in `lost` were never written. */
  function Transcript(s: Setup, lost: set<nat>, k: nat): seq<Message>
    requires k <= |s.Plan()|
    decreases k, 0
  {
    if k == 0 then []
    else Transcript(s, lost, k - 1) + if k - 1 in lost then []
      else [Message(k - 1, s.Plan()[k - 1], Said(s, lost, k - 1))]
  }

  /** What the member acting in turn `k` answers. */
  function Said(s: Setup, lost: set<nat>, k: nat): string
    requires k < |s.Plan()|
    decreases k, 1
  {
    var i := Interaction(s.team.members, s.team.protocol, TurnsTaken(s, k), Transcript(s, lost, k));
    var agent := s.Plan()[k];
    ReplyContent(s.speak(agent, Peers(Visible(s.strategy, i, agent))))
  }

  /** The kernel interaction after `k` turns. */
  function Kernel(s: Setup, lost: set<nat>, k: nat): Interaction
    requires k <= |s.Plan()|
  {
    Interaction(s.team.members, s.team.protocol, TurnsTaken(s, k), Transcript(s, lost, k))
  }

  /** The content on record for turn `k`: what was said, or nothing if its message was lost. */
  function Recorded(s: Setup, lost: set<nat>, k: nat): string
    requires k < |s.Plan()|
  {
    if k in lost then "" else Said(s, lost, k)
  }

  /** One entry per turn: who acted, and with which content. */
  datatype Contribution = Contribution(agent: string, content: string)

  function Contributions(s: Setup, lost: set<nat>, k: nat): (r: seq<Contribution>)
    requires k <= |s.Plan()|
    ensures |r| == k && forall i :: 0 <= i < k ==> r[i] == Contribution(s.Plan()[i], Recorded(s, lost, i))
  {
    seq(k, i requires 0 <= i < k => Contribution(s.Plan()[i], Recorded(s, lost, i)))
  }

  /** Losing the message of a later turn does not change earlier ones. */
  lemma {:induction false} LaterLossIrrelevant(s: Setup, lost: set<nat>, more: set<nat>, k: nat)
    requires k <= |s.Plan()|
    requires forall i :: 0 <= i < k ==> (i in lost <==> i in more)
    ensures Transcript(s, lost, k) == Transcript(s, more, k)
    ensures forall i :: 0 <= i < k ==>
      Said(s, lost, i) == Said(s, more, i) && Recorded(s, lost, i) == Recorded(s, more, i)
  {
    if k > 0 {
      LaterLossIrrelevant(s, lost, more, k - 1);
    }
  }

  lemma {:induction false} TranscriptBounds(s: Setup, lost: set<nat>, k: nat)
    requires k <= |s.Plan()|
    ensures forall j :: 0 <= j < |Transcript(s, lost, k)| ==>
      Transcript(s, lost, k)[j].turnIndex < k && Transcript(s, lost, k)[j].turnIndex !in lost
    ensures |Transcript(s, lost, k)| <= k
  {
    hide Said;
    if k > 0 {
      TranscriptBounds(s, lost, k - 1);
    }
  }

  /** The record is complete exactly when no message was lost. */
  lemma {:induction false} CompleteIffNothingLost(s: Setup, lost: set<nat>, k: nat)
    requires k <= |s.Plan()| && forall n :: n in lost ==> n < k
    ensures |Transcript(s, lost, k)| == k <==> lost == {}
    ensures Transcript(s, lost, k) == Transcript(s, {}, k) <==> lost == {}
  {
    FullLength(s, k);
    ShortIfLost(s, lost, k);
  }

  lemma {:induction false} FullLength(s: Setup, k: nat)
    requires k <= |s.Plan()|
    ensures |Transcript(s, {}, k)| == k
  {
    hide Said;
    if k > 0 { FullLength(s, k - 1); }
  }

  lemma {:induction false} ShortIfLost(s: Setup, lost: set<nat>, k: nat)
    requires k <= |s.Plan()|
    ensures (exists n :: n in lost && n < k) ==> |Transcript(s, lost, k)| < k
  {
    hide Said;
    if k > 0 {
      ShortIfLost(s, lost, k - 1);
      TranscriptBounds(s, lost, k - 1);
    }
  }

  // ---- the typed outcome --------------------------------------------------------------

  function Votes(said: seq<Contribution>, options: seq<string>): seq<VoteRecord> {
    seq(|said|, k requires 0 <= k < |said| => MemberVote(said[k].agent, said[k].content, options))
  }

  /** `next((r for r in results if r["agent_id"] == coordinator), None)`, as content. */
  function ContentOf(said: seq<Contribution>, agent: Option<string>): string {
    if said == [] then ""
    else if Some(said[0].agent) == agent then said[0].content
    else ContentOf(said[1..], agent)
  }

  ghost function OutcomeFor(p: Protocol, said: seq<Contribution>): Option<TypedOutcome> {
    match p.aggregation
    case VoteAggregation => Some(VoteResult(OutcomeOf(Votes(said, p.voteOptions), p.arbitration)))
    case CoordinatorSummary => Some(CoordinatorResult(p.coordinator, ContentOf(said, p.coordinator)))
    case Collect => None
  }

  /** A member's result as the executor keeps it; a resumed one is rebuilt from the durable content. */
  datatype MemberResult = MemberResult(agent: string, reply: Reply, resumed: bool)

  function ContributionOf(r: MemberResult): Contribution {
    Contribution(r.agent, ReplyContent(r.reply))
  }

  function ContributionsOf(results: seq<MemberResult>): (r: seq<Contribution>)
    ensures |r| == |results| && forall k :: 0 <= k < |results| ==> r[k] == ContributionOf(results[k])
  {
    seq(|results|, k requires 0 <= k < |results| => ContributionOf(results[k]))
  }

  /** `team_typed_outcome`. */
  method TeamTypedOutcome(p: Protocol, results: seq<MemberResult>) returns (r: Option<TypedOutcome>)
    ensures r == OutcomeFor(p, ContributionsOf(results))
  {
    var said := ContributionsOf(results);
    match p.aggregation {
      case VoteAggregation =>
        var votes := Votes(said, p.voteOptions);
        var outcome := BuildVoteOutcome(votes, p.arbitration);
        r := Some(VoteResult(outcome));
      case CoordinatorSummary =>
        r := Some(CoordinatorResult(p.coordinator, ContentOf(said, p.coordinator)));
      case Collect =>
        r := None;
    }
  }

  // ---- what the durable interaction records ---------------------------------------------

  function DurableTranscript(messages: seq<Message>): (r: seq<DurableMessage>)
    ensures |r| == |messages|
    ensures forall k :: 0 <= k < |messages| ==>
      r[k] == DurableMessage(messages[k].turnIndex, messages[k].sender, messages[k].content)
  {
    seq(|messages|, k requires 0 <= k < |messages| =>
      DurableMessage(messages[k].turnIndex, messages[k].sender, messages[k].content))
  }

  /** Turns below `k` are recorded as completed by the scheduled agents, in whatever place and next to whatever turns
      are pending under a lease; the messages are those of the run. */
  ghost predicate RecordsTurns(s: Setup, k: nat, turns: seq<DurableTurn>)
    requires k <= |s.Plan()|
  {
    && DistinctTurns(turns)
    && (forall t :: t in turns && t.index < |s.Plan()| ==> t.agent == s.Plan()[t.index])
    && (forall t :: t in turns && t.status == TurnCompleted ==> t.index < k)
    && (forall n: nat :: n < k ==> n in Indices(CompletedTurns(turns)))
  }

  ghost predicate Records(s: Setup, lost: set<nat>, k: nat, d: DurableInteraction) {
    && k <= |s.Plan()|
    && (forall n :: n in lost ==> n < k)
    && RecordsTurns(s, k, d.turns)
    && d.messages == DurableTranscript(Transcript(s, lost, k))
    && (d.outcome == None || (k == |s.Plan()| && d.outcome == OutcomeFor(s.team.protocol, Contributions(s, lost, k))))
  }

  /** The run is under way: `k` turns done, the messages of `lost` missing. Nothing stored yet is `k == 0`. */
  ghost predicate InProgress(s: Setup, lost: set<nat>, k: nat, stored: Option<DurableInteraction>) {
    if stored.Some? then stored.value.status == InteractionRunning && Records(s, lost, k, stored.value)
    else k == 0 && lost == {}
  }

  /** The run is over and everything about it is on record. */
  ghost predicate Concluded(s: Setup, lost: set<nat>, d: DurableInteraction) {
    && d.status == InteractionCompleted
    && Records(s, lost, |s.Plan()|, d)
    && d.outcome == OutcomeFor(s.team.protocol, Contributions(s, lost, |s.Plan()|))
  }

  // ---- reconstruction ---------------------------------------------------------------------

  lemma {:induction false} CompletedSorted(s: Setup, k: nat, turns: seq<DurableTurn>)
    requires k <= |s.Plan()| && RecordsTurns(s, k, turns)
    ensures var sorted := SortTurns(CompletedTurns(turns));
      |sorted| == k && forall i :: 0 <= i < k ==> sorted[i].index == i && sorted[i].agent == s.Plan()[i]
  {
    hide CompletedTurns, SortTurns;
    var completed := CompletedTurns(turns);
    var sorted := SortTurns(completed);
    CompletedDistinct(turns);
    SortedStrictly(completed);
    forall q | 0 <= q < |sorted| ensures sorted[q].index < k {
      assert sorted[q] in completed && sorted[q] in turns;
    }
    forall n: nat ensures n in Indices(sorted) <==> n < k {
      if n < k {
        assert n in Indices(completed);
        var p :| 0 <= p < |completed| && completed[p].index == n;
        assert completed[p] in sorted;
        var q :| 0 <= q < |sorted| && sorted[q] == completed[p];
        assert Indices(sorted)[q] == n;
      }
    }
    AscendingRange(Indices(sorted), k);
    forall i | 0 <= i < k ensures sorted[i].index == i && sorted[i].agent == s.Plan()[i] {
      assert Indices(sorted)[i] == i;
      assert sorted[i] in completed && sorted[i] in turns;
    }
  }

  /** What is said in turn `k`, as an equation. */
  lemma {:induction false} SaidIs(s: Setup, lost: set<nat>, k: nat)
    requires k < |s.Plan()|
    ensures Said(s, lost, k) == ReplyContent(s.speak(s.Plan()[k],
      Peers(Visible(s.strategy, Kernel(s, lost, k), s.Plan()[k]))))
  {
  }

  /** How the transcript grows by one turn. */
  lemma TranscriptStep(s: Setup, lost: set<nat>, k: nat)
    requires k < |s.Plan()|
    ensures Transcript(s, lost, k + 1)
         == if k in lost then
           Transcript(s, lost, k) else Transcript(s, lost, k) + [Message(k, s.Plan()[k], Said(s, lost, k))]
  {
  }

  lemma {:induction false} MessagesOfTurnAppend(messages: seq<Message>, m: Message, index: nat)
    ensures MessagesOfTurn(DurableTranscript(messages + [m]), index)
         == MessagesOfTurn(DurableTranscript(messages), index) + if m.turnIndex == index then [m] else []
    ensures MessagesOfTurn(DurableTranscript([]), index) == []
  {
    var all := DurableTranscript(messages + [m]);
    assert all[..|all| - 1] == DurableTranscript(messages);
  }

  lemma {:induction false} MessagesOfTurnIn(s: Setup, lost: set<nat>, k: nat, index: nat)
    requires k <= |s.Plan()|
    ensures MessagesOfTurn(DurableTranscript(Transcript(s, lost, k)), index)
         == if index < k && index !in lost then [Message(index, s.Plan()[index], Said(s, lost, index))] else []
  {
    hide Said, Schedule, MessagesOfTurn, DurableTranscript;
    if k == 0 {
      MessagesOfTurnAppend([], Message(0, "", ""), index);
    } else {
      hide Transcript;
      MessagesOfTurnIn(s, lost, k - 1, index);
      TranscriptStep(s, lost, k - 1);
      MessagesOfTurnAppend(Transcript(s, lost, k - 1), Message(k - 1, s.Plan()[k - 1], Said(s, lost, k - 1)), index);
    }
  }

  lemma {:induction false} SeedMessagesAre(s: Setup, lost: set<nat>, k: nat, m: nat, turns: seq<DurableTurn>)
    requires m <= k <= |s.Plan()| && |turns| == m
    requires forall i :: 0 <= i < m ==> turns[i].index == i
    ensures SeedMessages(turns, DurableTranscript(Transcript(s, lost, k))) == Transcript(s, lost, m)
  {
    hide Said;
    if m > 0 {
      SeedMessagesAre(s, lost, k, m - 1, turns[..m - 1]);
      MessagesOfTurnIn(s, lost, k, m - 1);
    }
  }

  /** Reconstruction is exact: whatever the order in which turns were recorded and whichever turns are pending, the
      runtime seeded from durable state is the runtime of the run itself. */
  lemma SeedIsKernel(s: Setup, lost: set<nat>, k: nat, d: DurableInteraction)
    requires s.Valid() && Records(s, lost, k, d)
    ensures Seed(s.team, d) == Ok(Kernel(s, lost, k))
  {
    hide Said, Transcript, CompletedTurns, SortTurns, SeedMessages, RecordsTurns, OutcomeFor;
    CompletedSorted(s, k, d.turns);
    var sorted := SortTurns(CompletedTurns(d.turns));
    forall i | 0 <= i < k ensures sorted[i].agent in s.team.members {
      ScheduleMembers(s.team, s.strategy, i);
    }
    SeedMessagesAre(s, lost, k, k, sorted);
    assert SeedTurns(sorted) == TurnsTaken(s, k);
  }

  /** The scheduler, asked about the run after `k` turns, gives turn `k` of the schedule. */
  lemma KernelNextTurn(s: Setup, lost: set<nat>, k: nat)
    requires s.Valid() && k <= |s.Plan()|
    ensures NextTurn(s.strategy, Kernel(s, lost, k)) == if k < |s.Plan()| then Some(Turn(k, s.Plan()[k])) else None
  {
    hide Said, Transcript, Schedule;
    var i := Kernel(s, lost, k);
    assert Acted(i.turns) == Schedule(s.strategy, s.team)[..k];
    NextTurnFollowsSchedule(s.team, s.strategy, i);
  }
}
