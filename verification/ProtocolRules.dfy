/** What the mode and topology of a protocol mean for a team: who acts when, who reads what, and what comes out. The
    scheduling strategies are not mentioned. */
module ProtocolRules {
  import opened Collections
  import opened Outcomes
  import opened Teams
  import opened Scheduler
  import opened VoteTally
  import opened DurableInteractions
  import opened TeamRuns

  /** The protocols that are executed; any other is refused. */
  lemma ExecutedExactly(p: Protocol)
    ensures SelectStrategy(p).Ok? <==>
      || p.mode == TeamMode
      || (p.mode in {DebateMode, VoteMode} && p.topology == BroadcastTopology)
      || (p.mode == DelegationMode && p.topology == CoordinatorTopology)
    ensures SelectStrategy(p).Err? ==> SelectStrategy(p).error == UnexecutedProtocol
  {
    assert p.topology.BroadcastTopology? || p.topology.CoordinatorTopology? || p.topology.PipelineTopology?;
  }

  // ---- who acts when -------------------------------------------------------------------------

  /** Everybody once, in the declared order. */
  predicate InTurn(p: Protocol) {
    p.mode == VoteMode || (p.mode == TeamMode && p.topology in {BroadcastTopology, PipelineTopology})
  }

  /** How often a debate goes round: twice unless the protocol says otherwise. */
  function Rounds(p: Protocol): int { if p.rounds.Some? then p.rounds.value else 2 }

  lemma {:induction false} WithoutIs(members: seq<string>, m: nat)
    requires Distinct(members) && m < |members|
    ensures Without(members, members[m]) == members[..m] + members[m + 1..]
  {
    if m == 0 {
      WithoutDistinct(members, members[0]);
      WithoutDistinct(members[1..], members[0]);
      assert members[0] !in members[1..];
    } else {
      assert Distinct(members[1..]) && members[1..][m - 1] == members[m];
      WithoutIs(members[1..], m - 1);
      assert members[..m] == [members[0]] + members[1..][..m - 1];
    }
  }

  /** The coordinator acts last in a team, after the others in their order; in a delegation it acts first. In a debate
      the members take turns, round after round. */
  lemma PlanByProtocol(s: Setup)
    requires s.Valid()
    ensures var p, members := s.team.protocol, s.team.members;
      && (InTurn(p) ==> s.Plan() == members)
      && (p.mode == TeamMode && p.topology == CoordinatorTopology ==>
           exists m: nat :: CoordinatorAt(s, m) && s.Plan() == members[..m] + members[m + 1..] + [members[m]])
      && (p.mode == DelegationMode ==>
           exists m: nat :: CoordinatorAt(s, m) && s.Plan() == [members[m]] + (members[..m] + members[m + 1..]))
      && (p.mode == DebateMode ==>
           && |s.Plan()| == Rounds(p) * |members|
           && forall k :: 0 <= k < |s.Plan()| ==> s.Plan()[k] == members[k % |members|])
  {
    var p := s.team.protocol;
    if p.mode == DebateMode { DebatePlan(s); }
    if p.topology == CoordinatorTopology {
      var m: nat :| m < |s.team.members| && s.team.members[m] == p.coordinator.value;
      assert CoordinatorAt(s, m);
      WithoutIs(s.team.members, m);
    }
    hide Without, Repeat;
  }

  predicate CoordinatorAt(s: Setup, m: nat) {
    m < |s.team.members| && s.team.protocol.coordinator == Some(s.team.members[m])
  }

  lemma DebatePlan(s: Setup)
    requires s.Valid() && s.team.protocol.mode == DebateMode
    ensures |s.Plan()| == Rounds(s.team.protocol) * |s.team.members|
    ensures forall k :: 0 <= k < |s.Plan()| ==> s.Plan()[k] == s.team.members[k % |s.team.members|]
  {
    var members, rounds := s.team.members, Rounds(s.team.protocol);
    ScheduleLength(s.team, s.strategy);
    forall k | 0 <= k < |s.Plan()| ensures s.Plan()[k] == members[k % |members|] { RepeatAt(members, rounds, k); }
  }

  /** Stepping a team from nothing takes exactly these turns, numbered from 0: as many as members, in a debate that many
      for every round. */
  lemma {:induction false} TurnsByProtocol(s: Setup, fuel: nat)
    requires s.Valid()
    requires fuel >= if s.team.protocol.mode == DebateMode then Rounds(s.team.protocol) * |s.team.members|
                     else |s.team.members|
    ensures var turns := Play(s.strategy, Interaction(s.team.members, s.team.protocol, [], []), fuel).turns;
      && |turns| == (if s.team.protocol.mode == DebateMode then Rounds(s.team.protocol) * |s.team.members|
                     else |s.team.members|)
      && |turns| == |s.Plan()| && forall k :: 0 <= k < |turns| ==> turns[k] == Turn(k, s.Plan()[k])
  {
    ScheduleLength(s.team, s.strategy);
    ScheduleExact(s.team, s.strategy, fuel);
    var turns := Play(s.strategy, Interaction(s.team.members, s.team.protocol, [], []), fuel).turns;
    hide Schedule, Play;
    assert forall k :: 0 <= k < |turns| ==> turns[k].agent == Acted(turns)[k];
  }

  // ---- who reads what ------------------------------------------------------------------------

  /** Voters, members of a broadcast, the workers of a coordinator and a delegator read nothing of the others. */
  predicate HearsNobody(p: Protocol, agent: string) {
    || p.mode == VoteMode
    || (p.mode == TeamMode && p.topology == BroadcastTopology)
    || (p.mode == TeamMode && p.topology == CoordinatorTopology && p.coordinator != Some(agent))
    || (p.mode == DelegationMode && p.coordinator == Some(agent))
  }

  lemma ReadByProtocol(t: Team, st: Strategy, i: Interaction, agent: string)
    requires ValidTeam(t) && SelectStrategy(t.protocol) == Ok(st) && i.protocol == t.protocol
    ensures Visible(st, i, agent) == if HearsNobody(t.protocol, agent) then [] else i.messages
  {
  }

  /** What the run is, turn by turn: the member answers with its content, or its summary if that is blank, to nothing or
      to everything said so far, and that is what is on record unless it was lost. */
  lemma {:induction false} RunByProtocol(s: Setup, lost: set<nat>, k: nat)
    requires s.Valid() && k < |s.Plan()|
    ensures var agent := s.Plan()[k];
      var reply := s.speak(agent, if HearsNobody(s.team.protocol, agent) then [] else Peers(Transcript(s, lost, k)));
      Said(s, lost, k) == if reply.content != "" then reply.content else reply.summary
    ensures Transcript(s, lost, 0) == []
    ensures Transcript(s, lost, k + 1) == Transcript(s, lost, k) +
      (if k in lost then [] else [Message(k, s.Plan()[k], Said(s, lost, k))])
  {
    SaidIs(s, lost, k);
    TranscriptStep(s, lost, k);
    ReadByProtocol(s.team, s.strategy, Kernel(s, lost, k), s.Plan()[k]);
    hide Transcript, Said, Schedule, Visible, Setup.Valid, HearsNobody;
    NothingSaidYet(s, lost);
    assert Peers([]) == [];
  }

  lemma {:induction false} NothingSaidYet(s: Setup, lost: set<nat>)
    ensures Transcript(s, lost, 0) == []
  {
  }

  // ---- what comes out ------------------------------------------------------------------------

  lemma {:induction false} ContentIs(said: seq<Contribution>, k: nat)
    requires k < |said| && forall j :: 0 <= j < |said| && j != k ==> said[j].agent != said[k].agent
    ensures ContentOf(said, Some(said[k].agent)) == said[k].content
  {
    if k > 0 {
      assert said[1..][k - 1] == said[k] && said[0].agent != said[k].agent;
      ContentIs(said[1..], k - 1);
    }
  }

  /** One vote per member: what it said, taken as a vote. */
  ghost predicate AreVotes(s: Setup, lost: set<nat>, votes: seq<VoteRecord>) {
    && |votes| == |s.team.members| == |s.Plan()|
    && forall k :: 0 <= k < |votes| ==>
         votes[k] == MemberVote(s.team.members[k], Recorded(s, lost, k), s.team.protocol.voteOptions)
  }

  /** A vote is decided by majority over what every member said. */
  lemma {:induction false} VoteByProtocol(s: Setup, lost: set<nat>) returns (votes: seq<VoteRecord>)
    requires s.Valid() && s.team.protocol.aggregation == VoteAggregation
    ensures s.team.protocol.mode == VoteMode && AreVotes(s, lost, votes)
    ensures OutcomeFor(s.team.protocol, Contributions(s, lost, |s.Plan()|))
      == Some(VoteResult(OutcomeOf(votes, Majority)))
  {
    PlanByProtocol(s);
    hide Recorded, Schedule, MemberVote, OutcomeOf;
    votes := Votes(Contributions(s, lost, |s.Plan()|), s.team.protocol.voteOptions);
  }

  /** A coordinated team or delegation that asks for a summary gets what its coordinator said, in the turn that is its
      own; one that only collects has no typed outcome. */
  lemma {:induction false} SummaryByProtocol(s: Setup, lost: set<nat>)
    requires s.Valid() && s.team.protocol.aggregation in {CoordinatorSummary, Collect}
    ensures var p, n := s.team.protocol, |s.Plan()|;
      var outcome := OutcomeFor(p, Contributions(s, lost, n));
      if p.aggregation == Collect then outcome == None
      else
        var own := if p.mode == DelegationMode then 0 else n - 1;
        && n > 0 && p.coordinator == Some(s.Plan()[own])
        && outcome == Some(CoordinatorResult(p.coordinator, Recorded(s, lost, own)))
  {
    var p, n := s.team.protocol, |s.Plan()|;
    if p.aggregation == CoordinatorSummary {
      CoordinatorsTurn(s);
      EveryoneActsOnce(s.team, s.strategy);
      hide Recorded, Schedule, Setup.Valid, ContentOf, SelectStrategy;
      ContentIs(Contributions(s, lost, n), if p.mode == DelegationMode then 0 else n - 1);
    }
  }

  lemma CoordinatorsTurn(s: Setup)
    requires s.Valid() && s.team.protocol.topology == CoordinatorTopology
    ensures var own := if s.team.protocol.mode == DelegationMode then 0 else |s.Plan()| - 1;
      0 <= own < |s.Plan()| && s.team.protocol.coordinator == Some(s.Plan()[own]) && s.strategy != Debate
  {
    PlanByProtocol(s);
    hide Without, Repeat;
  }
}
