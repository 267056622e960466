/** Collaboration protocols and teams, with the validation their constructors perform. */
module Teams {
  import opened Collections
  import opened Outcomes

  datatype Mode = TeamMode | DelegationMode | DebateMode | VoteMode

  datatype Topology = BroadcastTopology | CoordinatorTopology | PipelineTopology

  datatype Aggregation = Collect | CoordinatorSummary | VoteAggregation

  datatype Arbitration = ByCoordinator | Majority | NoArbitration

  datatype Protocol = Protocol(
    mode: Mode,
    topology: Topology,
    aggregation: Aggregation,
    arbitration: Arbitration,
    coordinator: Option<string>,
    voteOptions: seq<string>,
    rounds: Option<int>)          // metadata["rounds"], when present

  datatype Team = Team(id: string, members: seq<string>, protocol: Protocol)

  const DEFAULT_DEBATE_ROUNDS := 2

  function RoundsSetting(p: Protocol): int {
    if p.rounds.Some? then p.rounds.value else DEFAULT_DEBATE_ROUNDS
  }

  predicate ValidProtocol(p: Protocol) {
    && (p.mode == DebateMode ==> RoundsSetting(p) >= 1)
    && (p.mode == VoteMode ==>
          p.topology == BroadcastTopology && p.aggregation == VoteAggregation && p.arbitration == Majority)
    && (p.aggregation == VoteAggregation ==> p.mode == VoteMode)
    && (p.aggregation == CoordinatorSummary ==> p.topology == CoordinatorTopology)
    && (p.mode == DelegationMode ==> p.topology == CoordinatorTopology)
    && (p.topology == CoordinatorTopology ==> p.coordinator.Some?)
  }

  /** What the kernel `Interaction` and the `TeamSpec` validators both demand of members and coordinator. */
  predicate ValidMembers(members: seq<string>, p: Protocol) {
    && members != []
    && Distinct(members)
    && (p.coordinator.Some? ==> p.coordinator.value in members)
  }

  predicate ValidTeam(t: Team) {
    && ValidProtocol(t.protocol)
    && ValidMembers(t.members, t.protocol)
    && (t.protocol.mode in {DebateMode, VoteMode, DelegationMode} ==> |t.members| >= 2)
  }

  /** The mode/topology pairs the runtime executes. */
  predicate Executed(p: Protocol) {
    (p.mode, p.topology) in {
      (TeamMode, BroadcastTopology), (TeamMode, PipelineTopology), (TeamMode, CoordinatorTopology),
      (DebateMode, BroadcastTopology), (VoteMode, BroadcastTopology), (DelegationMode, CoordinatorTopology)
    }
  }
}
