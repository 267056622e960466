/** Who can influence whom: pairs of runs of one team whose members behave differently. */
module Independence {
  import opened Outcomes
  import opened Teams
  import opened Scheduler
  import opened VoteOutcomes
  import opened VoteTally
  import opened DurableInteractions
  import opened TeamRuns
  import opened ProtocolRules

  type Behaviour = (string, seq<Peer>) -> Reply

  /** The same team under the same strategy, its members perhaps behaving differently. */
  ghost predicate SameTeam(s: Setup, t: Setup) {
    s.team == t.team && s.strategy == t.strategy
  }

  ghost predicate BehavesAlike(s: Setup, t: Setup, agent: string) {
    forall peers :: s.speak(agent, peers) == t.speak(agent, peers)
  }

  /** A member that hears nobody (a voter, a member of a broadcast, a worker of a coordinator, a delegator) says the
      same whatever the others do, and whichever messages a crash lost. */
  lemma {:induction false} IsolatedIndependent(s: Setup, t: Setup, lost: set<nat>, other: set<nat>, k: nat)
    requires s.Valid() && SameTeam(s, t) && k < |s.Plan()| && HearsNobody(s.team.protocol, s.Plan()[k])
    requires s.speak(s.Plan()[k], []) == t.speak(s.Plan()[k], [])
    ensures Said(s, lost, k) == Said(t, other, k)
  {
    RunByProtocol(s, lost, k);
    RunByProtocol(t, other, k);
    hide Said, Schedule, Setup.Valid;
  }

  /** No turn can depend on a member that has not acted yet: what turn `k` says is decided by the members of turns up to
      `k`. In a pipeline this is the promise that member `k` depends on members up to `k` only. */
  lemma {:induction false} OnlyThePastMatters(s: Setup, t: Setup, lost: set<nat>, k: nat)
    requires SameTeam(s, t) && k <= |s.Plan()|
    requires forall j :: 0 <= j < k ==> BehavesAlike(s, t, s.Plan()[j])
    ensures Transcript(s, lost, k) == Transcript(t, lost, k)
    ensures forall j :: 0 <= j < k ==> Said(s, lost, j) == Said(t, lost, j)
  {
    if k > 0 {
      OnlyThePastMatters(s, t, lost, k - 1);
      hide Visible, Schedule;
      assert TurnsTaken(s, k - 1) == TurnsTaken(t, k - 1);
      assert BehavesAlike(s, t, s.Plan()[k - 1]);
    }
  }

  /** A vote depends on nothing but the voter: replacing every other voter leaves the vote record as it is. */
  lemma VoteIndependent(s: Setup, t: Setup, lost: set<nat>, k: nat)
    requires s.Valid() && SameTeam(s, t) && s.team.protocol.mode == VoteMode && k < |s.Plan()|
    requires s.speak(s.Plan()[k], []) == t.speak(s.Plan()[k], [])
    ensures var n, options := |s.Plan()|, s.team.protocol.voteOptions;
      Votes(Contributions(s, lost, n), options)[k] == Votes(Contributions(t, lost, n), options)[k]
  {
    IsolatedIndependent(s, t, lost, lost, k);
    hide Said, Schedule, Setup.Valid;
  }

  // ---- the same conditions are necessary ---------------------------------------------

  /** Answers with the last message it can read. */
  function Echo(echoing: string, others: string): Behaviour {
    (agent: string, peers: seq<Peer>) =>
      Reply(if agent != echoing then others else if peers == [] then "-" else peers[|peers| - 1].content, "")
  }

  lemma NeighboursDiffer(t: Team, st: Strategy, k: nat)
    requires ValidTeam(t) && SelectStrategy(t.protocol) == Ok(st) && 0 < k < |Schedule(st, t)|
    ensures Schedule(st, t)[k - 1] != Schedule(st, t)[k]
  {
    StrategyFits(t, st);
    if st == Debate {
      var n := |t.members|;
      RepeatAt(t.members, RoundsSetting(t.protocol), k - 1);
      RepeatAt(t.members, RoundsSetting(t.protocol), k);
      ConsecutiveRemainders(k, n);
    } else {
      EveryoneActsOnce(t, st);
    }
  }

  lemma ConsecutiveRemainders(k: nat, n: nat)
    requires k > 0 && n >= 2
    ensures (k - 1) % n != k % n
  {
    var d := k / n - (k - 1) / n;
    assert n * d == 1 + (k - 1) % n - k % n by {
      assert k == n * (k / n) + k % n && k - 1 == n * ((k - 1) / n) + (k - 1) % n;
    }
    MultipleBound(n, d);
  }

  /** The last message turn `k` can read is the one of turn `k - 1`. */
  lemma {:induction false} LastMessage(s: Setup, k: nat)
    requires 0 < k <= |s.Plan()|
    ensures var ps := Peers(Transcript(s, {}, k)); ps != [] && ps[|ps| - 1].content == Said(s, {}, k - 1)
  {
  }

  lemma {:induction false} EchoSays(s: Setup, k: nat, others: string)
    requires s.Valid() && 0 < k < |s.Plan()| && others != "" && s.speak == Echo(s.Plan()[k], others)
    requires !HearsNobody(s.team.protocol, s.Plan()[k])
    ensures Said(s, {}, k) == others
  {
    NeighboursDiffer(s.team, s.strategy, k);
    SaidIs(s, {}, k - 1);
    SaidIs(s, {}, k);
    ReadByProtocol(s.team, s.strategy, Kernel(s, {}, k), s.Plan()[k]);
    hide Transcript, Schedule, Visible, Said, HearsNobody, Setup.Valid;
    LastMessage(s, k);
  }

  /** Everyone else does depend on others: a member that is not isolated and does not act first can be made to say
      something different by changing the other members alone. */
  lemma OthersDepend(team: Team, st: Strategy, k: nat) returns (s: Setup, t: Setup)
    requires ValidTeam(team) && SelectStrategy(team.protocol) == Ok(st)
    requires 0 < k < |Schedule(st, team)| && !HearsNobody(team.protocol, Schedule(st, team)[k])
    ensures SameTeam(s, t) && s.team == team && s.strategy == st
    ensures BehavesAlike(s, t, s.Plan()[k]) && Said(s, {}, k) != Said(t, {}, k)
  {
    hide Schedule, Said, SelectStrategy, ValidTeam, HearsNobody;
    var agent := Schedule(st, team)[k];
    s := Setup(team, st, Echo(agent, "a"));
    t := Setup(team, st, Echo(agent, "b"));
    EchoSays(s, k, "a");
    EchoSays(t, k, "b");
  }
}
