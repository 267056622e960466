/** The six scheduling strategies over the kernel interaction, and the schedule each of them follows. */
module Scheduler {
  import opened Collections
  import opened Outcomes
  import opened Teams

  datatype Turn = Turn(index: nat, agent: string)

  datatype Message = Message(turnIndex: nat, sender: string, content: string)

  /** The frozen kernel interaction: completed turns and the messages they produced. */
  datatype Interaction = Interaction(members: seq<string>, protocol: Protocol, turns: seq<Turn>, messages: seq<Message>)

  datatype Strategy = Broadcast | Pipeline | Coordinated | Debate | Vote | Delegation

  /** `select_strategy`: fails closed outside the executed envelope. */
  function SelectStrategy(p: Protocol): Result<Strategy> {
    if !Executed(p) then Err(UnexecutedProtocol)
    else match p.mode
      case TeamMode => Ok(match p.topology
                          case BroadcastTopology => Broadcast
                          case PipelineTopology => Pipeline
                          case CoordinatorTopology => Coordinated)
      case DebateMode => Ok(Debate)
      case VoteMode => Ok(Vote)
      case DelegationMode => Ok(Delegation)
  }

  function Acted(turns: seq<Turn>): seq<string> {
    seq(|turns|, i requires 0 <= i < |turns| => turns[i].agent)
  }

  /** The first member, in declared order, that is not `skip` and has not acted. */
  function FirstUnacted(members: seq<string>, skip: Option<string>, acted: seq<string>): Option<string> {
    if members == [] then None
    else if skip != Some(members[0]) && members[0] !in acted then Some(members[0])
    else FirstUnacted(members[1..], skip, acted)
  }

  function NextAgent(st: Strategy, i: Interaction): Option<string> {
    var acted := Acted(i.turns);
    var c := i.protocol.coordinator;
    match st
    case Broadcast => FirstUnacted(i.members, None, acted)
    case Pipeline => FirstUnacted(i.members, None, acted)
    case Vote => FirstUnacted(i.members, None, acted)
    case Coordinated =>
      var worker := FirstUnacted(i.members, c, acted);
      if worker.Some? then worker else if c.Some? && c.value !in acted then c else None
    case Delegation =>
      if c.Some? && c.value !in acted then c else FirstUnacted(i.members, c, acted)
    case Debate =>
      var n := |i.members|;
      if n == 0 || |i.turns| >= RoundsSetting(i.protocol) * n then None else Some(i.members[|i.turns| % n])
  }

  /** `next_turn`: who acts next; the index is always the number of turns taken. */
  function NextTurn(st: Strategy, i: Interaction): Option<Turn> {
    var agent := NextAgent(st, i);
    if agent.Some? then Some(Turn(|i.turns|, agent.value)) else None
  }

  /** `visible_messages`: what the acting agent may read. */
  function Visible(st: Strategy, i: Interaction, agent: string): seq<Message> {
    match st
    case Broadcast => []
    case Vote => []
    case Pipeline => i.messages
    case Debate => i.messages
    case Coordinated => if i.protocol.coordinator == Some(agent) then i.messages else []
    case Delegation => if i.protocol.coordinator == Some(agent) then [] else i.messages
  }

  // ---- the declared schedule ----------------------------------------------------

  function Without(members: seq<string>, c: string): (r: seq<string>)
    ensures forall x :: x in r <==> x in members && x != c
  {
    if members == [] then [] else (if members[0] == c then [] else [members[0]]) + Without(members[1..], c)
  }

  function Repeat(members: seq<string>, rounds: nat): (r: seq<string>)
    ensures |r| == rounds * |members|
  {
    if rounds == 0 then [] else members + Repeat(members, rounds - 1)
  }

  /** The order in which a strategy is meant to let the team act. */
  function Schedule(st: Strategy, t: Team): seq<string> {
    match st
    case Broadcast => t.members
    case Pipeline => t.members
    case Vote => t.members
    case Coordinated =>
      if t.protocol.coordinator.Some? then
        Without(t.members, t.protocol.coordinator.value) + [t.protocol.coordinator.value] else t.members
    case Delegation =>
      if t.protocol.coordinator.Some? then
        [t.protocol.coordinator.value] + Without(t.members, t.protocol.coordinator.value) else t.members
    case Debate => if RoundsSetting(t.protocol) >= 0 then Repeat(t.members, RoundsSetting(t.protocol)) else []
  }

  lemma {:induction false} WithoutDistinct(members: seq<string>, c: string)
    requires Distinct(members)
    ensures Distinct(Without(members, c))
    ensures c in members ==> |Without(members, c)| == |members| - 1
    ensures c !in members ==> Without(members, c) == members
  {
    if members != [] {
      assert Distinct(members[1..]) && members[0] !in members[1..];
      WithoutDistinct(members[1..], c);
      if members[0] != c {
        assert Without(members, c) == [members[0]] + Without(members[1..], c);
      }
    }
  }

  lemma {:induction false} SkipIsWithout(members: seq<string>, c: string, acted: seq<string>)
    ensures FirstUnacted(members, Some(c), acted) == FirstUnacted(Without(members, c), None, acted)
  {
    if members != [] {
      SkipIsWithout(members[1..], c, acted);
      if members[0] == c {
        assert Without(members, c) == Without(members[1..], c);
      } else {
        assert Without(members, c)[1..] == Without(members[1..], c);
      }
    }
  }

  /** When a prefix of a list of distinct members has acted (perhaps together with others that are not on the list),
      the next unacted one is the one just behind that prefix. */
  lemma {:induction false} FirstUnactedAfterPrefix(list: seq<string>, acted: seq<string>, k: nat)
    requires Distinct(list) && k <= |list|
    requires forall j :: 0 <= j < |list| ==> (list[j] in acted <==> j < k)
    ensures FirstUnacted(list, None, acted) == if k < |list| then Some(list[k]) else None
  {
    if list != [] && k > 0 {
      forall j | 0 <= j < |list[1..]| ensures list[1..][j] in acted <==> j < k - 1 {
        assert list[1..][j] == list[j + 1];
      }
      FirstUnactedAfterPrefix(list[1..], acted, k - 1);
    }
  }

  lemma {:induction false} RepeatAt(members: seq<string>, rounds: nat, k: nat)
    requires members != [] && k < rounds * |members|
    ensures Repeat(members, rounds)[k] == members[k % |members|]
  {
    if k >= |members| {
      RepeatAt(members, rounds - 1, k - |members|);
      ModuloShift(k, |members|);
    }
  }

  lemma ModuloShift(k: nat, n: nat)
    requires 0 < n <= k
    ensures (k - n) % n == k % n
  {
    var d := k / n - (k - n) / n - 1;
    assert n * d == (k - n) % n - k % n by {
      assert k == n * (k / n) + k % n && k - n == n * ((k - n) / n) + (k - n) % n;
    }
    MultipleBound(n, d);
  }

  lemma MultipleBound(n: nat, d: int)
    requires n > 0
    ensures d >= 1 ==> n * d >= n
    ensures d <= -1 ==> n * d + n <= 0
  {
  }

  lemma TakenIffBelow(list: seq<string>, k: nat, j: nat)
    requires Distinct(list) && k <= |list| && j < |list|
    ensures list[j] in list[..k] <==> j < k
  {
  }

  lemma {:induction false} FirstUnactedOnList(list: seq<string>, k: nat)
    requires Distinct(list) && k <= |list|
    ensures FirstUnacted(list, None, list[..k]) == if k < |list| then Some(list[k]) else None
  {
    forall j | 0 <= j < |list| ensures list[j] in list[..k] <==> j < k { TakenIffBelow(list, k, j); }
    FirstUnactedAfterPrefix(list, list[..k], k);
  }

  lemma NextAgentCoordinated(t: Team, i: Interaction, k: nat)
    requires Distinct(t.members) && t.protocol.coordinator.Some?
    requires i.members == t.members && i.protocol == t.protocol
    requires k <= |Schedule(Coordinated, t)| && Acted(i.turns) == Schedule(Coordinated, t)[..k]
    ensures NextAgent(Coordinated, i) == if k < |Schedule(Coordinated, t)| then Some(Schedule(Coordinated, t)[k])
      else None
  {
    var c := t.protocol.coordinator.value;
    var workers := Without(t.members, c);
    var list := workers + [c];
    WithoutDistinct(t.members, c);
    SkipIsWithout(t.members, c, list[..k]);
    assert Distinct(list);
    hide Without;
    var m := if k <= |workers| then k else |workers|;
    forall j | 0 <= j < |workers| ensures workers[j] in list[..k] <==> j < m {
      assert list[j] == workers[j];
      TakenIffBelow(list, k, j);
    }
    FirstUnactedAfterPrefix(workers, list[..k], m);
    assert list[|workers|] == c;
    TakenIffBelow(list, k, |workers|);
  }

  lemma NextAgentDelegation(t: Team, i: Interaction, k: nat)
    requires Distinct(t.members) && t.protocol.coordinator.Some?
    requires i.members == t.members && i.protocol == t.protocol
    requires k <= |Schedule(Delegation, t)| && Acted(i.turns) == Schedule(Delegation, t)[..k]
    ensures NextAgent(Delegation, i) == if k < |Schedule(Delegation, t)| then Some(Schedule(Delegation, t)[k]) else None
  {
    var c := t.protocol.coordinator.value;
    var delegates := Without(t.members, c);
    var list := [c] + delegates;
    WithoutDistinct(t.members, c);
    assert Distinct(list);
    TakenIffBelow(list, k, 0);
    if k > 0 {
      SkipIsWithout(t.members, c, list[..k]);
      forall j | 0 <= j < |delegates| ensures delegates[j] in list[..k] <==> j < k - 1 {
        assert list[j + 1] == delegates[j];
        TakenIffBelow(list, k, j + 1);
      }
      FirstUnactedAfterPrefix(delegates, list[..k], k - 1);
    }
  }

  /** The strategy selected for a valid team always finds the coordinator it needs. */
  lemma StrategyFits(t: Team, st: Strategy)
    requires ValidTeam(t) && SelectStrategy(t.protocol) == Ok(st)
    ensures st in {Coordinated, Delegation} ==> t.protocol.coordinator.Some?
    ensures st == Debate ==> RoundsSetting(t.protocol) >= 1
  {
  }

  /** One step of the schedule: when the first `k` entries of the schedule have acted, the strategy picks entry `k`
      under index `k`, and stops exactly when the schedule is used up. */
  lemma NextTurnFollowsSchedule(t: Team, st: Strategy, i: Interaction)
    requires ValidTeam(t) && SelectStrategy(t.protocol) == Ok(st)
    requires i.members == t.members && i.protocol == t.protocol
    requires |i.turns| <= |Schedule(st, t)| && Acted(i.turns) == Schedule(st, t)[..|i.turns|]
    ensures var k := |i.turns|;
      NextTurn(st, i) == if k < |Schedule(st, t)| then Some(Turn(k, Schedule(st, t)[k])) else None
  {
    var k := |i.turns|;
    StrategyFits(t, st);
    match st
    case Broadcast => FirstUnactedOnList(t.members, k);
    case Pipeline => FirstUnactedOnList(t.members, k);
    case Vote => FirstUnactedOnList(t.members, k);
    case Coordinated => NextAgentCoordinated(t, i, k);
    case Delegation => NextAgentDelegation(t, i, k);
    case Debate =>
      if k < RoundsSetting(t.protocol) * |t.members| {
        RepeatAt(t.members, RoundsSetting(t.protocol), k);
      }
  }

  /** Length of the schedule: one turn per member, or `rounds` turns per member in a debate. */
  lemma ScheduleLength(t: Team, st: Strategy)
    requires ValidTeam(t) && SelectStrategy(t.protocol) == Ok(st)
    ensures |Schedule(st, t)| == if st == Debate then RoundsSetting(t.protocol) * |t.members| else |t.members|
    ensures |Schedule(st, t)| > 0
  {
    StrategyFits(t, st);
    if t.protocol.coordinator.Some? {
      WithoutDistinct(t.members, t.protocol.coordinator.value);
    }
    if st == Debate {
      ProductPositive(RoundsSetting(t.protocol), |t.members|);
    }
  }

  lemma ProductPositive(a: int, b: int)
    requires a >= 1 && b >= 1
    ensures a * b >= 1
  {
  }

  /** Everyone on the schedule is a member of the team. */
  lemma ScheduleMembers(t: Team, st: Strategy, k: nat)
    requires ValidTeam(t) && SelectStrategy(t.protocol) == Ok(st) && k < |Schedule(st, t)|
    ensures Schedule(st, t)[k] in t.members
  {
    StrategyFits(t, st);
    if st == Debate {
      RepeatAt(t.members, RoundsSetting(t.protocol), k);
    } else {
      assert Schedule(st, t)[k] in Schedule(st, t);
    }
  }

  /** Takes every turn the strategy offers, at most `fuel` of them. */
  function Play(st: Strategy, i: Interaction, fuel: nat): Interaction
    decreases fuel
  {
    var next := NextTurn(st, i);
    if fuel == 0 || next.None? then i else Play(st, i.(turns := i.turns + [next.value]), fuel - 1)
  }

  /** Playing on from the first `k` schedule entries takes exactly the rest of the schedule. */
  lemma {:induction false} PlayFrom(t: Team, st: Strategy, i: Interaction, fuel: nat)
    requires ValidTeam(t) && SelectStrategy(t.protocol) == Ok(st)
    requires i.members == t.members && i.protocol == t.protocol
    requires |i.turns| <= |Schedule(st, t)| && Acted(i.turns) == Schedule(st, t)[..|i.turns|]
    requires forall k :: 0 <= k < |i.turns| ==> i.turns[k].index == k
    requires fuel >= |Schedule(st, t)| - |i.turns|
    ensures var turns := Play(st, i, fuel).turns;
      Acted(turns) == Schedule(st, t) && forall k :: 0 <= k < |turns| ==> turns[k].index == k
    decreases fuel
  {
    NextTurnFollowsSchedule(t, st, i);
    hide Schedule, NextTurn, NextAgent, SelectStrategy, ValidTeam;
    var k := |i.turns|;
    if k < |Schedule(st, t)| {
      var next := i.(turns := i.turns + [Turn(k, Schedule(st, t)[k])]);
      assert Acted(next.turns) == Schedule(st, t)[..k + 1];
      PlayFrom(t, st, next, fuel - 1);
    } else {
      assert Schedule(st, t)[..k] == Schedule(st, t);
    }
  }

  /** Schedule exactness: from an empty interaction every strategy stops after exactly the declared turns, in the
      declared order, turn `k` carrying index `k`; any larger step budget changes nothing. */
  lemma {:induction false} ScheduleExact(t: Team, st: Strategy, fuel: nat)
    requires ValidTeam(t) && SelectStrategy(t.protocol) == Ok(st)
    requires fuel >= |Schedule(st, t)|
    ensures var turns := Play(st, Interaction(t.members, t.protocol, [], []), fuel).turns;
      && Acted(turns) == Schedule(st, t)
      && (forall k :: 0 <= k < |turns| ==> turns[k].index == k)
      && |turns| == if st == Debate then RoundsSetting(t.protocol) * |t.members| else |t.members|
  {
    var i := Interaction(t.members, t.protocol, [], []);
    assert Acted(i.turns) == Schedule(st, t)[..0];
    PlayFrom(t, st, i, fuel);
    ScheduleLength(t, st);
    assert |Acted(Play(st, i, fuel).turns)| == |Play(st, i, fuel).turns|;
  }

  /** Outside debates every member acts exactly once. */
  lemma EveryoneActsOnce(t: Team, st: Strategy)
    requires ValidTeam(t) && SelectStrategy(t.protocol) == Ok(st) && st != Debate
    ensures Distinct(Schedule(st, t)) && forall m :: m in Schedule(st, t) <==> m in t.members
  {
    StrategyFits(t, st);
    if t.protocol.coordinator.Some? {
      WithoutDistinct(t.members, t.protocol.coordinator.value);
    }
  }
}
