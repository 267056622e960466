/** The typed, replayable outcome of a vote. */
module VoteTally {
  import opened Outcomes
  import opened Teams
  import opened Ordering
  import opened VoteOutcomes

  datatype VoteRecord = VoteRecord(agent: string, raw: string, canonical: string, valid: bool)

  datatype VoteOutcome = VoteOutcome(
    arbitration: Arbitration,
    tally: map<string, nat>,
    votes: seq<VoteRecord>,
    invalid: seq<VoteRecord>,
    winner: Option<string>,
    winnerCount: nat,
    tie: bool,
    tiedOptions: seq<string>)

  /** A vote is valid when it is one of the declared options or, without any, when it is not blank. */
  function MemberVote(agent: string, raw: string, options: seq<string>): VoteRecord {
    var canonical := CanonicalVote(raw);
    var valid := if options != [] then exists k :: 0 <= k < |options| && CanonicalVote(options[k]) == canonical
      else canonical != "";
    VoteRecord(agent, raw, canonical, valid)
  }

  /** The canonical forms of the valid votes. */
  function ValidVotes(votes: seq<VoteRecord>): seq<string> {
    if votes == [] then []
    else ValidVotes(votes[..|votes| - 1]) + (if votes[|votes| - 1].valid then [votes[|votes| - 1].canonical] else [])
  }

  function InvalidVotes(votes: seq<VoteRecord>): seq<VoteRecord> {
    if votes == [] then []
    else InvalidVotes(votes[..|votes| - 1]) + (if votes[|votes| - 1].valid then [] else [votes[|votes| - 1]])
  }

  function Ballot(votes: seq<VoteRecord>): multiset<string> { multiset(ValidVotes(votes)) }

  function Counts(ballot: multiset<string>): map<string, nat> {
    map o | o in ballot :: ballot[o]
  }

  /** `n` is the greatest count of a tally. */
  ghost predicate IsTop(n: nat, tally: map<string, nat>) {
    (exists o :: o in tally && tally[o] == n) && forall o :: o in tally ==> tally[o] <= n
  }

  lemma {:induction false} TopExists(tally: map<string, nat>)
    requires tally != map[]
    ensures exists n: nat :: IsTop(n, tally)
    decreases |tally|
  {
    var o :| o in tally;
    var rest := tally - {o};
    if rest == map[] {
      assert forall p :: p in tally && p != o ==> p in rest;
      assert IsTop(tally[o], tally);
    } else {
      TopExists(rest);
      var n: nat :| IsTop(n, rest);
      assert forall p :: p in tally && p != o ==> p in rest;
      if n < tally[o] {
        assert IsTop(tally[o], tally);
      } else {
        var p :| p in rest && rest[p] == n;
        assert p in tally && tally[p] == n;
        assert IsTop(n, tally);
      }
    }
  }

  /** The greatest number of votes any option received. */
  ghost function Top(tally: map<string, nat>): (n: nat)
    requires tally != map[]
    ensures IsTop(n, tally)
  {
    TopExists(tally);
    var n: nat :| IsTop(n, tally); n
  }

  ghost function TopOptions(tally: map<string, nat>): (s: set<string>)
    requires tally != map[]
    ensures s != {}
  {
    var s := set o | o in tally && tally[o] == Top(tally);
    var o :| o in tally && tally[o] == Top(tally);
    assert o in s;
    s
  }

  /** The outcome, as a function of the ballot alone (apart from the lists of votes it carries along). */
  ghost function OutcomeOf(votes: seq<VoteRecord>, arbitration: Arbitration): VoteOutcome {
    var tally := Counts(Ballot(votes));
    if arbitration == Majority && tally != map[] then
      var top := Sorted(TopOptions(tally));
      VoteOutcome(arbitration, tally, votes, InvalidVotes(votes), Some(top[0]), Top(tally), |top| > 1, if |top| > 1 then
        top else [])
    else
      VoteOutcome(arbitration, tally, votes, InvalidVotes(votes), None, 0, false, [])
  }

  /** `build_vote_outcome`: one pass over the votes fills the tally, then the top options are sorted. */
  method BuildVoteOutcome(votes: seq<VoteRecord>, arbitration: Arbitration) returns (r: VoteOutcome)
    ensures r == OutcomeOf(votes, arbitration)
  {
    var tally, invalid := CountVotes(votes);
    var winner: Option<string> := None;
    var winnerCount, tie, tiedOptions := 0, false, [];
    if arbitration == Majority && tally != map[] {
      winnerCount := MaxCount(tally);
      var options := set o | o in tally && tally[o] == winnerCount;
      assert options == TopOptions(tally);
      var top := Sorted(options);
      winner := Some(top[0]);
      if |top| > 1 {
        tie, tiedOptions := true, top;
      }
    }
    r := VoteOutcome(arbitration, tally, votes, invalid, winner, winnerCount, tie, tiedOptions);
  }

  lemma CountNone()
    ensures Counts(Ballot([])) == map[] && InvalidVotes([]) == []
  {
  }

  lemma CountOne(votes: seq<VoteRecord>, i: nat)
    requires i < |votes|
    ensures InvalidVotes(votes[..i + 1]) == InvalidVotes(votes[..i]) + if votes[i].valid then [] else [votes[i]]
    ensures var before, c := Counts(Ballot(votes[..i])), votes[i].canonical;
      Counts(Ballot(votes[..i + 1])) == if votes[i].valid then
        before[c := (if c in before then before[c] else 0) + 1] else before
  {
    assert votes[..i + 1][..i] == votes[..i];
    var ballot := Ballot(votes[..i]);
    if votes[i].valid {
      assert Ballot(votes[..i + 1]) == ballot + multiset{votes[i].canonical};
    } else {
      assert ValidVotes(votes[..i + 1]) == ValidVotes(votes[..i]);
    }
  }

  /** The counting loop. */
  method CountVotes(votes: seq<VoteRecord>) returns (tally: map<string, nat>, invalid: seq<VoteRecord>)
    ensures tally == Counts(Ballot(votes)) && invalid == InvalidVotes(votes)
  {
    hide Ballot, Counts, ValidVotes, InvalidVotes;
    CountNone();
    tally, invalid := map[], [];
    for i := 0 to |votes|
      invariant tally == Counts(Ballot(votes[..i]))
      invariant invalid == InvalidVotes(votes[..i])
    {
      var record := votes[i];
      CountOne(votes, i);
      if record.valid {
        tally := tally[record.canonical := (if record.canonical in tally then tally[record.canonical] else 0) + 1];
      } else {
        invalid := invalid + [record];
      }
    }
    assert votes[..|votes|] == votes;
  }

  /** `max(tally.values())`. */
  method MaxCount(tally: map<string, nat>) returns (n: nat)
    requires tally != map[]
    ensures n == Top(tally)
  {
    n := 0;
    var todo := tally.Keys;
    while todo != {}
      invariant todo <= tally.Keys
      invariant forall o :: o in tally && o !in todo ==> tally[o] <= n
      invariant (n == 0 && todo == tally.Keys) || exists o :: o in tally && tally[o] == n
      decreases |todo|
    {
      var o :| o in todo;
      if tally[o] > n || todo == tally.Keys { n := tally[o]; }
      todo := todo - {o};
    }
  }

  // ---- what the outcome means ---------------------------------------------------

  function Sum(tally: map<string, nat>): nat
    decreases |tally|
  {
    if tally == map[] then 0
    else var o := Least(tally.Keys); tally[o] + Sum(tally - {o})
  }

  lemma {:induction false} SumOfCounts(ballot: multiset<string>)
    ensures Sum(Counts(ballot)) == |ballot|
    decreases |ballot|
  {
    var tally := Counts(ballot);
    if tally == map[] {
      assert forall o :: o in ballot ==> o in tally;
    } else {
      var o := Least(tally.Keys);
      var rest := ballot[o := 0];
      assert tally - {o} == Counts(rest);
      SumOfCounts(rest);
    }
  }

  lemma {:induction false} SplitVotes(votes: seq<VoteRecord>)
    ensures |ValidVotes(votes)| + |InvalidVotes(votes)| == |votes|
  {
    if votes != [] {
      SplitVotes(votes[..|votes| - 1]);
    }
  }

  /** A vote is valid if and only if it means one of the declared options, or, without any, says something; it is kept
      with the voter and the wording. */
  lemma MemberVoteExact(agent: string, raw: string, options: seq<string>)
    ensures var r := MemberVote(agent, raw, options);
      && r.agent == agent && r.raw == raw && r.canonical == CanonicalVote(raw)
      && (options != [] ==> (r.valid <==> exists o :: o in options && CanonicalVote(o) == CanonicalVote(raw)))
      && (options == [] ==> (r.valid <==> CanonicalVote(raw) != ""))
  {
    hide CanonicalVote;
    if exists o :: o in options && CanonicalVote(o) == CanonicalVote(raw) {
      var o :| o in options && CanonicalVote(o) == CanonicalVote(raw);
      var k :| 0 <= k < |options| && options[k] == o;
    }
  }

  /** The tally has the meanings of valid votes for options, each with the number of valid votes that mean it; the
      invalid votes are kept, in order; nothing else decides who wins. */
  lemma {:induction false} TallyExact(votes: seq<VoteRecord>, arbitration: Arbitration)
    ensures var r := OutcomeOf(votes, arbitration);
      && (forall o :: o in r.tally <==> Backers(votes, o) != {})
      && (forall o :: o in r.tally ==> r.tally[o] == |Backers(votes, o)|)
      && r.votes == votes && r.arbitration == arbitration
      && (forall v :: v in r.invalid <==> v in votes && !v.valid)
      && (arbitration != Majority ==> r.winner == None && r.winnerCount == 0 && !r.tie && r.tiedOptions == [])
  {
    forall o ensures Ballot(votes)[o] == |Backers(votes, o)| { BallotCounts(votes, o); }
    InvalidExact(votes);
    hide Ballot, TopOptions, Top, Sorted;
  }

  /** The valid votes that mean this option, by their places. */
  function Backers(votes: seq<VoteRecord>, option: string): set<nat> {
    set k: nat | k < |votes| && votes[k].valid && votes[k].canonical == option
  }

  lemma {:induction false} BallotCounts(votes: seq<VoteRecord>, o: string)
    ensures Ballot(votes)[o] == |Backers(votes, o)|
  {
    if votes != [] {
      var init, last := votes[..|votes| - 1], votes[|votes| - 1];
      BallotCounts(init, o);
      assert Ballot(votes) == Ballot(init) + if last.valid then multiset{last.canonical} else multiset{};
      hide Ballot;
      BackersGrow(votes, o);
    }
  }

  lemma BackersGrow(votes: seq<VoteRecord>, o: string)
    requires votes != []
    ensures var init, last := votes[..|votes| - 1], votes[|votes| - 1];
      |Backers(votes, o)| == |Backers(init, o)| + if last.valid && last.canonical == o then 1 else 0
  {
    var init, last := votes[..|votes| - 1], votes[|votes| - 1];
    var more := if last.valid && last.canonical == o then {|init|} else {};
    assert Backers(votes, o) == Backers(init, o) + more by {
      forall k: nat ensures k in Backers(votes, o) <==> k in Backers(init, o) + more {}
    }
  }

  lemma {:induction false} InvalidExact(votes: seq<VoteRecord>)
    ensures forall v :: v in InvalidVotes(votes) <==> v in votes && !v.valid
  {
    if votes != [] {
      InvalidExact(votes[..|votes| - 1]);
      assert votes == votes[..|votes| - 1] + [votes[|votes| - 1]];
    }
  }

  /** No vote is lost: the tally and the invalid votes together account for every vote. */
  lemma EveryVoteCounted(votes: seq<VoteRecord>, arbitration: Arbitration)
    ensures var r := OutcomeOf(votes, arbitration); Sum(r.tally) + |r.invalid| == |votes|
  {
    SumOfCounts(Ballot(votes));
    SplitVotes(votes);
  }

  /** The winner under majority arbitration: it has the greatest count, and among the options sharing that count it
      is alphabetically first. */
  lemma WinnerIsFirstOfTop(votes: seq<VoteRecord>)
    ensures var r := OutcomeOf(votes, Majority);
      && (r.winner.None? <==> r.tally == map[])
      && (r.winner.Some? ==>
           && r.winner.value in r.tally && r.tally[r.winner.value] == r.winnerCount
           && (forall o :: o in r.tally ==> r.tally[o] <= r.winnerCount)
           && (forall o :: o in r.tally && r.tally[o] == r.winnerCount ==> LexLe(r.winner.value, o)))
  {
  }

  lemma SharedIffSeveral(s: set<string>)
    ensures |s| > 1 <==> exists a, b :: a != b && a in s && b in s
  {
    if s != {} {
      var a := Least(s);
      assert s == {a} + (s - {a});
      if |s| > 1 {
        var b :| b in s - {a};
        assert a != b && a in s && b in s;
      } else {
        assert s - {a} == {};
      }
    }
  }

  /** A tie is declared exactly when two options share the greatest count; all of them are then listed, sorted. */
  lemma TieIffShared(votes: seq<VoteRecord>)
    ensures var r := OutcomeOf(votes, Majority);
      && (r.tie <==> exists a, b :: a != b && a in r.tally && b in r.tally && r.tally[a] == r.tally[b] == r.winnerCount)
      && (r.tie ==> Ascending(r.tiedOptions))
      && (r.tie ==> forall o :: o in r.tiedOptions <==> o in r.tally && r.tally[o] == r.winnerCount)
  {
    var tally := Counts(Ballot(votes));
    if tally != map[] {
      var s := TopOptions(tally);
      SortedAscends(s);
      SharedIffSeveral(s);
      assert forall o :: o in s <==> o in tally && tally[o] == Top(tally);
    }
  }

  lemma {:induction false} BallotOfConcat(a: seq<VoteRecord>, b: seq<VoteRecord>)
    ensures Ballot(a + b) == Ballot(a) + Ballot(b)
  {
    if b == [] {
      assert a + b == a;
    } else {
      assert (a + b)[..|a + b| - 1] == a + b[..|b| - 1];
      BallotOfConcat(a, b[..|b| - 1]);
    }
  }

  lemma CancelOne(a: multiset<VoteRecord>, b: multiset<VoteRecord>, x: VoteRecord)
    requires a + multiset{x} == b + multiset{x}
    ensures a == b
  {
    assert a == a + multiset{x} - multiset{x};
    assert b == b + multiset{x} - multiset{x};
  }

  /** A ballot splits into any one vote and all the others. */
  lemma BallotWithout(votes: seq<VoteRecord>, k: nat)
    requires k < |votes|
    ensures Ballot(votes) == Ballot(votes[..k] + votes[k + 1..]) + Ballot([votes[k]])
    ensures multiset(votes) == multiset(votes[..k] + votes[k + 1..]) + multiset{votes[k]}
  {
    hide Ballot;
    var before, x, after := votes[..k], [votes[k]], votes[k + 1..];
    assert votes == before + x + after;
    BallotOfConcat(before, after);
    BallotOfConcat(before + x, after);
    BallotOfConcat(before, x);
  }

  /** Permuting the voters permutes the ballot only. */
  lemma {:induction false} BallotOfPermutation(a: seq<VoteRecord>, b: seq<VoteRecord>)
    requires multiset(a) == multiset(b)
    ensures Ballot(a) == Ballot(b)
    decreases |a|
  {
    hide Ballot;
    assert |a| == |multiset(a)| == |multiset(b)| == |b|;
    if a == [] {
      assert a == b;
    } else {
      assert a[0] in multiset(b);
      var k :| 0 <= k < |b| && b[k] == a[0];
      BallotWithout(a, 0);
      BallotWithout(b, k);
      var restA, restB := a[..0] + a[1..], b[..k] + b[k + 1..];
      CancelOne(multiset(restA), multiset(restB), a[0]);
      BallotOfPermutation(restA, restB);
    }
  }

  /** The result of a vote does not depend on the order in which the members voted. */
  lemma OrderOfVotersIrrelevant(a: seq<VoteRecord>, b: seq<VoteRecord>, arbitration: Arbitration)
    requires multiset(a) == multiset(b)
    ensures var r, q := OutcomeOf(a, arbitration), OutcomeOf(b, arbitration);
      && r.tally == q.tally && r.winner == q.winner && r.winnerCount == q.winnerCount
      && r.tie == q.tie && r.tiedOptions == q.tiedOptions
  {
    BallotOfPermutation(a, b);
  }
}
