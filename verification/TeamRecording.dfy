/** How each durable write of the executor moves the record of a run forward. */
module TeamRecording {
  import opened Outcomes
  import opened Teams
  import opened Scheduler
  import opened Leases
  import opened DurableInteractions
  import opened TurnLeases
  import opened TeamRuntime
  import opened TeamRuns

  lemma {:induction false} CompletedIndexListed(turns: seq<DurableTurn>, t: DurableTurn)
    requires t in turns && t.status == TurnCompleted
    ensures t.index in Indices(CompletedTurns(turns))
  {
  }

  lemma ListedIndexCompleted(turns: seq<DurableTurn>, n: nat) returns (t: DurableTurn)
    requires n in Indices(CompletedTurns(turns))
    ensures t in turns && t.status == TurnCompleted && t.index == n
  {
    var c := CompletedTurns(turns);
    var p :| 0 <= p < |c| && Indices(c)[p] == n;
    t := c[p];
    assert t in c;
  }

  /** Adding the completed turn `k` to a list, or putting it in the place of a pending one, records one turn more. */
  lemma CompletedAdded(s: Setup, k: nat, before: seq<DurableTurn>, after: seq<DurableTurn>, done: DurableTurn)
    requires k < |s.Plan()| && RecordsTurns(s, k, before) && DistinctTurns(after)
    requires done in after && done.index == k && done.status == TurnCompleted && done.agent == s.Plan()[k]
    requires forall t :: t in after ==> t == done || t in before
    requires forall t :: t in before && t.index != k ==> t in after
    ensures RecordsTurns(s, k + 1, after)
  {
    hide CompletedTurns, Schedule;
    CompletedIndexListed(after, done);
    forall n: nat | n < k ensures n in Indices(CompletedTurns(after)) {
      var t := ListedIndexCompleted(before, n);
      CompletedIndexListed(after, t);
    }
  }

  /** Completing turn `k` on the durable record, whether or not a lease already made it a pending turn. */
  lemma TurnListAdvances(s: Setup, k: nat, i: DurableInteraction, now: int)
    requires k < |s.Plan()| && RecordsTurns(s, k, i.turns)
    ensures RecordsTurns(s, k + 1, WithTurn(i, k, s.Plan()[k], TurnCompleted, now).turns)
    ensures WithTurn(i, k, s.Plan()[k], TurnCompleted, now)
      == i.(turns := WithTurn(i, k, s.Plan()[k], TurnCompleted, now).turns, version := i.version + 1)
  {
    hide CompletedTurns, Schedule, Indices;
    var agent := s.Plan()[k];
    var j := WithTurn(i, k, agent, TurnCompleted, now);
    FindTurnSpec(i.turns, k);
    WithTurnKeepsDistinct(i, k, agent, TurnCompleted, now);
    if FindTurn(i.turns, k).Some? {
      var t := FindTurn(i.turns, k).value;
      TurnReplacedIn(i.turns, t.(status := TurnCompleted, completedAt := Some(now)));
      CompletedAdded(s, k, i.turns, j.turns, t.(status := TurnCompleted, completedAt := Some(now)));
    } else {
      var t := DurableTurn(k, agent, TurnCompleted, NO_LEASE, Some(now));
      assert j.turns[|i.turns|] == t;
      CompletedAdded(s, k, i.turns, j.turns, t);
    }
  }

  /** What is on a list after one of its turns was replaced. */
  lemma TurnReplacedIn(turns: seq<DurableTurn>, t: DurableTurn)
    requires exists p :: 0 <= p < |turns| && turns[p].index == t.index
    ensures var r := ReplaceTurn(turns, t);
      t in r && (forall u :: u in r ==> u == t || u in turns)
        && (forall u :: u in turns && u.index != t.index ==> u in r)
  {
  }

  /** After the turn write alone, turn `k` is done but its message is missing. */
  lemma TurnWritten(s: Setup, lost: set<nat>, k: nat, d: DurableInteraction, now: int)
    requires k < |s.Plan()| && Records(s, lost, k, d)
    ensures Records(s, lost + {k}, k + 1, WithTurn(d, k, s.Plan()[k], TurnCompleted, now))
  {
    TurnListAdvances(s, k, d, now);
    LaterLossIrrelevant(s, lost, lost + {k}, k);
    TranscriptStep(s, lost + {k}, k);
    hide RecordsTurns, Transcript, WithTurn, Said;
  }

  lemma {:induction false} MessageMissing(s: Setup, lost: set<nat>, k: nat, d: DurableInteraction)
    requires k < |s.Plan()| && d.messages == DurableTranscript(Transcript(s, lost, k))
    ensures !HasMessage(d, k, s.Plan()[k])
  {
    TranscriptBounds(s, lost, k);
  }

  /** After both writes, turn `k` is done and on record in full. */
  lemma {:induction false} TurnAndMessageWritten(s: Setup, lost: set<nat>, k: nat, d: DurableInteraction, now: int)
    requires k < |s.Plan()| && Records(s, lost, k, d)
    ensures var e := WithTurn(d, k, s.Plan()[k], TurnCompleted, now);
      Records(s, lost, k + 1, WithMessage(e, k, s.Plan()[k], Said(s, lost, k)))
  {
    TurnListAdvances(s, k, d, now);
    hide RecordsTurns, WithTurn, Schedule;
    var e := WithTurn(d, k, s.Plan()[k], TurnCompleted, now);
    MessageMissing(s, lost, k, e);
    TranscriptStep(s, lost, k);
    hide Transcript, Said;
    assert k !in lost;
    assert DurableTranscript(Transcript(s, lost, k + 1))
      == e.messages + [DurableMessage(k, s.Plan()[k], Said(s, lost, k))];
  }

  // ---- replay after completion ------------------------------------------------------

  /** Once a complete run is on record, writing any of its turns and messages again changes nothing. */
  lemma {:induction false} ReplayChangesNothing(s: Setup, k: nat, d: DurableInteraction, now: int)
    requires k < |s.Plan()| && Concluded(s, {}, d)
    ensures WithTurn(d, k, s.Plan()[k], TurnCompleted, now) == d
    ensures WithMessage(d, k, s.Plan()[k], Said(s, {}, k)) == d
  {
    hide CompletedTurns, Schedule, Said, OutcomeFor;
    FindTurnSpec(d.turns, k);
    assert k in Indices(CompletedTurns(d.turns));
    var t := ListedIndexCompleted(d.turns, k);
    var p :| 0 <= p < |d.turns| && d.turns[p] == t;
    assert FindTurn(d.turns, k) == Some(t);
    MessageAt(s, |s.Plan()|, k);
    var m := Transcript(s, {}, |s.Plan()|)[k];
    assert d.messages[k] == DurableMessage(m.turnIndex, m.sender, m.content);
  }

  lemma {:induction false} MessageAt(s: Setup, n: nat, k: nat)
    requires k < n <= |s.Plan()|
    ensures |Transcript(s, {}, n)| == n && Transcript(s, {}, n)[k] == Message(k, s.Plan()[k], Said(s, {}, k))
  {
    hide Said, Schedule;
    FullLength(s, n);
    FullLength(s, n - 1);
    if k < n - 1 {
      MessageAt(s, n - 1, k);
    }
  }

  // ---- lease operations leave the record alone ------------------------------------------

  lemma GrantNeedsOpen(l: Lease, open: bool, req: Request, now: int)
    requires Grant(l, open, req, now).Ok?
    ensures open
  {
  }

  /** A turn list with the same completed turns, and only scheduled agents on the others, records the same turns. */
  lemma SameCompleted(s: Setup, k: nat, before: seq<DurableTurn>, after: seq<DurableTurn>)
    requires k <= |s.Plan()| && RecordsTurns(s, k, before) && DistinctTurns(after)
    requires forall t :: t in after && t.status == TurnCompleted ==> t in before
    requires forall t :: t in before && t.status == TurnCompleted ==> t in after
    requires forall t :: t in after && t.index < |s.Plan()| ==> t.agent == s.Plan()[t.index]
    ensures RecordsTurns(s, k, after)
  {
    hide CompletedTurns, Schedule;
    forall n: nat | n < k ensures n in Indices(CompletedTurns(after)) {
      var t := ListedIndexCompleted(before, n);
      CompletedIndexListed(after, t);
    }
  }

  lemma PendingAppended(s: Setup, k: nat, turns: seq<DurableTurn>, t: DurableTurn)
    requires k <= |s.Plan()| && RecordsTurns(s, k, turns)
    requires t.status != TurnCompleted && t.index < |s.Plan()| && t.agent == s.Plan()[t.index]
    requires forall p :: 0 <= p < |turns| ==> turns[p].index != t.index
    ensures RecordsTurns(s, k, turns + [t])
  {
    hide CompletedTurns, Schedule;
    SameCompleted(s, k, turns, turns + [t]);
  }

  lemma PendingReplaced(s: Setup, k: nat, turns: seq<DurableTurn>, old': DurableTurn, t: DurableTurn)
    requires k <= |s.Plan()| && RecordsTurns(s, k, turns)
    requires old' in turns && old'.status != TurnCompleted
    requires t.status != TurnCompleted && t.index == old'.index && t.agent == old'.agent
    ensures RecordsTurns(s, k, ReplaceTurn(turns, t))
  {
    hide CompletedTurns, Schedule;
    var p :| 0 <= p < |turns| && turns[p] == old';
    TurnReplacedIn(turns, t);
    SameCompleted(s, k, turns, ReplaceTurn(turns, t));
  }

  /** Granting the lease of a turn to the agent scheduled for it keeps the record of the run. */
  lemma GrantKeepsRecord(s: Setup, lost: set<nat>, k: nat, d: DurableInteraction, index: nat, req: Request, now: int)
    requires Records(s, lost, k, d) && index < |s.Plan()|
    requires GrantTurn(d, index, s.Plan()[index], req, now).Ok?
    ensures Records(s, lost, k, GrantTurn(d, index, s.Plan()[index], req, now).value)
  {
    hide Transcript, OutcomeFor, Schedule, RecordsTurns, Grant;
    FindTurnSpec(d.turns, index);
    var (e, turn) := EnsureTurn(d, index, s.Plan()[index]);
    GrantNeedsOpen(turn.lease, IsOpen(turn), req, now);
    if FindTurn(d.turns, index).None? {
      PendingAppended(s, k, d.turns, turn);
      assert e.turns[|d.turns|] == turn;
    }
    PendingReplaced(s, k, e.turns, turn, turn.(lease := Grant(turn.lease, IsOpen(turn), req, now).value));
  }

  /** Recovering expired turn leases keeps the record of the run, and the resume point it stamps is the index the
      scheduler gives the next turn of the reconstructed interaction. */
  lemma RecoveryKeepsRecord(s: Setup, lost: set<nat>, k: nat, d: DurableInteraction, now: int)
    requires s.Valid() && Records(s, lost, k, d)
    ensures var e := Recovered(d, now);
      && Records(s, lost, k, e)
      && (e != d ==> e.recoveredFrom == Some(k))
      && Seed(s.team, e).Ok? && |Seed(s.team, e).value.turns| == k
  {
    hide CompletedTurns, Schedule, Transcript, OutcomeFor, Recovered, OverdueTurn;
    var e := Recovered(d, now);
    RecoveryExact(d, now);
    forall t | t in e.turns ensures t.index < |s.Plan()| ==> t.agent == s.Plan()[t.index]
      ensures t.status == TurnCompleted ==> t in d.turns
    {
      var p :| 0 <= p < |e.turns| && e.turns[p] == t;
      assert d.turns[p] in d.turns;
    }
    forall t | t in d.turns && t.status == TurnCompleted ensures t in e.turns {
      var p :| 0 <= p < |d.turns| && d.turns[p] == t;
      assert e.turns[p] == t;
    }
    assert DistinctTurns(e.turns) by {
      assert forall p :: 0 <= p < |e.turns| ==> e.turns[p].index == d.turns[p].index;
    }
    SameCompleted(s, k, d.turns, e.turns);
    SeedIsKernel(s, lost, k, e);
    CompletedBelow(s, k, d.turns);
    LowestOfPrefix(d.turns, k);
    if e != d {
      LowestIsUnique(d.turns, e.recoveredFrom.value, k);
    }
  }

  lemma CompletedBelow(s: Setup, k: nat, turns: seq<DurableTurn>)
    requires k <= |s.Plan()| && RecordsTurns(s, k, turns)
    ensures forall n: nat :: n in CompletedIndices(turns) <==> n < k
  {
    hide CompletedTurns, Schedule;
    forall n: nat ensures n in CompletedIndices(turns) <==> n < k {
      if n < k {
        var t := ListedIndexCompleted(turns, n);
        var p :| 0 <= p < |turns| && turns[p] == t;
        assert turns[p].status == TurnCompleted && turns[p].index == n;
      }
    }
  }
}
