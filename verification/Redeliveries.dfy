/** Duplicate delivery of what a worker records about an interaction: completed turns, messages, the outcome. */
module Redeliveries {
  import opened Outcomes
  import Leases
  import opened DurableInteractions
  import TurnLeases

  datatype Recording =
    | TurnDone(index: nat, agent: string, now: int)
    | Said(index: nat, sender: string, content: string)
    | Settled(outcome: Option<TypedOutcome>)

  function Record(d: DurableInteraction, r: Recording): DurableInteraction {
    match r
    case TurnDone(index, agent, now) => WithTurn(d, index, agent, TurnCompleted, now)
    case Said(index, sender, content) => WithMessage(d, index, sender, content)
    case Settled(outcome) => WithOutcome(d, outcome)
  }

  function RecordAll(d: DurableInteraction, rs: seq<Recording>): DurableInteraction {
    if rs == [] then d else Record(RecordAll(d, rs[..|rs| - 1]), rs[|rs| - 1])
  }

  /** There is nothing left for this recording to do. */
  predicate OnRecord(d: DurableInteraction, r: Recording) {
    match r
    case TurnDone(index, _, _) =>
      FindTurn(d.turns, index).Some? && FindTurn(d.turns, index).value.status == TurnCompleted
    case Said(index, sender, _) => HasMessage(d, index, sender)
    case Settled(outcome) => outcome.None? || d.outcome.Some?
  }

  /** A delivery of the same event, perhaps by another attempt: later, with another content, or another outcome. */
  predicate SameEvent(a: Recording, b: Recording) {
    match a
    case TurnDone(index, _, _) => b.TurnDone? && b.index == index
    case Said(index, sender, _) => b.Said? && b.index == index && b.sender == sender
    case Settled(outcome) => b.Settled? && (outcome.None? ==> b.outcome.None?)
  }

  /** A recording changes nothing exactly when it is on record; otherwise it is one more write. */
  lemma {:induction false} WritesExactly(d: DurableInteraction, r: Recording)
    ensures OnRecord(d, r) <==> Record(d, r) == d
    ensures Record(d, r).version == d.version + if OnRecord(d, r) then 0 else 1
    ensures OnRecord(Record(d, r), r)
  {
    if r.TurnDone? {
      var found := FindTurn(d.turns, r.index);
      FindTurnSpec(d.turns, r.index);
      if found.Some? {
        FindReplaced(d.turns, found.value.(status := TurnCompleted, completedAt := Some(r.now)), r.index);
      } else {
        FindAppended(d.turns, DurableTurn(r.index, r.agent, TurnCompleted, Leases.NO_LEASE, Some(r.now)), r.index);
      }
    }
    if r.Said? && !HasMessage(d, r.index, r.sender) {
      var e := Record(d, r);
      assert e.messages[|d.messages|] == DurableMessage(r.index, r.sender, r.content);
    }
  }

  /** And what it writes: a new completed turn for the agent that took it, or the completion of the turn that was
      leased, whose agent and lease stay; the message behind all others; the outcome. Nothing else changes. */
  lemma WrittenExactly(d: DurableInteraction, p: nat, index: nat, agent: string, now: int, content: string,
                       outcome: TypedOutcome)
    requires DistinctTurns(d.turns)
    ensures (forall q :: 0 <= q < |d.turns| ==> d.turns[q].index != index) ==>
      Record(d, TurnDone(index, agent, now))
      == d.(turns := d.turns + [DurableTurn(index, agent, TurnCompleted, Leases.NO_LEASE, Some(now))],
            version := d.version + 1)
    ensures p < |d.turns| && d.turns[p].index == index && d.turns[p].status != TurnCompleted ==>
      Record(d, TurnDone(index, agent, now))
      == d.(turns := d.turns[p := DurableTurn(index, d.turns[p].agent, TurnCompleted, d.turns[p].lease, Some(now))],
            version := d.version + 1)
    ensures (forall q :: 0 <= q < |d.messages| ==>
      d.messages[q].turnIndex != index || d.messages[q].sender != agent) ==>
      Record(d, Said(index, agent, content))
      == d.(messages := d.messages + [DurableMessage(index, agent, content)], version := d.version + 1)
    ensures d.outcome == None ==>
      Record(d, Settled(Some(outcome))) == d.(outcome := Some(outcome), version := d.version + 1)
  {
    FindTurnSpec(d.turns, index);
    if p < |d.turns| && d.turns[p].index == index { TurnLeases.FindDistinct(d.turns, p); }
    hide DistinctTurns, FindTurn, ReplaceTurn;
  }

  /** What is recorded stays recorded: messages and outcome as they are, completed turns down to the time they carry. */
  ghost predicate Keeps(d: DurableInteraction, e: DurableInteraction) {
    && d.messages <= e.messages
    && (d.outcome.Some? ==> e.outcome == d.outcome)
    && |d.turns| <= |e.turns|
    && (forall k :: 0 <= k < |d.turns| ==>
          e.turns[k].index == d.turns[k].index && e.turns[k].agent == d.turns[k].agent
          && (d.turns[k].status == TurnCompleted ==> e.turns[k] == d.turns[k]))
    && d.version <= e.version
  }

  lemma {:induction false} RecordKeeps(d: DurableInteraction, r: Recording)
    requires DistinctTurns(d.turns)
    ensures Keeps(d, Record(d, r)) && DistinctTurns(Record(d, r).turns)
  {
    if r.TurnDone? {
      FindTurnSpec(d.turns, r.index);
      WithTurnKeepsDistinct(d, r.index, r.agent, TurnCompleted, r.now);
    }
  }

  lemma {:induction false} StaysOnRecord(d: DurableInteraction, r: Recording, other: Recording)
    requires OnRecord(d, r)
    ensures OnRecord(Record(d, other), r)
  {
    if r.TurnDone? && other.TurnDone? {
      var found := FindTurn(d.turns, other.index);
      FindTurnSpec(d.turns, other.index);
      if found.Some? {
        FindReplaced(d.turns, found.value.(status := TurnCompleted, completedAt := Some(other.now)), r.index);
      } else {
        FindAppended(d.turns, DurableTurn(other.index, other.agent, TurnCompleted, Leases.NO_LEASE, Some(other.now)),
          r.index);
      }
    }
    if r.Said? && other.Said? {
      var k :| 0 <= k < |d.messages| && d.messages[k].turnIndex == r.index && d.messages[k].sender == r.sender;
      assert Record(d, other).messages[k] == d.messages[k];
    }
  }

  lemma SameEventOnRecord(d: DurableInteraction, a: Recording, b: Recording)
    requires OnRecord(d, a) && SameEvent(a, b)
    ensures OnRecord(d, b)
  {
  }

  /** Over any recordings nothing that was recorded is lost or changed. */
  lemma {:induction false} RecordingsAccumulate(d: DurableInteraction, rs: seq<Recording>)
    requires DistinctTurns(d.turns)
    ensures Keeps(d, RecordAll(d, rs)) && DistinctTurns(RecordAll(d, rs).turns)
  {
    if rs != [] {
      RecordingsAccumulate(d, rs[..|rs| - 1]);
      RecordKeeps(RecordAll(d, rs[..|rs| - 1]), rs[|rs| - 1]);
    }
  }

  lemma {:induction false} AllOnRecord(d: DurableInteraction, rs: seq<Recording>, k: nat)
    requires k < |rs|
    ensures OnRecord(RecordAll(d, rs), rs[k])
  {
    hide Record, OnRecord;
    var init, last := rs[..|rs| - 1], rs[|rs| - 1];
    if k < |init| {
      AllOnRecord(d, init, k);
      StaysOnRecord(RecordAll(d, init), rs[k], last);
    } else {
      WritesExactly(RecordAll(d, init), last);
    }
  }

  ghost predicate Redelivers(again: seq<Recording>, rs: seq<Recording>) {
    forall j :: 0 <= j < |again| ==> exists k :: 0 <= k < |rs| && SameEvent(rs[k], again[j])
  }

  /** Delivering any of the recorded events again, in any order, any number of times and with whatever contents, leaves
      the interaction exactly as it is. */
  lemma {:induction false} RedeliveryChangesNothing(d: DurableInteraction, rs: seq<Recording>, again: seq<Recording>)
    requires Redelivers(again, rs)
    ensures RecordAll(RecordAll(d, rs), again) == RecordAll(d, rs)
  {
    hide Record, OnRecord, SameEvent;
    if again != [] {
      var init, last := again[..|again| - 1], again[|again| - 1];
      assert forall j :: 0 <= j < |init| ==> init[j] == again[j];
      RedeliveryChangesNothing(d, rs, init);
      var k :| 0 <= k < |rs| && SameEvent(rs[k], last);
      AllOnRecord(d, rs, k);
      SameEventOnRecord(RecordAll(d, rs), rs[k], last);
      WritesExactly(RecordAll(d, rs), last);
    }
  }

  /** Worth resuming is exactly an interaction that is under way and has a completed turn. */
  lemma ResumableExact(stored: Option<DurableInteraction>)
    ensures Resumable(stored)
         == if stored.Some? && stored.value.status == InteractionRunning
               && exists k :: 0 <= k < |stored.value.turns| && stored.value.turns[k].status == TurnCompleted then stored
            else None
  {
  }
}
