/** A team node run by one worker after another, each dying at some durable write until one survives, against the same
    node run without a crash. */
module CrashResume {
  import opened Outcomes
  import opened Teams
  import opened Scheduler
  import opened DurableInteractions
  import opened InteractionLedgers
  import opened TeamRuntime
  import opened TeamRuns
  import opened TeamRecording
  import opened TeamExecutor

  /** A completed turn without a message: a worker died between the two writes of that turn. */
  predicate HasGap(d: DurableInteraction) {
    exists p :: 0 <= p < |d.turns| && d.turns[p].status == TurnCompleted
      && !HasMessage(d, d.turns[p].index, d.turns[p].agent)
  }

  /** What every observer of a finished node sees: the transcript, what each member contributed, the typed outcome. */
  ghost predicate SameAsUninterrupted(s: Setup, d: DurableInteraction) {
    && d.messages == DurableTranscript(Transcript(s, {}, |s.Plan()|))
    && d.outcome == OutcomeFor(s.team.protocol, Contributions(s, {}, |s.Plan()|))
  }

  lemma {:induction false} HasMessageIff(s: Setup, lost: set<nat>, k: nat, d: DurableInteraction, n: nat)
    requires k <= |s.Plan()| && n < k && d.messages == DurableTranscript(Transcript(s, lost, k))
    ensures HasMessage(d, n, s.Plan()[n]) <==> n !in lost
  {
    TranscriptBounds(s, lost, k);
    if n !in lost {
      var p := MessageFound(s, lost, k, n);
      assert d.messages[p].turnIndex == n && d.messages[p].sender == s.Plan()[n];
    }
  }

  lemma {:induction false} MessageFound(s: Setup, lost: set<nat>, k: nat, n: nat) returns (p: nat)
    requires n < k <= |s.Plan()| && n !in lost
    ensures p < |Transcript(s, lost, k)| && Transcript(s, lost, k)[p] == Message(n, s.Plan()[n], Said(s, lost, n))
  {
    hide Said, Schedule;
    if n < k - 1 {
      p := MessageFound(s, lost, k - 1, n);
    } else {
      p := |Transcript(s, lost, k - 1)|;
    }
  }

  /** The durable record itself tells whether anything was lost. */
  lemma GapIffLost(s: Setup, lost: set<nat>, k: nat, d: DurableInteraction)
    requires Records(s, lost, k, d)
    ensures HasGap(d) <==> lost != {}
  {
    hide CompletedTurns, Schedule, Transcript, OutcomeFor, HasMessage;
    if lost != {} {
      var n :| n in lost;
      var t := ListedIndexCompleted(d.turns, n);
      HasMessageIff(s, lost, k, d, n);
      var p :| 0 <= p < |d.turns| && d.turns[p] == t;
    }
    if HasGap(d) {
      var p :| 0 <= p < |d.turns| && d.turns[p].status == TurnCompleted
        && !HasMessage(d, d.turns[p].index, d.turns[p].agent);
      assert d.turns[p] in d.turns;
      HasMessageIff(s, lost, k, d, d.turns[p].index);
    }
  }

  /** The finished node is the uninterrupted one exactly when no worker died between the two writes of a turn. */
  lemma GapFreeIffUninterrupted(s: Setup, lost: set<nat>, d: DurableInteraction)
    requires Concluded(s, lost, d)
    ensures !HasGap(d) <==> SameAsUninterrupted(s, d)
    ensures !HasGap(d) ==> Contributions(s, lost, |s.Plan()|) == Contributions(s, {}, |s.Plan()|)
  {
    var n := |s.Plan()|;
    GapIffLost(s, lost, n, d);
    CompleteIffNothingLost(s, lost, n);
    hide Transcript, Schedule, OutcomeFor, HasGap, RecordsTurns;
    assert |d.messages| == |Transcript(s, lost, n)|;
  }

  // ---- one worker after another -----------------------------------------------------------

  /** The turns on record after workers that may write this often, when there were `k` before. */
  function TurnsAfter(n: nat, k: nat, budgets: seq<nat>): (r: nat)
    requires k <= n
    ensures k <= r <= n
    decreases |budgets|
  {
    if budgets == [] then k else TurnsAfter(n, Turns(n, k, budgets[0]), budgets[1..])
  }

  /** The turns whose message is lost for good, because a worker died between the two writes of the turn. */
  function MessagesLost(n: nat, k: nat, budgets: seq<nat>): set<nat>
    requires k <= n
    decreases |budgets|
  {
    if budgets == [] then {}
    else
      var next := Turns(n, k, budgets[0]);
      (if DiesInsideTurn(n, k, budgets[0]) then {next - 1} else {}) + MessagesLost(n, next, budgets[1..])
  }

  /** The turns members are run for, in order: every worker goes on with the first turn that is not on record, and the
      one after these workers does not die. */
  ghost function MembersRun(n: nat, k: nat, budgets: seq<nat>): seq<nat>
    requires k <= n
    decreases |budgets|
  {
    if budgets == [] then Range(k, n)
    else Range(k, RunUpTo(n, k, budgets[0])) + MembersRun(n, Turns(n, k, budgets[0]), budgets[1..])
  }

  /** Worker `w` dies between the two writes of a turn. */
  predicate DiesInside(n: nat, k: nat, budgets: seq<nat>, w: nat)
    requires k <= n
  {
    w < |budgets| && DiesInsideTurn(n, TurnsAfter(n, k, budgets[..w]), budgets[w])
  }

  /** Nothing is lost exactly when no worker dies between the two writes of a turn. */
  lemma {:induction false} NothingLostIff(n: nat, k: nat, budgets: seq<nat>)
    requires k <= n
    ensures MessagesLost(n, k, budgets) == {} <==> forall w: nat :: !DiesInside(n, k, budgets, w)
    decreases |budgets|
  {
    hide DiesInsideTurn, Turns;
    if budgets != [] {
      var next, rest := Turns(n, k, budgets[0]), budgets[1..];
      NothingLostIff(n, next, rest);
      assert DiesInside(n, k, budgets, 0) <==> DiesInsideTurn(n, k, budgets[0]) by { assert budgets[..0] == []; }
      forall w: nat ensures DiesInside(n, k, budgets, w + 1) <==> DiesInside(n, next, rest, w) {
        if w < |rest| { assert budgets[..w + 1][0] == budgets[0] && budgets[..w + 1][1..] == rest[..w]; }
      }
      assert forall w: nat :: w > 0 && DiesInside(n, k, budgets, w) ==> DiesInside(n, next, rest, w - 1);
    }
  }

  /** A worker dies with a member run for a turn of which nothing is on record. */
  predicate DiesBeforeTurn(n: nat, k: nat, budget: nat)
    requires k <= n
  {
    RunUpTo(n, k, budget) > Turns(n, k, budget)
  }

  function RunsWasted(n: nat, k: nat, budgets: seq<nat>): nat
    requires k <= n
    decreases |budgets|
  {
    if budgets == [] then 0
    else (if DiesBeforeTurn(n, k, budgets[0]) then 1 else 0) + RunsWasted(n, Turns(n, k, budgets[0]), budgets[1..])
  }

  /** Every number is the one before or the next. */
  predicate InSteps(ran: seq<nat>) {
    forall j :: 0 < j < |ran| ==> ran[j - 1] <= ran[j] <= ran[j - 1] + 1
  }

  lemma InStepsJoined(a: seq<nat>, b: seq<nat>)
    requires InSteps(a) && InSteps(b)
    requires a != [] && b != [] ==> a[|a| - 1] <= b[0] <= a[|a| - 1] + 1
    ensures InSteps(a + b)
  {
  }

  /** Members are run in the order of the schedule, to its end. A turn on record is never run again; there is one run
      more than turns for every worker that died with its turn unrecorded. */
  lemma {:induction false} RunsInOrder(n: nat, k: nat, budgets: seq<nat>)
    requires k <= n
    ensures var ran := MembersRun(n, k, budgets);
      && |ran| == n - k + RunsWasted(n, k, budgets) && RunsWasted(n, k, budgets) <= |budgets|
      && (if ran == [] then k == n else ran[0] == k && ran[|ran| - 1] == n - 1)
      && InSteps(ran)
    decreases |budgets|
  {
    if budgets != [] {
      RunsInOrder(n, Turns(n, k, budgets[0]), budgets[1..]);
      RunsOnce(n, k, budgets[0]);
      hide Turns, RunUpTo, Range;
      var first, rest := Range(k, RunUpTo(n, k, budgets[0])), MembersRun(n, Turns(n, k, budgets[0]), budgets[1..]);
      assert MembersRun(n, k, budgets) == first + rest;
      hide MembersRun;
      InStepsJoined(first, rest);
    }
  }

  /** One worker runs a member for every turn it records, and for at most one more. */
  lemma RunsOnce(n: nat, k: nat, budget: nat)
    requires k <= n
    ensures Turns(n, k, budget) <= RunUpTo(n, k, budget) <= Turns(n, k, budget) + 1
    ensures DiesBeforeTurn(n, k, budget) ==> Turns(n, k, budget) < n
  {
  }

  /** With every turn on record there is nothing left to lose or to run. */
  lemma {:induction false} NothingLeftToRun(n: nat, budgets: seq<nat>)
    ensures MessagesLost(n, n, budgets) == {} && MembersRun(n, n, budgets) == []
  {
    if budgets != [] {
      NothingLeftToRun(n, budgets[1..]);
    }
  }

  /** The worker that gets to the end. */
  lemma {:induction false} LastWorker(n: nat, k: nat, budget: nat, budgets: seq<nat>)
    requires k <= n && budget >= WritesBeforeTurns(k > 0) + 2 * (n - k) && (budgets != [] ==> budgets[0] == budget)
    ensures RunUpTo(n, k, budget) == n && MessagesLost(n, k, budgets) == {} && MembersRun(n, k, budgets) == Range(k, n)
  {
    NothingLeftToRun(n, if budgets == [] then [] else budgets[1..]);
  }

  /** One worker after another, each allowed a number of durable writes before it dies; the last one is allowed enough.
      The final record, results and outcome are those of the run without crashes exactly when no worker dies between the
      two writes of a turn; otherwise just the messages of those turns are missing. A worker that dies anywhere else
      does no harm. */
  method RunToCompletion(s: Setup, id: string, nodeKey: string, executionId: string, budgets: seq<nat>, now: int,
                         executor: NativeTeamExecutor)
    returns (results: seq<MemberResult>, outcome: Option<TypedOutcome>)
    requires s.Valid() && executor.ledger.Valid() && id !in executor.ledger.byId && executor.ran == []
    modifies executor`ran, executor.ledger
    ensures executor.ledger.byId - {id} == old(executor.ledger.byId) - {id} && id in executor.ledger.byId
    ensures SameAsUninterrupted(s, executor.ledger.byId[id]) <==> forall w: nat ::
      !DiesInside(|s.Plan()|, 0, budgets, w)
    ensures HasGap(executor.ledger.byId[id]) <==> exists w: nat :: DiesInside(|s.Plan()|, 0, budgets, w)
    ensures Concluded(s, MessagesLost(|s.Plan()|, 0, budgets), executor.ledger.byId[id])
    ensures ContributionsOf(results) == Contributions(s, MessagesLost(|s.Plan()|, 0, budgets), |s.Plan()|)
    ensures outcome == OutcomeFor(s.team.protocol, ContributionsOf(results))
    ensures executor.ran == MembersRun(|s.Plan()|, 0, budgets)
  {
    hide Concluded, Records, Schedule, Contributions, ContributionsOf, OutcomeFor, Setup.Valid, HasGap,
         SameAsUninterrupted, Turns, RunUpTo, DiesInsideTurn, DiesInside, Range;
    var ledger := executor.ledger;
    ghost var known := UnderWay({}, 0);
    ghost var n := |s.Plan()|;
    var worker := 0;
    assert budgets[0..] == budgets;
    while true
      invariant worker <= |budgets|
      invariant ledger.Valid() && ledger.byId - {id} == old(ledger.byId) - {id}
      invariant known.UnderWay? && known.k <= n && Holds(s, known, ledger.Stored(id))
      invariant known.lost + MessagesLost(n, known.k, budgets[worker..]) == MessagesLost(n, 0, budgets)
      invariant executor.ran + MembersRun(n, known.k, budgets[worker..]) == MembersRun(n, 0, budgets)
      decreases |budgets| - worker
    {
      var budget := if worker < |budgets| then budgets[worker] else 2 * |s.Plan()| + 4;
      ghost var rest := budgets[worker..];
      assert rest != [] ==> rest[0] == budget && rest[1..] == budgets[worker + 1..];
      var r;
      ghost var after, reached;
      r, after, reached := executor.Invoke(s, id, nodeKey, executionId, budget, now, known);
      if r.Finished? {
        LastWorker(n, known.k, budget, rest);
        GapIffLost(s, known.lost, n, ledger.byId[id]) by { ConcludedRecords(s, known.lost, ledger.byId[id]); }
        GapFreeIffUninterrupted(s, known.lost, ledger.byId[id]);
        NothingLostIff(n, 0, budgets);
        return r.results, r.outcome;
      }
      known := after;
      worker := worker + 1;
    }
  }

  lemma ConcludedRecords(s: Setup, lost: set<nat>, d: DurableInteraction)
    requires Concluded(s, lost, d)
    ensures Records(s, lost, |s.Plan()|, d)
  {
  }
}
