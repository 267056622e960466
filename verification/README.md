# HydraMind control plane: a verified model

HydraMind runs workflows of agents. Its control plane keeps one durable record per session and lets workers crash and be
replaced; its native team scheduler lets the members of a team take turns and resumes an interrupted team from the
durable record. This project models both in Dafny, together with the algorithms they lean on, and proves what they keep.

`dafny verify dfyconfig.toml` checks everything.

## How the pieces fit

- **Teams.** `Teams`, `Scheduler`, `TeamRuntime` and `DurableInteractions` model protocols, the six scheduling
  strategies, the ephemeral runtime and the durable interaction; `ProtocolRules` says what mode and topology mean for
  turns and messages. `TeamRuns` says what a run is meant to produce as a function of the team and its members'
  behaviour; `TeamRecording`, `TeamExecutor` and `CrashResume` prove that workers dying at any durable write still
  produce it, and exactly when they do not. `Redeliveries` is about duplicate delivery, `Independence` compares pairs of
  runs.
- **Votes.** `VoteOutcomes` and `VoteTally`.
- **Leases.** `Leases` is the protocol of one slot over time. `TurnLeases` and `InteractionLedgers` apply it to durable
  turns, `ExecutionLeases` to node attempts.
- **Sessions.** `States` and `Sessions` hold the transition tables and what each service operation does to a session;
  `SessionServices` performs the operations step by step; `SessionRuns` proves what every sequence of them keeps, and
  `CallEffects` when single calls are refused and what they leave alone.
- **Control plane.** `ControlSteps` and `ControlKeeps` treat the composite chains of calls, with what they have stored
  when they stop at an error, `ControlPlanes` makes the calls, `Driver` runs the orchestrator loop against an environment
  that may do anything, and `PassOutcomes` says what every pass of it comes to.
- **Graphs.** `Graphs` (breadth-first closure), `Revisions` (live revision), `UpstreamContexts` (depth-first walk),
  `WorkflowGraphs` and `TopologicalSorts` (scheduling order).
- **Store, tools, memory.** `SessionStores` and `InteractionKeys` (versioned puts by many workers, budget and ledger),
  `ToolEffects` (two-level effect cache), `ToolNames`, `MemoryStores` and `MemoryAuthorities`.

A session is a value: the store of the original copies a session in and out, so a service call that raises leaves
nothing behind. Classes stand where the original keeps and changes state: the ledger of interactions, the runtime, the
executor, the session service, the control plane, the stores, the tool loop, the write authority. Clocks are integers,
identifiers and tokens are parameters, and the answers of agents, models, tools, gates and humans are parameters too, so
every statement holds for all of them. A worker dies by running out of a budget of durable writes (teams), while a node
runs (sessions), or between a tool run and its record (tools).

## What the code does that its documentation does not say

- The turn write and the message write of the executor are two steps. A crash between them keeps the order of turns but
  loses the content for good; `CrashResume` proves that this is the only way to lose anything, and that the record shows it.
- Recording completion trusts the ready list alone. A node left running by a worker without a lease, or with a lease
  that has not run out, does not hold it back (`Driver.CompletionSound`), nor does a waiting or failed node whose session
  write was lost (`Driver.TornPauseIsMissed`, `Driver.TornFailIsMissed`). `Driver.CompletionExact` says when it is sound.
- The dedupe scan of the memory authority is documented to look under one key; it looks at every key that starts with it
  (`MemoryAuthorities.DropsOnlyOwn`, `MemoryAuthorities.KeysApart`).
- A lease token is stored as given and compared with the stripped one that is presented (`Leases.OwnTokenReleasable`).
- A rejected gate fails the node and leaves its attempt running; an approval replaces the attempt's output by an empty
  one (`ControlSteps.DecisionLeaves`).
- The version the memory authority stamps counts the writes of one authority object; it starts over in a new one.

## Model

| member | source | states |
|---|---|---|
| `Scheduler.NextTurnFollowsSchedule` | src/hydramind/kernel/scheduler.py:42-205 | For all six strategies of a valid team: when the first k entries of the declared schedule have acted, the next turn is entry k under index k, and there is none exactly when the schedule is used up. |
| `Scheduler.ScheduleExact` | src/hydramind/kernel/scheduler.py:42-246 | From an empty interaction every strategy stops after exactly n turns (rounds × n in a debate), turn k carrying index k, the agents being the declared schedule; a larger step budget changes nothing. |
| `Scheduler.EveryoneActsOnce` | src/hydramind/kernel/scheduler.py:56-205 | Outside debates the schedule names every member exactly once and nobody else. |
| `ProtocolRules.ExecutedExactly` | src/hydramind/kernel/scheduler.py:208-236 | A protocol is executed if and only if it is a team of any topology, a debate or vote by broadcast, or a delegation with a coordinator; any other is refused. |
| `ProtocolRules.PlanByProtocol` | src/hydramind/kernel/scheduler.py:56-205 | In terms of mode and topology: member order for votes, broadcasts and pipelines, the coordinator moved last, the delegator moved first, and in a debate the members in turn for the declared rounds, two by default. |
| `ProtocolRules.TurnsByProtocol` | src/hydramind/kernel/scheduler.py:42-246 | Stepping a valid team from nothing takes exactly those turns, numbered from 0, as many as there are members, in a debate that many per round. |
| `ProtocolRules.ReadByProtocol` | src/hydramind/kernel/scheduler.py:56-205 | Voters, members of a broadcast, workers of a coordinator and a delegator read nothing of the others; everybody else reads every message so far. |
| `ProtocolRules.RunByProtocol` | src/hydramind/orchestration/collaboration_team.py:133-240 | The run, turn by turn: the member answers to just those messages, with its content or, if that is blank, its summary, and this is what is on record unless it was lost. |
| `TeamRuntime.SeedFromDurable` | src/hydramind/orchestration/collaboration_runtime.py:68-128 | The reconstruction loop yields the turns and messages of the completed durable turns in index order, and is refused exactly when a completed turn names a stranger. |
| `TeamRuns.SeedIsKernel` | src/hydramind/orchestration/collaboration_runtime.py:68-128 | Whatever the order in which turns were recorded and whichever turns are only leased, the interaction rebuilt from a durable record of k turns is the interaction of the run itself after k turns. |
| `TeamRuns.KernelNextTurn` | src/hydramind/orchestration/collaboration_runtime.py:142-169 | Asked about the run after k turns, the scheduler gives turn k of the schedule, or nothing at its end. |
| `TeamRuns.TeamTypedOutcome` | src/hydramind/orchestration/collaboration_interaction.py:191-225 | The typed outcome is the vote outcome over what all members said, or the coordinator's own contribution, or nothing, as the aggregation asks; restored results count like fresh ones. |
| `ProtocolRules.VoteByProtocol` | src/hydramind/orchestration/collaboration_interaction.py:191-210 | A vote team is decided by majority over one vote per member, in member order, which is what the member said. |
| `ProtocolRules.SummaryByProtocol` | src/hydramind/orchestration/collaboration_interaction.py:211-225 | A team or delegation that asks for a summary gets what its coordinator said, in the last turn or in the first; one that only collects has no typed outcome. |
| `TeamRuns.CompleteIffNothingLost` | src/hydramind/orchestration/collaboration_team.py:209-221 | With the messages of some turns lost between their two writes, the recorded transcript is the full one if and only if none was lost. |
| `TeamRuns.LaterLossIrrelevant` | src/hydramind/orchestration/collaboration_team.py:209-221 | Losing the message of a later turn changes nothing said or recorded before it. |
| `TeamRecording.TurnWritten` | src/hydramind/control/session_durable_interactions.py:99-140 | The turn write alone moves the record of a run from k to k + 1 turns with the message of turn k missing, also when a lease had already made turn k a pending one. |
| `TeamRecording.TurnAndMessageWritten` | src/hydramind/control/session_durable_interactions.py:99-181 | Both writes together record turn k in full. |
| `TeamRecording.ReplayChangesNothing` | src/hydramind/control/session_durable_interactions.py:99-181 | Once a complete run is on record, recording any of its turns and messages again leaves the record exactly as it is. |
| `TeamRecording.GrantKeepsRecord` | src/hydramind/control/interaction_turn_lease.py:87-163 | Leasing a turn to the scheduled agent keeps the record of the run. |
| `TeamRecording.RecoveryKeepsRecord` | src/hydramind/control/interaction_turn_lease.py:266-329 | Recovering expired turn leases keeps the record of the run, and the resume point it stamps is the index the scheduler gives the next turn of the rebuilt interaction. |
| `TeamExecutor.PriorResults` | src/hydramind/orchestration/collaboration_team.py:315-341 | The results of completed turns are read back in index order, each with the last content recorded for its turn. |
| `TeamExecutor.TurnUsesUp` | src/hydramind/orchestration/collaboration_team.py:120-240 | Every scheduled turn uses up part of a bound on the turns still to come, so the executor loop ends for every strategy, also on an arbitrary durable state. |
| `TeamExecutor.MemoryAdvances` | src/hydramind/orchestration/collaboration_runtime.py:171-198 | Recording the message of the member that acted turns what the worker holds in memory, the run after k turns, into the run after k + 1. |
| `TeamExecutor.NativeTeamExecutor.Prepare` | src/hydramind/orchestration/collaboration_team.py:92-109 | A resumable interaction is rebuilt and its results restored, anything else starts empty: on the record of a run it resumes if and only if a turn is on record, and what is rebuilt is the state of the run itself. |
| `TeamExecutor.NativeTeamExecutor.TakeTurn` | src/hydramind/orchestration/collaboration_team.py:134-240 | One scheduled turn: the member is run once, then turn and message are written. A worker with no write left leaves the record as it was, one with a single write leaves just the message missing, and any other gets memory and record to the next turn of the run. |
| `TeamExecutor.NativeTeamExecutor.Drive` | src/hydramind/orchestration/collaboration_team.py:133-241 | The loop runs the members of turns k..n-1 in order. It is cut short exactly when there are fewer than two writes for every turn left, in the turn the number of writes says; its message is lost exactly when that number is odd. |
| `TeamExecutor.NativeTeamExecutor.Conclude` | src/hydramind/orchestration/collaboration_team.py:242-300 | The outcome is recorded and the interaction closed; a concluded interaction is left as it is. |
| `TeamExecutor.NativeTeamExecutor.Invoke` | src/hydramind/orchestration/collaboration_team.py:70-300 | One worker started on a record of k turns: how often it may write decides how many turns are on record when it is gone, whether a message is missing, and which members it has run. It finishes if and only if that covers all writes that are due, and then with the full record, contributions and outcome of the run. |
| `CrashResume.GapIffLost` | src/hydramind/orchestration/collaboration_team.py:209-221 | The durable record itself tells whether anything was lost: some completed turn has no message if and only if a message was lost. |
| `CrashResume.GapFreeIffUninterrupted` | src/hydramind/orchestration/collaboration_team.py:70-300 | A finished node has the transcript and outcome of the uninterrupted run if and only if its record has no completed turn without a message. |
| `CrashResume.RunToCompletion` | src/hydramind/orchestration/collaboration_team.py:70-341 | Any number of workers, each dying after a given number of durable writes, then one that survives: the final transcript and outcome are those of the run without crashes if and only if no worker dies between the two writes of a turn, which the numbers decide; otherwise the record is the run with the messages of just those turns missing. The members run, in order, are those the numbers say. |
| `CrashResume.NothingLostIff` | src/hydramind/orchestration/collaboration_team.py:209-221 | No message is lost if and only if no worker dies between the two writes of a turn. |
| `CrashResume.RunsInOrder` | src/hydramind/orchestration/collaboration_team.py:70-341 | Members are run in schedule order, from the first turn not on record to the last, with exactly one run more than turns for each worker that died with its turn unrecorded. |
| `Independence.IsolatedIndependent` | src/hydramind/kernel/scheduler.py:56-205 | A member that by mode and topology hears nobody (a voter, a broadcast member, a worker of a coordinator, a delegator) says the same in any two runs in which it behaves alike, whatever the others do and whatever a crash lost. |
| `Independence.OnlyThePastMatters` | src/hydramind/kernel/scheduler.py:71-205 | What turn k says depends only on the members of turns up to k; in a pipeline, member k only on members up to k. |
| `Independence.VoteIndependent` | src/hydramind/orchestration/collaboration_interaction.py:228-243 | In a vote team, replacing the behaviour of every other voter leaves a voter's vote record as it is. |
| `Independence.OthersDepend` | src/hydramind/kernel/scheduler.py:71-205 | For every other scheduled turn but the first there are two behaviours of the rest of the team that make it say something different, so the list of independent members is complete. |
| `VoteOutcomes.CanonicalMeaning` | src/hydramind/mas/protocol_outcomes.py:42-55 | For every lower-casing: the canonical vote is the text without surrounding white space and punctuation, in lower case, inner white space collapsed. |
| `VoteOutcomes.SurroundingsIgnored` | src/hydramind/mas/protocol_outcomes.py:42-55 | For every lower-casing: white space and listed punctuation around a vote never change its canonical form. |
| `VoteOutcomes.CanonicalIdempotent` | src/hydramind/mas/protocol_outcomes.py:42-55 | For every lower-casing: canonicalising a canonical vote changes nothing. |
| `VoteOutcomes.CaseIgnored` | src/hydramind/mas/protocol_outcomes.py:42-55 | For every lower-casing: letter case never changes a vote. |
| `VoteOutcomes.AsciiLowerCases` | src/hydramind/mas/protocol_outcomes.py:42-55 | The lower-casing the tally is modelled with is one of those. |
| `VoteOutcomes.CollapseExactly` | src/hydramind/mas/protocol_outcomes.py:42-55 | Every run of white space becomes one blank, and everything else stays. |
| `VoteOutcomes.OneWordVote` | src/hydramind/mas/protocol_outcomes.py:42-55 | A word with white space and any of the listed punctuation around it, in capitals or not, is the word in small letters. |
| `VoteTally.MemberVoteExact` | src/hydramind/mas/protocol_outcomes.py:190-216 | A vote is valid if and only if it means one of the declared options or, without any, says something; agent and wording are kept. |
| `VoteTally.BuildVoteOutcome` | src/hydramind/mas/protocol_outcomes.py:136-187 | The counting loop and the sort of the top options compute the outcome that depends on the ballot alone. |
| `VoteTally.TallyExact` | src/hydramind/mas/protocol_outcomes.py:136-187 | The tally has exactly the options some valid vote means, each with the number of valid votes that mean it; the invalid votes are those that are not valid; without majority arbitration nobody wins. |
| `VoteTally.EveryVoteCounted` | src/hydramind/mas/protocol_outcomes.py:136-187 | The counts of the tally and the invalid votes add up to the number of votes. |
| `VoteTally.WinnerIsFirstOfTop` | src/hydramind/mas/protocol_outcomes.py:136-187 | The majority winner has the greatest count and comes first alphabetically among those that have it; there is none exactly when no vote is valid. |
| `VoteTally.TieIffShared` | src/hydramind/mas/protocol_outcomes.py:136-187 | A tie is reported if and only if two options share the greatest count, and then lists exactly those that do, in ascending order. |
| `VoteTally.OrderOfVotersIrrelevant` | src/hydramind/mas/protocol_outcomes.py:136-187 | Permuting the voters changes neither tally nor winner nor tie. |
| `InteractionLedgers.InteractionLedger.RecoverExpired` | src/hydramind/control/interaction_turn_lease.py:280-329 | Recovers every interaction on the session; the report lists exactly the turns whose leases were taken, with their owners and the resume point. |
| `InteractionLedgers.ReportExact` | src/hydramind/control/interaction_turn_lease.py:280-329 | The report has one entry for every overdue turn, in recorded order: whose lease it was, until when, and where the interaction goes on. |
| `Redeliveries.WritesExactly` | src/hydramind/control/session_durable_interactions.py:99-210 | A turn, message or outcome is one more write of the interaction if and only if its event is not on record yet; otherwise the interaction stays exactly as it is. |
| `Redeliveries.WrittenExactly` | src/hydramind/control/session_durable_interactions.py:99-210 | What is written: a completed turn for the agent that took it, or the completion of the leased one, whose agent and lease stay; the message behind all others; the outcome; and nothing else. |
| `Redeliveries.RecordingsAccumulate` | src/hydramind/control/session_durable_interactions.py:99-210 | Over any recordings messages and the outcome stay as first recorded, completed turns down to their time, and every index is recorded at most once. |
| `Redeliveries.RedeliveryChangesNothing` | src/hydramind/control/session_durable_interactions.py:99-210 | Delivering any of the recorded events again, in any order, any number of times and with whatever contents, leaves the interaction exactly as it is. |
| `Redeliveries.ResumableExact` | src/hydramind/control/session_service.py:689-716 | Worth resuming is exactly an interaction that is under way and has a completed turn. |
| `TurnLeases.LowestIncomplete` | src/hydramind/control/interaction_turn_lease.py:266-277 | Counting up through the completed indices ends (pigeonhole) at the least index not completed. |
| `TurnLeases.RecoveryExact` | src/hydramind/control/interaction_turn_lease.py:280-329 | Precisely the incomplete turns with a lease that is not in force become pending without one, each of them one write; everything else stays but the stamp, which is the least index not completed. |
| `TurnLeases.RecoveryIdempotent` | src/hydramind/control/interaction_turn_lease.py:280-329 | Recovering again at the same time changes nothing. |
| `TurnLeases.TurnHoldingExact` | src/hydramind/control/interaction_turn_lease.py:122-251 | On a recorded turn: exactly when a grant, a heartbeat and a release are accepted, in terms of status, expiry, token and time, and that nothing but that turn changes then. |
| `TurnLeases.NewTurnExact` | src/hydramind/control/interaction_turn_lease.py:122-251 | On a turn not recorded a heartbeat and a release are refused, and a proper grant records it as pending for its agent. |
| `TurnLeases.TurnLeaseExclusive` | src/hydramind/control/interaction_turn_lease.py:122-251 | Two grants of one turn over any run of operations: the first lease was given up in between, and from the second grant on its token can neither extend nor release nor complete. |
| `TurnLeases.TurnReleasedAsCompletedOnce` | src/hydramind/control/interaction_turn_lease.py:227-251 | A turn is completed through a lease release at most once. |
| `Leases.LeaseExclusive` | src/hydramind/control/session_execution.py:106-199 | The protocol both lease modules follow, over any run in which no two grants hand out the same token: of two grants on one slot the first lease was released by its holder, had passed its last expiry, or was closed or cleared before; the first token is refused for good. |
| `Leases.HeldUntilExpiry` | src/hydramind/control/session_execution.py:106-232 | Until its expiry a lease shuts out every other grant, whatever else happens, as long as its holder does not release it and the work is not closed. |
| `Leases.GrantedUntil` | src/hydramind/control/session_execution.py:106-199 | A lease shuts every request out exactly until the expiry set by the grant or by a later heartbeat; from that moment on every proper request is served. |
| `Leases.GrantExact` | src/hydramind/control/session_execution.py:106-139 | Open work is leased by a proper request exactly while no lease is in force; token, owner and expiry are those of the request. |
| `Leases.HeartbeatExact` | src/hydramind/control/session_execution.py:142-178 | A heartbeat is accepted exactly from the holder of a lease in force on open work, for a positive time; it moves the expiry to then and nothing else. |
| `Leases.ReleaseExact` | src/hydramind/control/session_execution.py:180-199 | A release is accepted exactly from the holder of a lease on open work, its time up or not, and clears the lease. |
| `Leases.NoRevival` | src/hydramind/control/session_execution.py:106-232 | Over any run: once its time is up a lease is never in force again before another accepted grant. |
| `Leases.OwnTokenReleasable` | src/hydramind/control/session_execution.py:128-150 | A holder can give its lease back with its own token if and only if the token has no surrounding white space: it is stored as given but compared with the stripped one. |
| `SessionRuns.CallKeeps` | src/hydramind/control/session_service.py:138-1169 | Every call, with any arguments, keeps a session sound (keys unique; attempts numbered 1, 2, ... ; finished_at set exactly on finished attempts; lease fields all or none and only on running attempts) and only lets it evolve (attempts and gates accumulate, finished attempts are frozen, failed nodes and ended sessions keep their status). |
| `SessionRuns.RunKeeps` | src/hydramind/control/session_service.py:112-1169 | The same between any two points of any run of calls, failing ones included. |
| `CallEffects.StatusesFollowTables` | src/hydramind/control/states.py:67-129 | No call, with whatever arguments, moves a session or a node off its table, also where it makes two moves at once; new nodes are queued. |
| `CallEffects.MovingExact` | src/hydramind/control/states.py:67-129 | By where the move leads: from which statuses a node or session may get there; nothing else changes, except that the end of a session takes the leases away. |
| `CallEffects.AddingExact` | src/hydramind/control/session_lifecycle.py:61-74 | Nodes can be added exactly when the session has none of the keys; then every key has one node, a fresh one, and the nodes there were stay as they are. |
| `ExecutionLeases.RunIsLeaseRun` | src/hydramind/control/session_execution.py:106-253 | Seen from one attempt, any run of session calls is a run of the lease protocol: grants, heartbeats, releases, recoveries, ends of the attempt and of the session. |
| `ExecutionLeases.ExecutionLeaseExclusive` | src/hydramind/control/session_execution.py:106-199 | Two successful grants on one attempt over any run of calls: the first lease was given up in between, and from the second grant on every call presenting the first token raises. |
| `SessionServices.SessionService.TransitionSession` | src/hydramind/control/session_lifecycle.py:77-91 | Moves along the session table or raises and stores nothing; the end of a session clears the lease of every attempt. |
| `SessionServices.SessionService.RecoverExpiredNodeExecutions` | src/hydramind/control/session_node_lifecycle.py:101-135 | Aborts exactly the running executions with a lease that is no longer live and queues their nodes; reports whether there was one. |
| `CallEffects.RecoveringExact` | src/hydramind/control/session_node_lifecycle.py:101-135 | In terms of status and expiry: which executions are aborted, with which reason, and that every other node stays as it is. |
| `CallEffects.CompletingExact` | src/hydramind/control/session_service.py:233-258 | A node can be completed exactly while it runs or is approved; then just its latest attempt, if still running, has ended with the given output and without a lease, and nothing else has changed. |
| `CallEffects.FailingExact` | src/hydramind/control/session_service.py:260-285 | It can be failed exactly while it runs, waits for a decision or needs a revision. |
| `CallEffects.RequeueingExact` | src/hydramind/control/session_node_lifecycle.py:78-98 | It can be requeued exactly unless it is approved, completed or failed; a running attempt is aborted. |
| `CallEffects.GrantingExact` | src/hydramind/control/session_execution.py:106-139 | An execution can be leased exactly while it runs without a live lease, for its own node and by a proper request; the lease is live until exactly its expiry, and no other attempt changes. |
| `CallEffects.HoldingExact` | src/hydramind/control/session_execution.py:142-199 | Exactly when a heartbeat and a release of an execution lease are accepted, and that nothing but that lease changes then; of an unknown execution both are refused. |
| `CallEffects.DecidingExact` | src/hydramind/control/session_gates.py:53-73 | A decision is accepted exactly when the status it stands for is a move of the gate's node; it is written to that gate alone, and the attempts stay. |
| `CallEffects.ConsumingExact` | src/hydramind/control/session_service.py:1148-1169 | A report goes to the first attempt with the named id if that is running, or without a name to the latest if that is running, or to a new one; its outputs win key by key, a blank error says nothing, and no other attempt changes. |
| `CallEffects.GrowingExact` | src/hydramind/control/session_service.py:335-372 | Starting an attempt adds the next one, running and blank, to its node; recording a gate adds that gate; nothing else changes. |
| `ControlSteps.EndingIntents` | src/hydramind/control/control_apply.py:60-114 | On an open execution of a running session the complete, requeue and fail chains all go through and change that node only. |
| `ControlSteps.PauseIntent` | src/hydramind/control/control_apply.py:36-59 | The pause chain goes through: the gate is recorded, the lease given back, node and session wait, and the open attempt holds no lease. |
| `ControlSteps.IntentLeaves` | src/hydramind/control/control_apply.py:24-116 | Every intent on the node a worker executes goes through: the open attempt succeeds with the given output, or fails or is aborted with the given reason (or the default one), or stays open without a lease behind the new gate; node and session status match, and all other nodes stay but for the leases the end of a session takes. |
| `ControlSteps.ReportLeaves` | src/hydramind/control/control_reports.py:74-169 | A report on the execution a worker holds is refused exactly when the worker's lease is no longer live, and then stores nothing; otherwise, whatever it says and whatever gate and deriver answer, the chain goes through without an illegal move: an error fails the node, a gate that asks for a decision makes it wait, a blocking one fails it, and only otherwise the deriver's intent is done to it. |
| `ControlSteps.StrangerRefused` | src/hydramind/control/control_reports.py:171-193 | On a node whose latest attempt carries a lease, a report that does not name that attempt and present the token of a lease in force is refused, whoever sends it, and nothing is stored. |
| `ControlSteps.NoWorkTaken` | src/hydramind/control/control_reports.py:74-100 | A session that waits or is over takes no report and no execution, nor does any session for a node it does not have. |
| `ControlSteps.CompletionTaken` | src/hydramind/control/control_plane.py:499-525 | Completion can be recorded exactly of a running or resuming session; it takes all execution leases away and changes nothing else. |
| `ControlSteps.OnlyRecordingCompletes` | src/hydramind/control/control_plane.py:505-511 | Nothing else ever completes a session: no intent, report, gate decision or new execution, from whatever state and however many nodes are completed. |
| `ControlSteps.DecisionLeaves` | src/hydramind/control/control_gate_decisions.py:25-62 | Any decision on a gate of the waiting node goes through and is written to that gate alone: approval completes it with an empty output, a revision aborts the attempt with a reason naming the gate and queues it, a rejection fails node and session and leaves the attempt running; all other nodes stay. |
| `ControlSteps.OtherDecision` | src/hydramind/control/control_gate_decisions.py:25-33 | A decision on a gate of any other node is an illegal transition and stores nothing, unless it rejects a gate of an execution that is still open. |
| `ControlSteps.OpensExecution` | src/hydramind/control/control_plane.py:86-113 | Opening a queued node starts session and node and adds one running attempt under the fresh id. |
| `ControlKeeps.ReportKept` | src/hydramind/control/control_reports.py:74-169 | So wherever a report stops. |
| `ControlKeeps.IntentKept` | src/hydramind/control/control_apply.py:24-116 | Wherever an apply intent stops, at its end or at an error, and from any state: what is stored by then is sound and has only evolved. |
| `ControlKeeps.DecisionKept` | src/hydramind/control/control_gate_decisions.py:25-33 | So wherever a gate decision stops. |
| `ControlPlanes.ControlPlane.ApplyNodeIntent` | src/hydramind/control/control_apply.py:24-116 | The calls made one after another store exactly what the chain has stored when it ends or stops, and return its error. |
| `ControlPlanes.ControlPlane.OpenRuntimeDecision` | src/hydramind/control/control_reports.py:74-169 | The same for a report. |
| `ControlPlanes.ControlPlane.ApplyDecision` | src/hydramind/control/control_gate_decisions.py:25-33 | The same for a gate decision. |
| `ControlPlanes.ControlPlane.RecordSessionComplete` | src/hydramind/control/control_plane.py:499-525 | The same for recording completion. |
| `ControlPlanes.OrchestratorAgent.RunSession` | src/hydramind/orchestration/agent.py:211-347 | The orchestrator loop is a run of the step model: the session is the one the passes lead to, every pass did what `PassOutcomes.PassDid` says, what it raised is what the last pass raised (or that the passes are used up), and it never raises an illegal transition. |
| `Driver.StepSafe` | src/hydramind/orchestration/agent.py:211-358 | No pass of the loop, no decision on the waiting node and no cancellation is an illegal transition, and each leaves the session in order. |
| `Driver.RunSafe` | src/hydramind/orchestration/agent.py:211-358 | From a new session of a non-empty workflow, over every run with workers dying or losing their leases: never an illegal transition; a running session has only settled nodes and nodes left open by a lost worker; a waiting one has exactly one pending node, its latest attempt the only running one and without a lease. |
| `Driver.QuietRunRests` | src/hydramind/orchestration/agent.py:211-358 | If no worker dies and nothing raises, a running session has no node and no attempt running between steps, and a waiting one none but the waiting node's. |
| `PassOutcomes.IterateDid` | src/hydramind/orchestration/agent.py:211-358 | What one pass comes to, said without following the loop: expired executions are recovered, the first node in order that can run is run, or, if there is none, completion is recorded. Of the node run, a reported error fails it with exactly that error; otherwise the gate decides if it asks for a decision or blocks; otherwise what the deriver asked for is done, with the reported output. A worker that dies, or whose lease, extended by the heartbeats that came in time, is not in force when it reports, leaves just the open execution. |
| `PassOutcomes.RunDid` | src/hydramind/orchestration/agent.py:211-358 | Over every run from a new session every pass, decision and cancellation does what it is meant to do. |
| `Driver.CompletionExact` | src/hydramind/orchestration/agent.py:258-278 | Whatever state a running session is in: when nothing is ready, completion is recorded, and all nodes of the workflow are completed if and only if each of them is there and, after recovery, queued or completed. |
| `Driver.CompletionSound` | src/hydramind/orchestration/agent.py:258-278 | Between steps this is so if and only if no node is stranded, that is, left running by a worker that died without a lease or whose lease has yet to run out. |
| `Driver.EmptyWorkflowRefused` | src/hydramind/control/control_plane.py:499-525 | The loop over an empty workflow asks for an illegal transition. |
| `Driver.TornPauseIsMissed` | src/hydramind/control/control_apply.py:36-52 | A worker dying between the node and the session write of the pause chain leaves a session that the next pass with nothing ready records as completed, with the gate undecided. |
| `Driver.TornFailIsMissed` | src/hydramind/control/control_apply.py:60-66 | The same between the node and the session write of the fail chain: the session is recorded as completed, with the node failed. |
| `WorkflowGraphs.NothingReady` | src/hydramind/orchestration/graph.py:27-43 | If no node is ready and every node of the workflow is queued or completed, all of them are completed. |
| `WorkflowGraphs.ReadyExactly` | src/hydramind/orchestration/graph.py:27-43 | Ready are exactly the nodes of the order that are queued and have everything they require completed, the first of them in front. |
| `TopologicalSorts.TopologicalOrder` | src/hydramind/orchestration/graph.py:46-86 | The in-degree algorithm succeeds if and only if requirements are known, keys unique and no node depends on itself; its order respects all requirements and always takes the first declared node that could come next. |
| `TopologicalSorts.StuckOnCycle` | src/hydramind/orchestration/graph.py:81-85 | Among nodes that all wait for one another some lie on a dependency cycle. |
| `Graphs.DescendantKeys` | src/hydramind/control/session_workflow.py:129-148 | The breadth-first closure ends on every finite graph and returns exactly the keys reachable from the roots over at least one edge. |
| `Revisions.ApplyRevision` | src/hydramind/control/session_workflow.py:29-108 | The three passes amount to the intended result: requeued, stale, added and untouched nodes, each with its attempts and gates; an illegal transition is raised exactly for a touched node in one of the listed active or failed statuses. |
| `Revisions.RevisionExact` | src/hydramind/control/session_workflow.py:29-108 | In terms of paths: kept nodes listed as changed, or reachable from a changed or removed one, end pending or queued; added ones queued, removed ones stale; any other node is exactly the node it was, and nothing but status changes. It is refused exactly for an invalid revision, and when one of the nodes to be touched is running or failed, or pending but to be removed. |
| `Revisions.RequeuedForRevision` | src/hydramind/control/session_workflow.py:172-195 | Requeueing is refused exactly for running and failed nodes, leaves a pending gate alone, and otherwise ends in the queue. |
| `Revisions.StaledForRevision` | src/hydramind/control/session_workflow.py:151-169 | Removal is refused exactly for running, pending and failed nodes. |
| `Revisions.CompletedAfter` | src/hydramind/control/session_workflow.py:29-108 | The completed nodes after a revision are exactly the completed nodes it did not touch. |
| `Revisions.ClosureKept` | src/hydramind/control/session_workflow.py:29-108 | If every completed node had all its requirements completed, that still holds for the revised workflow, provided kept nodes that are not requeued need nothing they did not already depend on. |
| `Revisions.ListingChangesCovers` | src/hydramind/control/session_workflow.py:52-58 | Listing every kept node whose requirements changed is enough for that proviso. |
| `Revisions.ProvisoNeeded` | src/hydramind/control/session_workflow.py:52-58 | For every revision that breaks the proviso there is a session, closed before it, that is not closed after it. |
| `UpstreamContexts.UpstreamOrder` | src/hydramind/orchestration/agent_context.py:112-128 | The depth-first walk lists exactly the proper ancestors of a node, each once, on every graph; every key stands behind all its requirements if and only if no ancestor lies on a cycle. |
| `UpstreamContexts.UpstreamContext` | src/hydramind/orchestration/agent_context.py:112-137 | Refused exactly for a node the blueprint does not have; otherwise one entry per ancestor with the status of the session's node and the output of its latest attempt, each behind its own requirements where there is no cycle. |
| `SessionStores.SessionStore.Put` | src/hydramind/control/store.py:34-182 | A put succeeds exactly when the version matches; then the stored and the caller's version both go up by one, otherwise nothing changes. |
| `SessionStores.NoLostUpdates` | src/hydramind/control/store.py:28-182 | Over every interleaving of fetches, changes and puts of any number of workers, several puts on one copy included, the successful puts have versions 1, 2, 3, ... and each was computed from exactly the state committed just before. |
| `SessionStores.Interleave` | src/hydramind/control/store.py:28-182 | The store and any number of workers with copies of their own go through any interleaving exactly as the model of it says, so what is proved of interleavings holds of the store. |
| `SessionStores.StoredIsFold` | src/hydramind/control/store.py:28-182 | The stored session is the left fold of the successful changes over the session as created. |
| `SessionStores.ExactlyOnce` | src/hydramind/control/session_service.py:1004-1071 | Over every interleaving the successful reservations are as many as the stored counter says and at most the common limit, no key is claimed or recorded twice, and the interaction log holds at most one record per logical event. |
| `SessionStores.ChangesExactly` | src/hydramind/control/session_service.py:478-1071 | In every interleaving a change finds nothing to do exactly if the limit is reached in the worker's copy, or the key is in the ledger of the copy; otherwise it does just what it is for. |
| `SessionStores.UndisturbedCommits` | src/hydramind/control/store.py:28-182 | What a worker does between fetching and putting is committed whenever nobody else has put in between, whatever the others fetch and change meanwhile. |
| `SessionStores.SessionStore.ReserveAutoRepairAttempt` | src/hydramind/control/session_service.py:1004-1029 | Undisturbed, a reservation succeeds if and only if the counter is below the limit, and then just adds one. |
| `SessionStores.SessionStore.ClaimIdempotencyKey` | src/hydramind/control/session_service.py:1039-1071 | Undisturbed, a claim is refused for an empty key, answers whether the key was free, and then takes just that key. |
| `SessionStores.SessionStore.RecordInteractionEvent` | src/hydramind/control/session_service.py:478-510 | Undisturbed, the record is appended and its key taken unless the event is on record. |
| `InteractionKeys.KeyIdentifies` | src/hydramind/control/session_interactions.py:13-29 | Equal keys mean the same logical event, as long as interaction, kind and execution contain no separator. |
| `InteractionKeys.CollideIff` | src/hydramind/control/session_interactions.py:13-29 | Without that proviso: for one interaction and kind, different events of two executions share a key if and only if one execution id goes on, behind the other, with what could be a turn. |
| `InteractionKeys.InteractionsCollide` | src/hydramind/control/session_interactions.py:13-29 | An interaction id that ends with a separator and a kind gets into the way of the id without them, for every kind, execution, turn and actor. |
| `ToolEffects.AgentToolLoop.ExecuteCall` | src/hydramind/orchestration/agent_tools.py:191-276 | Local cache, durable ledger and tool together answer a call, and leave the ledger, as the ledger alone would; the cache keeps agreeing with the ledger. |
| `ToolEffects.AgentToolLoop.ExecuteToolRound` | src/hydramind/orchestration/agent_tools.py:152-308 | A round is refused, before anything runs, exactly when a call is unauthorized; otherwise its results and effects are those of the ledger-only version. |
| `ToolEffects.AgentToolLoop.ServeLives` | src/hydramind/orchestration/agent_tools.py:152-308 | Over any sequence of calls, restarts and deaths between a tool run and its record, replies, ledger and tools run are those of a worker that asks the ledger every time. |
| `ToolEffects.AgentToolLoop.DrainToolCalls` | src/hydramind/orchestration/agent_tools.py:92-150 | The whole drained conversation is that of the ledger-only version. |
| `ToolEffects.RecordedForGood` | src/hydramind/control/session_service.py:1081-1134 | A recorded effect keeps its first result and is never run again, whatever rounds, restarts and deaths follow. |
| `ToolEffects.RecordedExactly` | src/hydramind/control/session_service.py:1081-1134 | Over any rounds, restarts and deaths an effect is in the ledger if and only if a call of it succeeded, and then with the result of the first success; failures leave nothing. |
| `ToolEffects.ReusesFirstResult` | src/hydramind/control/session_service.py:1081-1134 | Every later call with a recorded fingerprint gets the first recorded content and changes nothing. |
| `ToolEffects.StepsExactly` | src/hydramind/orchestration/agent_tools.py:191-276 | What every step does: a call whose effect is recorded gets the recorded content and runs nothing; any other is answered by the tool, run once, and recorded exactly if it succeeded and has a fingerprint; a death loses the answer, not the run. |
| `ToolEffects.DrainedExactly` | src/hydramind/orchestration/agent_tools.py:92-150 | A drained conversation serves in each round what the model asked for by then, and ends when it asks for nothing, when the rounds are used up, or at an unauthorized call, of whose round nothing is run. |
| `ToolNames.ProviderNameAccepted` | src/hydramind/harness/openai_compatible_support.py:166-174 | Every cleaned name is non-empty, in the allowed alphabet, does not start with a digit and has no underscore at its ends. |
| `ToolNames.CleaningIdempotent` | src/hydramind/harness/openai_compatible_support.py:166-174 | Cleaning a cleaned name changes nothing. |
| `ToolNames.ReplacedExactly` | src/hydramind/harness/openai_compatible_support.py:166-174 | Allowed characters stay, and a run of others, however long, becomes one underscore. |
| `ToolNames.CleanedExactly` | src/hydramind/harness/openai_compatible_support.py:166-174 | Sent is the text so replaced without the underscores around it; a leading digit is prefixed, and if nothing is left it is a plain tool. |
| `ToolNames.ProviderToolNameMap` | src/hydramind/harness/openai_compatible_support.py:147-159 | Ends on every list of tools (pigeonhole on the used names) and gives every tool an accepted name of its own: its cleaned name, or the first suffixed form of it that no tool before uses; of a name listed twice the last entry counts. |
| `ToolNames.DeclaredRoundTrip` | src/hydramind/harness/openai_compatible_support.py:162-163 | Every declared tool call comes back under its own name. |
| `ToolNames.UndeclaredRoundTrip` | src/hydramind/harness/openai_compatible_support.py:119-163 | A call of an undeclared tool comes back under its own name if and only if the name needs no cleaning and no declared tool is sent under it. |
| `MemoryStores.InMemoryMemoryStore.Append` | src/hydramind/memory/stores.py:36-57 | The n-th append under a base key is filed as base.n and overwrites nothing. |
| `MemoryStores.SqliteMemoryStore.Append` | src/hydramind/memory/stores.py:128-174 | Hands out the same keys as the counting store, and the insert never meets a taken key. |
| `MemoryStores.NextAppendIndex` | src/hydramind/memory/stores.py:268-275 | One more than the greatest matching index, or 0. |
| `MemoryStores.CompositeInjective` | src/hydramind/memory/stores.py:36-57 | No two pairs of base key and index share a composite key. |
| `MemoryStores.NextIndexIsCount` | src/hydramind/memory/stores.py:268-275 | After any history of appends the greatest index plus one is the number of appends under the base key. |
| `MemoryStores.AgreeAfterDeletes` | src/hydramind/memory/stores.py:72-75 | After deletions the two stores go on agreeing for a base key if and only if its latest entry is still there. |
| `MemoryAuthorities.MemoryWriteAuthority.Append` | src/hydramind/memory/ownership.py:92-149 | Telemetry is refused; a write whose idempotency key the scan finds returns the entry found and stores nothing; anything else is appended with its class and the next version. |
| `MemoryAuthorities.FoundIsFirst` | src/hydramind/memory/ownership.py:151-170 | The entry a replay gets is the earliest under its idempotency key. |
| `MemoryAuthorities.ReplaysChangeNothing` | src/hydramind/memory/ownership.py:92-149 | Delivering any writes again, in any order and any number of times, leaves the store as it is. |
| `MemoryAuthorities.DropsOnlyOwn` | src/hydramind/memory/ownership.py:151-170 | A write is dropped if and only if it was recorded under its own base key, or an entry of another base key of the place starts with the base key and carries its idempotency key. |
| `MemoryAuthorities.FirstWriteDropped` | src/hydramind/memory/ownership.py:151-170 | For any two different base keys, the first of which starts an entry key of the second: after that many appends under the second a first write under the first is dropped. |
| `MemoryAuthorities.KeysApart` | src/hydramind/memory/ownership.py:151-170 | Next to another base key, first writes under a base key are safe in every history if and only if no entry key of the other starts with it. |

## Left out

- Retries after an interaction has failed or been concluded, and members that raise (the executor then marks the
  interaction failed and passes the error on): the refinement covers interactions under way and their replay.
- Crashes inside the composite chains of the control plane, in runs of the driver: what the next pass makes of any session
  they leave running is `Driver.CompletionExact`, and that any prefix of service calls keeps a session sound is
  `SessionRuns.RunKeeps`.
- Apply derivers that answer with a workflow revision, or for another node than the reported one, and reports that do
  not name the execution and token the loop handed out: the driver runs without them.
- Live revisions while the driver runs: a revision is proved against any session, the driver against a fixed workflow.
- Open executions: `open_node_execution` does not refuse a node that is already running, so nothing is claimed about
  several workers on one node.
- Nested aliasing inside a session: the store copies sessions, so they are values here; only a worker's own copy in
  `SessionStores` is an object.
- The other fields of a session (payloads, summaries, metadata, timestamps other than those of attempts, leases and
  turns), tool execution records, observability events, JSON, storage faults and deletion of sessions.
- Updating session metadata, which can overwrite the interaction log; the log statement is about the recording call.
- Ledger keys of one kind claimed under another kind's name: `ToolEffects` has a ledger of its own.
- Lower-casing inside the tally is that of ASCII letters; white space follows the list Python uses.
- The `like` filter of the table-backed memory store ignores the case of ASCII letters when scanning; scans are modelled
  on the dictionary-backed store.
- Explicit `put` of memory entries under keys that look like appended ones.
- Aggregated result payloads of a team node beyond the contributions and the typed outcome.
- The heartbeat task is a list of heartbeats sent while the node runs; one that is refused does not stop the others.
- VoteTally.BuildVoteOutcome: canonical votes are those of the ASCII lower-casing.
- ToolEffects.AgentToolLoop.DrainToolCalls: the messages handed to the model are the exchanges so far, without roles and
  reasoning texts.
