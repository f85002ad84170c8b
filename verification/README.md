# A verified model of the agent host's core

The host runs agents as leased, resumable runs over a shared database. This project models the parts whose
correctness does not depend on the network or on a vendor SDK, and proves what they promise over every input,
every interleaving and every run. Each module follows one component:

- `RunQueue`, `RunQueueProtocol`, `QueueSteps`: the leased run queue. Every database call is one atomic step on a run
  document; a sweep is two, a find and a re-checked update. The class holds the queue's methods; the protocol lets any
  number of executors and sweepers interleave them under one monotone clock, each acting on a clock reading of its own
  that may be old when its write lands; and each method is shown to be a step of the protocol.
- `SlicedExecutor`, `ExecutorProtocol`: the drive loop as a state machine and as the imperative loop that hears, from
  any surroundings, exactly what the machine hears; and any number of such executors running against the queue, with
  answers that may be lost after a write was applied.
- `EventBus`: the polling reader and the change-stream reader against one specification.
- `Conversation`, `ContextAssembler`, `PromptShape`, `Compaction`, `AgentRuntime`: conversation history, from the repair of
  unanswered tool calls to one whole step of the runtime.
- `LoopDetection`, `ToolPhase`: repeat detection, and chains of suspended and resumed tool phases. A step of
  `AgentRuntime` runs its tool phase through them.
- `CanonicalJson`, `CanonicalShape`: the canonical printer, a parser that undoes it, the equality it decides, and what
  the text looks like unit by unit.
- `Zip`, `ForeignZip`: the byte-level archive writer and reader, and reading the archives of other writers.
- `Guard`, `GuardVerdicts`, `Scoped`: the tenancy analysis of database commands with a semantics of filters, which commands
  it refuses, and the scoping layer over it.
- `Chunking`, `ChunkShape`: the text chunker, what it promises, and where exactly it cuts and packs.
- `Resilience`, `ResponseCache`, `CacheHits`, `Cron`: the semaphore and the circuit breaker, the scope-aware cache, and the
  walk over due minutes.
- `Options`, `Seqs`, `Sorting`, `Texts`: shared vocabulary.

`dafny verify dfyconfig.toml` checks the whole project.

## Where a promise does not hold as stated

Each of these follows the code. Where the promise can be made exact, its condition is proved in both directions.

- The sweeper's re-check ("the update acts on the lease its find read") needs writes to be timely: a claim keeps the
  agreement if and only if the lease it writes is not already over for an open sweep holding that run
  (`RunQueueProtocol.RecheckKeptIffTimely`, which has the heartbeat's condition too). A claim delayed past its own lease breaks the bound on requeues
  (`RunQueueProtocol.LateClaimDefeatsRecheck`). With no delay, a non-negative lease length is enough
  (`RunQueueProtocol.PromptIsTimely`).
- The change-stream reader replays at most 1000 rows. A session that has run its course delivers exactly what the log
  owes if and only if, when the stream was opened, the backlog was at most 1000 or a terminal event was among its
  first 1000 (`EventBus.ChangeStreamSubscribe`); `EventBus.UncoveredSession` is a session of 1001 events that is not
  covered. Polling has no such condition.
- Answering orphaned calls pairs every call with a result in the very next message if and only if no request has some
  of its results in a next message that is not of the `tool` role (`Conversation.AnswerPairs`); results confined to
  `tool` messages imply it.
- No call is invoked again after returning a result, whatever the gateway answers over however many phases that the
  loop detector admits, if and only if calls run one at a time or at most one is outstanding (`ToolPhase.AtMostOnceIff`; the promise is at
  packages/runtime/src/agent-runtime.ts:289-290). A call that returned is
  kept if and only if it did not stand behind a suspended one in its batch (`ToolPhase.KeptIffNotOvertaken`).
- The guard takes any `$in` list that is not empty (packages/db/src/guard.ts:57-62), and the server reads a regular
  expression in such a list as a pattern. `{ workspaceId: { $in: [/^/] } }` is accepted, holds no `$nor`, names nobody
  and matches every tenant's documents (`Guard.PatternLetsAllThrough`). A workspace value is confined to what it names,
  under every semantics, if and only if it has an equality or a list free of patterns (`Guard.ValueConfinedIff`). A
  filter without `$nor`, accepted or not, is confined to what it mentions if and only if it is not open
  (`Guard.ConfinedIffNotOpen`); it is open when each of its clauses is a workspace value that is not so confined, an
  `$and` whose branches are all open, an `$or` with an open branch, or some other clause.
- The guard gives `$nor` the credit it gives `$or`. What is accepted without that credit, and without credit for
  patterns, is confined, whatever else the filter contains (`Guard.AcceptedIsConfined`). A filter that is nothing but a
  `$nor` of such branches is accepted and never confined: it matches every document of every workspace those branches
  do not name, and there always is one (`Guard.NorLetsOthersThrough`, `Guard.NorIsNeverConfined`). With `$nor` there is
  no exact condition on the filter's shape: `Guard.NorCreditCanBeHarmless` is accepted for its `$nor` alone, can be
  matched, and is confined under every semantics, because another branch can never be matched; and whether a branch can
  be matched depends on operators whose meaning is the server's.
- The guard reads the first stage of a pipeline and no other, so one that goes on to union a whole collection passes
  for its leading match (`Guard.LaterStagesAreNotRead`, `Guard.UnionPasses`).
- The scoping layer scopes what a write selects and passes the change through unread. The documents stay in their
  workspace, whatever the other operators do, if and only if the change leaves the workspace field alone or sets it to
  the same workspace (`Scoped.WriteStaysInsideIff`, `Scoped.ScopedUpdateCanMove`).
- A scoped insert under an empty workspace id is flagged by the guard; every other scoped command passes
  (`Scoped.EveryScopedCommandPasses`).
- `dueBetween` breaks after a push, so a cap of zero still returns one minute; `Cron.DueBetween` states the list for
  every cap.
- A slice that is told its lease is lost, by the queue, by opening its session or by a step, does nothing more. It
  returns `lease_lost` if and only if it was not told in answer to a suspend, whose error escapes instead
  (`ExecutorProtocol.LossIsReportedUnlessSuspending`; packages/runtime/src/sliced-executor.ts:225-230).
  `ExecutorProtocol.SuspendErrorEscapes` is such an execution.

## Model

| member | source | states |
|---|---|---|
| `RunQueue.BackoffCeiling` | packages/db/src/run-queue.ts:65-68 | the backoff ceiling lies between one second and one minute for every attempt count |
| `RunQueue.BackoffMs` | packages/db/src/run-queue.ts:65-68 | the jittered delay is below the ceiling for every random draw |
| `RunQueue.BackoffGrows` | packages/db/src/run-queue.ts:65-68 | the ceiling never shrinks as attempts grow |
| `RunQueue.BackoffDoubles` | packages/db/src/run-queue.ts:65-68 | one second for the first attempt, doubled for each further one, at most a minute |
| `RunQueue.MongoRunQueue.Enqueue` | packages/db/src/run-queue.ts:101-131 | only a run in a state that may be queued changes, to queued without a lease, with the schedule and the priority if one is given, field by field; the rest is untouched |
| `RunQueue.MongoRunQueue.FirstClaimable` | packages/db/src/run-queue.ts:133-177 | finds a claimable run that no claimable run precedes by priority and schedule, or there is none |
| `RunQueue.MongoRunQueue.Claim` | packages/db/src/run-queue.ts:133-177 | claims a run that is due and that no due run comes before, field by field: running under the new token, owner and lease end, one attempt more, the first start time kept; or changes nothing when none is due |
| `RunQueue.MongoRunQueue.Heartbeat` | packages/db/src/run-queue.ts:179-191 | succeeds exactly when the token holds the run and then moves only that lease's end; otherwise lease lost and no change |
| `RunQueue.MongoRunQueue.Release` | packages/db/src/run-queue.ts:193-235 | succeeds exactly when the token holds the run, and then writes, field by field, the status its ending, wait reason or requeue calls for, the finish time or the new schedule, the error and the step it resumes from if given, no lease, and nothing else; otherwise lease lost and no change |
| `RunQueue.MongoRunQueue.FindStalled` | packages/db/src/run-queue.ts:237-250 | a page of the running runs whose lease is over, earliest lease end first, none left out that is earlier, and none at all unless the limit is reached |
| `RunQueue.MongoRunQueue.Reclaim` | packages/db/src/run-queue.ts:251-287 | the re-checked update matches exactly a run still stalled, decides from the attempts the find read, and writes, field by field, a requeue within the backoff or a failure with its error |
| `RunQueue.MongoRunQueue.ReclaimPage` | packages/db/src/run-queue.ts:251-289 | every run of the page is requeued with backoff or failed by its attempts, the counters say how many of each, nothing else changes |
| `RunQueue.MongoRunQueue.Sweep` | packages/db/src/run-queue.ts:237-289 | undisturbed, a sweep reclaims exactly one page of stalled runs and its two counters add up to it |
| `RunQueueProtocol.StepKeepsLeases` | packages/db/src/run-queue.ts:101-289 | each atomic call keeps: leased exactly while running, and no token live on two runs |
| `RunQueueProtocol.StepKeepsAttempts` | packages/db/src/run-queue.ts:101-289 | each atomic call keeps attempts equal to the ways its claims ended plus one if running |
| `RunQueueProtocol.ReachableInvariants` | packages/db/src/run-queue.ts:101-289 | both invariants hold at every point of every interleaving |
| `RunQueueProtocol.DisplacedForever` | packages/db/src/run-queue.ts:133-235 | a token that lost its run never holds any run again |
| `RunQueueProtocol.StaleWritesChangeNothing` | packages/db/src/run-queue.ts:179-235 | heartbeat and release under a displaced token leave the whole world as it was |
| `RunQueueProtocol.StretchUpTo` | packages/db/src/run-queue.ts:133-289 | from where a run holds a token, that token is later held by the same run or displaced |
| `RunQueueProtocol.OneStretchPerToken` | packages/db/src/run-queue.ts:133-289 | a token held at two points is held by one and the same run at every point between |
| `RunQueueProtocol.TerminalIsFinal` | packages/db/src/run-queue.ts:101-289 | no later action changes any field of a run in a terminal status |
| `RunQueueProtocol.PromptIsTimely` | packages/db/src/run-queue.ts:133-191 | a write that lands before the lease it writes is over is timely |
| `RunQueueProtocol.TimelyStepKeepsRecheck` | packages/db/src/run-queue.ts:237-289 | a timely step keeps: a sweep update that would match finds the very document its find read |
| `RunQueueProtocol.RecheckKeptIffTimely` | packages/db/src/run-queue.ts:133-289 | a claim keeps that agreement if and only if it is timely; an accepted heartbeat, if and only if every open sweep its new lease is too late for read the very document it writes; every other call always does |
| `RunQueueProtocol.SweepersAreBounded` | packages/db/src/run-queue.ts:237-289 | in every timely interleaving the sweeper requeues a run at most `maxAttempts - 1` times in its life and gives up on it at most once |
| `RunQueueProtocol.LateClaimDefeatsRecheck` | packages/db/src/run-queue.ts:133-289 | a concrete run in which a claim delayed past its lease breaks that bound |
| `QueueSteps.EnqueueStep` | packages/db/src/run-queue.ts:101-131 | a call of the queue is the protocol's enqueue |
| `QueueSteps.ClaimStep` | packages/db/src/run-queue.ts:133-177 | a successful claim is an enabled claim of the protocol, an unsuccessful one changes nothing |
| `QueueSteps.HeartbeatStep` | packages/db/src/run-queue.ts:179-191 | a call of the queue is the protocol's heartbeat, accepted exactly when the token holds the run |
| `QueueSteps.ReleaseStep` | packages/db/src/run-queue.ts:193-235 | a call of the queue is the protocol's release, accepted exactly when the token holds the run |
| `QueueSteps.SweepReadStep` | packages/db/src/run-queue.ts:237-250 | the find is the protocol's read, opening a sweep on exactly the page |
| `QueueSteps.SweepWriteStep` | packages/db/src/run-queue.ts:251-287 | the re-checked update is the protocol's write |
| `SlicedExecutor.Executor.YieldRun` | packages/runtime/src/sliced-executor.ts:243-258 | one release; its answer decides the outcome, stated by cases; a trigger follows exactly an accepted requeue |
| `SlicedExecutor.Executor.FinishRun` | packages/runtime/src/sliced-executor.ts:260-283 | one release of the given ending, and the outcome its answer asks for, stated by cases |
| `SlicedExecutor.Executor.AfterStep` | packages/runtime/src/sliced-executor.ts:218-240 | what is released after each step outcome, stated by cases: a finished step as succeeded, a stopped one as failed with its code and message, each wait with its own status; and the outcome that the answer asks for, a refused suspend being an escaping error |
| `SlicedExecutor.Executor.Loop` | packages/runtime/src/sliced-executor.ts:167-241 | whatever each pass is answered, the loop ends as the answers themselves determine, with the release they call for and the steps they count, and its events are those the machine hears |
| `SlicedExecutor.Executor.Pass` | packages/runtime/src/sliced-executor.ts:168-240 | the same for one pass: deadline first, then the heartbeat exactly when the interval has passed, then the step |
| `SlicedExecutor.Executor.Drive` | packages/runtime/src/sliced-executor.ts:144-241 | from opening the session on: the outcome, the one release and the number of steps are given from the surroundings' answers alone, and the events heard are the script those answers determine |
| `SlicedExecutor.OwedIsReleased` | packages/runtime/src/sliced-executor.ts:167-297 | a slice goes to release exactly on the answers that call for one, and with that release: succeeded, failed with code and message, each wait's status, a raised error as `executor_error` with its message, an expired deadline as a requeue for now |
| `SlicedExecutor.BeatIsDue` | packages/runtime/src/sliced-executor.ts:167-216 | at any point of any run, a pass that is not expired asks for a heartbeat exactly when the interval has passed since the last accepted one |
| `ExecutorProtocol.ExecutionInvariant` | packages/runtime/src/sliced-executor.ts:102-299 | with any number of executors, sweepers and lost answers, each slice's record of calls and of signalled losses fits the place it is in, and its outcome |
| `ExecutorProtocol.EveryClaimIsDisciplined` | packages/runtime/src/sliced-executor.ts:144-291 | per claim: at most one release, nothing after a signal of a lost lease however it was raised, and a trigger only right after an applied requeue |
| `ExecutorProtocol.LossIsReportedUnlessSuspending` | packages/runtime/src/sliced-executor.ts:149-291 | a slice told of a lost lease is over; it reports the loss if and only if it was not told in answer to a suspend, whose error escapes |
| `ExecutorProtocol.ReportedLossWasSignalled` | packages/runtime/src/sliced-executor.ts:149-291 | a slice reports a loss only when it was told of one |
| `ExecutorProtocol.SuspendErrorEscapes` | packages/runtime/src/sliced-executor.ts:225-230 | a concrete execution in which a sweeper takes the run back and the suspend's error escapes |
| `ExecutorProtocol.EndedSlicesHoldNothing` | packages/runtime/src/sliced-executor.ts:144-291 | a slice that ended without an escaping error holds no run |
| `ExecutorProtocol.ReleasesCounted` | packages/runtime/src/sliced-executor.ts:243-297 | the record of applied releases agrees with the database's count at every point |
| `ExecutorProtocol.AttemptsAccounted` | packages/runtime/src/sliced-executor.ts:144-291 | at every point `attempts` is successful releases plus sweeper reclaims plus one if running |
| `EventBus.ResumeIsExact` | packages/db/src/event-bus.ts:105-118 | what lies after the last delivered seq is precisely the rest of what lay after the cursor |
| `EventBus.OwedExactly` | packages/db/src/event-bus.ts:64-118 | what a reader is owed: each document of the run in the workspace past the cursor, as often as written, up to the first that is `run_finished`, `run_suspended` or `run_yielded` |
| `EventBus.CoveredIff` | packages/db/src/event-bus.ts:113-118 | a backlog is covered exactly when it has at most 1000 events or one of its first 1000 ends the session |
| `EventBus.ChainedSessionsAreOne` | packages/db/src/event-bus.ts:105-218 | a session cut short and continued from its last seq delivers what one session would have |
| `EventBus.ChainHasNoGap` | packages/db/src/event-bus.ts:105-218 | any chain of sessions over a growing log concatenates to the beginning of the log after the first cursor |
| `EventBus.DeliverPage` | packages/db/src/event-bus.ts:149-153 | delivers a page up to and including the first terminal event, moving the cursor with it |
| `EventBus.PollOnce` | packages/db/src/event-bus.ts:208-216 | one poll delivers the next of what is owed, and catches up unless its page was full |
| `EventBus.PollingSubscribe` | packages/db/src/event-bus.ts:200-218 | polling delivers a beginning of the log after the cursor up to the first terminal event, ends only there, and over a settled log catches up however long the backlog |
| `EventBus.Follow` | packages/db/src/event-bus.ts:155-170 | following the stream adds exactly the run's own documents past the replay's cursor, up to a terminal event |
| `EventBus.StreamBringsTheRest` | packages/db/src/event-bus.ts:127-172 | with a covered backlog, page and stream together are the log after the cursor, without overlap |
| `EventBus.UncoveredIsLost` | packages/db/src/event-bus.ts:113-172 | with an uncovered backlog a document that is owed is in neither the page nor the stream |
| `EventBus.UncoveredSession` | packages/db/src/event-bus.ts:105-118 | a concrete session with an uncovered backlog of 1001 events |
| `EventBus.ChangeStreamSubscribe` | packages/db/src/event-bus.ts:127-172 | own events only, strictly increasing; complete if and only if the backlog was covered |
| `Conversation.AnswerOrphanedToolCalls` | packages/runtime/src/context-assembler.ts:136-165 | the in-place pass terminates, computes the repair and returns the number of results it added |
| `Conversation.AnswerIsMonotone` | packages/runtime/src/context-assembler.ts:136-165 | repairing a prefix gives a prefix of repairing the whole |
| `Conversation.AnswerPairs` | packages/runtime/src/context-assembler.ts:136-165 | after the repair every call but the last message's is answered in the very next message, if and only if no answers were split |
| `Conversation.AnswerOfPaired` | packages/runtime/src/context-assembler.ts:136-165 | the repair adds nothing exactly when everything is answered already, and then changes nothing |
| `Conversation.SecondPassAddsNothing` | packages/runtime/src/context-assembler.ts:136-165 | a second pass changes nothing and counts none, if and only if no answers were split |
| `Conversation.ResultsInToolMessagesAreNotSplit` | packages/runtime/src/context-assembler.ts:145-162 | results that occur only in tool messages are never split |
| `Conversation.SplitAnswersStaySplit` | packages/runtime/src/context-assembler.ts:145-162 | a concrete request whose repair leaves a call unanswered in the next message |
| `Conversation.UndoRestores` | packages/runtime/src/context-assembler.ts:136-165 | appended and inserted results can be taken out again to give the original |
| `Conversation.AnswerOnlyAdds` | packages/runtime/src/context-assembler.ts:136-165 | the repair keeps every original block in order and adds exactly the results it counts |
| `ContextAssembler.OrderDirectivesIsStable` | packages/runtime/src/context-assembler.ts:68-80 | within a kind, directives keep their order |
| `ContextAssembler.OrderToolsIgnoresDiscovery` | packages/runtime/src/context-assembler.ts:87-88 | distinctly named tools come out in one order however they were discovered |
| `ContextAssembler.BreakpointsFor` | packages/runtime/src/context-assembler.ts:186-202 | at most two breakpoints, increasing, none on the last two messages |
| `ContextAssembler.FirstBreakpointIsStable` | packages/runtime/src/context-assembler.ts:176-202 | the first breakpoint is fixed over each block of eight message counts |
| `ContextAssembler.AssemblePrompt` | packages/runtime/src/context-assembler.ts:204-258 | the accumulating loop assembles the live messages in seq order, repaired, and counts the artifacts it drops |
| `PromptShape.SystemIsExact` | packages/runtime/src/context-assembler.ts:29-80 | the request's system is the directives that are not blank: identity, policy, safety, memory, retrieval, and within a kind as given |
| `PromptShape.ToolsAscend` | packages/runtime/src/context-assembler.ts:87-88 | the tools sent are the tools given, names ascending by the first character that differs |
| `PromptShape.MessagesAreCarried` | packages/runtime/src/context-assembler.ts:97-117 | less the results added for orphaned calls, one message for each live one in seq order, same role and content, with an artifact exactly when it has one of the current provider, and that one |
| `PromptShape.BreakpointsAre` | packages/runtime/src/context-assembler.ts:186-202 | where breakpoints are: none without explicit breakpoints or three messages; else before the last two messages and, with two allowed, after the last whole eight before that unless the two fall together |
| `ContextAssembler.PromptGrows` | packages/runtime/src/context-assembler.ts:204-258 | a prompt from a history that only grew begins with all of the earlier prompt's messages, same system, same tools |
| `ContextAssembler.CachedPrefixSurvives` | packages/runtime/src/context-assembler.ts:272-288 | then `prefixIsPreserved` holds |
| `ContextAssembler.AnchorIsStable` | packages/runtime/src/context-assembler.ts:186-303 | with two breakpoints and at least ten messages, the first breakpoint and all that its fingerprint digests stay fixed within a block of eight |
| `Compaction.LegalBoundaryAtOrBefore` | packages/runtime/src/compaction.ts:72-77 | the greatest legal boundary at or before an index |
| `Compaction.TokenCut` | packages/runtime/src/compaction.ts:100-115 | the longest run of messages at the end that are recent or fit the target |
| `Compaction.CharsOfOne` | packages/runtime/src/context-assembler.ts:306-321 | what one block adds to the estimate |
| `Compaction.PlanCompaction` | packages/runtime/src/compaction.ts:79-141 | a plan splits the live history into summarised and kept, is needed exactly when over the limit with a legal boundary to cut at, cuts at the greatest one not after the token cut, keeps the recent messages |
| `AgentRuntime.LegalCutKeepsHist` | packages/runtime/src/compaction.ts:58-70 | a cut of a well-formed history is legal if and only if it leaves a well-formed history |
| `AgentRuntime.CompactionKeeps` | packages/runtime/src/agent-runtime.ts:321-374 | appending the summary and superseding what it covers keeps the store well formed, also in between |
| `AgentRuntime.AnswerKeepsBacked` | packages/runtime/src/context-assembler.ts:136-165 | the repair leaves every result right after the request it answers |
| `AgentRuntime.RequestIsAcceptable` | packages/runtime/src/agent-runtime.ts:139-160 | the assembled request has each call answered in the very next message and each result asked for in the one before |
| `AgentRuntime.Store.Append` | packages/runtime/src/agent-runtime.ts:139-319 | appending a message that fits keeps the store well formed and extends the live history by it |
| `AgentRuntime.Store.Supersede` | packages/runtime/src/agent-runtime.ts:321-374 | marks exactly the given messages, each with the summary's id, and changes nothing else of them |
| `AgentRuntime.Compact` | packages/runtime/src/agent-runtime.ts:321-374 | afterwards the live history is the kept part and the summary, and what was summarised is marked with its id |
| `AgentRuntime.ToolPhase` | packages/runtime/src/agent-runtime.ts:235-319 | the runner is given the durable results and what it adds is made durable; a completed phase appends one result per pending call, in order, from what is durable; a phase is stopped for a loop exactly when within budget and not admitted by the detector, and then answers every call with an error; a suspended one appends nothing; nothing with a durable result is invoked; the detector records exactly the calls before the first stop |
| `AgentRuntime.SaveResults` | packages/runtime/src/agent-runtime.ts:289-297 | the saving loop makes exactly the phase's results durable and leaves those that were |
| `AgentRuntime.ModelCall` | packages/runtime/src/agent-runtime.ts:139-233 | sends an acceptable request; a reply is appended whatever it asks for: one more message, live, the assistant's, with the reply's content and its artifact under the provider's key; without one nothing is written; the step goes on exactly when the reply asks for tools |
| `AgentRuntime.StepOnce` | packages/runtime/src/agent-runtime.ts:87-137 | the branch order, the store's invariant after every step, that every request sent is acceptable, what the tool phase did, and without pending calls which of the four ways was taken and what it left in the store |
| `AgentRuntime.NothingPending` | packages/runtime/src/agent-runtime.ts:117-136 | with nothing pending: finished after the assistant's own message; else a compaction exactly when the history is over the limit with a legal cut, leaving the kept part and the summary; else the reply appended, or a model error and nothing written |
| `AgentRuntime.PlanDecides` | packages/runtime/src/agent-runtime.ts:117-136 | the plan is needed exactly when the history is over the limit and there is a legal cut within what the token rule gives up |
| `AgentRuntime.CallsAreTheUses` | packages/runtime/src/agent-runtime.ts:400-414 | the pending calls are the `tool_use` blocks and no other, in order, each with its id, name and arguments |
| `LoopDetection.LoopDetector.Record` | packages/runtime/src/loop-detection.ts:70-74 | the window is always the last calls of everything recorded |
| `LoopDetection.LoopDetector.InspectPhase` | packages/runtime/src/loop-detection.ts:94-110 | passes exactly the phases none of whose calls would be the threshold-th copy in its window, duplicates within the phase included |
| `LoopDetection.AdmitsIff` | packages/runtime/src/loop-detection.ts:94-110 | a phase passes if and only if none of its calls would be the threshold-th copy in the window before it |
| `LoopDetection.KeyTellsApart` | packages/runtime/src/loop-detection.ts:66-68 | two calls have one key if and only if name and arguments are equal, for names without a parenthesis |
| `LoopDetection.RunIsSparse` | packages/runtime/src/loop-detection.ts:70-110 | whatever prefix of each admitted phase is recorded, every recorded call had fewer than threshold minus one copies before it |
| `LoopDetection.NoLoopIsEverRecorded` | packages/runtime/src/loop-detection.ts:70-110 | no stretch of window plus one recorded calls holds threshold copies of one key |
| `ToolPhase.Run` | packages/runtime/src/tool-phase.ts:105-189 | a refused phase invokes nothing and answers every call with an error; otherwise what is invoked, kept, recorded and returned is determined by the first call that did not return a result: each result before it is kept with its call's id and name and the gateway's content and verdict, a complete message tells each call what was kept or answered, and a suspension gives the reason by the kind of answer |
| `ToolPhase.RunBatches` | packages/runtime/src/tool-phase.ts:132-176 | the batch loop stops at that first call and has invoked exactly the batches up to its own |
| `ToolPhase.PhaseKeeps` | packages/runtime/src/tool-phase.ts:105-189 | a phase keeps earlier results as they were and adds exactly those before the first stop, each with its call's id and name and the gateway's content and verdict |
| `ToolPhase.MessageAnswers` | packages/runtime/src/tool-phase.ts:183-189 | each block of a complete message has its call's id and the content and verdict that were kept for it or that the gateway gave |
| `ToolPhase.LookAlike` | packages/runtime/src/tool-phase.ts:113-131 | the loop detector takes two calls for the same exactly when name and arguments are equal |
| `ToolPhase.ChainKeeps` | packages/runtime/src/tool-phase.ts:105-189 | along a chain of phases no result is lost or replaced |
| `ToolPhase.ReinvokedOnlyIfOvertaken` | packages/runtime/src/tool-phase.ts:132-176 | a call invoked again after returning a result stood behind the first stop of its batch |
| `ToolPhase.KeptIffNotOvertaken` | packages/runtime/src/tool-phase.ts:132-176 | a call that returned a result is kept if and only if it did not |
| `ToolPhase.SequentialAtMostOnce` | packages/runtime/src/tool-phase.ts:105-189 | with sequential calls none is invoked again after returning a result |
| `ToolPhase.AtMostOnceIff` | packages/runtime/src/tool-phase.ts:105-189 | over all chains of answers to admitted phases no call is invoked again after returning a result, if and only if calls run one at a time or at most one is outstanding |
| `ToolPhase.CompanyCanRepeat` | packages/runtime/src/tool-phase.ts:132-176 | for any two outstanding calls in one batch there are answers that make the second run twice |
| `ToolPhase.CompletePhaseAnswersAll` | packages/runtime/src/tool-phase.ts:177-227 | a chain that completes yields one result per call, in request order, under its own id |
| `ToolPhase.ParallelCanRepeat` | packages/runtime/src/tool-phase.ts:138-174 | a concrete chain in which a parallel call is invoked twice |
| `CanonicalJson.CharsRoundTrip` | packages/core/src/canonical.ts:13-18 | reading a quoted string of any UTF-16 code units gives it back (section 7 of RFC 8259) |
| `CanonicalJson.NumberRoundTrip` | packages/core/src/canonical.ts:13 | reading a printed integer gives it back |
| `CanonicalJson.ParseUndoesPrint` | packages/core/src/canonical.ts:12-19 | parsing a canonical text that is not followed by a digit gives the value with undefined resolved and fields in key order, and stops at its end |
| `CanonicalJson.NormalEqualIsSame` | packages/core/src/canonical.ts:12-19 | values with one normal form are the same JSON value |
| `CanonicalJson.SameTexts` | packages/core/src/canonical.ts:12-19 | the same JSON value gets one text, whatever the order of its keys |
| `CanonicalJson.CanonicalIffSame` | packages/core/src/canonical.ts:12-19 | canonical texts are equal if and only if the values are equal up to key order, dropped undefined fields, and undefined elsewhere read as null |
| `CanonicalShape.PrintsAsDescribed` | packages/core/src/canonical.ts:12-19 | the text unit by unit: the literals, integers in decimal without leading zeros, strings in quotes with the escapes of section 7 of RFC 8259, brackets and commas around the items, braces, commas and colons around the fields that are defined, with keys ascending in code unit order |
| `CanonicalShape.PrintedAscend` | packages/core/src/canonical.ts:15-18 | the fields printed are those that are defined, and of any two the earlier key is less at the first unit that differs or ends where the other goes on |
| `CanonicalJson.Fingerprint` | packages/core/src/canonical.ts:30-38 | the digest loop computes the FNV-1a hash of the canonical text, so the same value has the same fingerprint |
| `CanonicalShape.FnvVectors` | packages/core/src/canonical.ts:30-38 | two published vectors of 32-bit FNV-1a |
| `Zip.FindEnd` | packages/knowledge/src/zip.ts:36-42 | the backward scan finds the position the specification names |
| `Zip.EndOfIsLast` | packages/knowledge/src/zip.ts:36-42 | that position is the last end signature within reach of the longest comment, or there is none |
| `Zip.ReadZip` | packages/knowledge/src/zip.ts:31-82 | on any bytes at all, the result or the error that the specification of one turn and of the directory walk gives; what that is for archives of any writer is `ForeignZip.ArchiveIsRead` |
| `Zip.ReadDirectory` | packages/knowledge/src/zip.ts:48-81 | the loop takes one turn per entry and stops at the count, at the limit, or at the first error |
| `Zip.ReadNext` | packages/knowledge/src/zip.ts:50-79 | one entry: skipped, taken, or refused with the error the source gives |
| `Zip.EntryReadBack` | packages/knowledge/src/zip.ts:50-79 | a written file is read back through its central header |
| `Zip.EndIsFound` | packages/knowledge/src/zip.ts:36-46 | whatever bytes come before, the written end record is the one found |
| `Zip.ReadUndoesWrite` | packages/knowledge/src/zip.ts:31-82 | reading any written archive within the field widths gives exactly the files that are listed, in order, up to the limits, given that inflate undoes deflate and decoding a name undoes encoding it |
| `Zip.PlainFilesReadBack` | packages/knowledge/src/zip.ts:31-82 | files with plain names come back one for one, same path, size and bytes |
| `Zip.AsciiFilesReadBack` | packages/knowledge/src/zip.ts:31-82 | the same for ASCII names, given only that inflate undoes deflate and that UTF-8 is one byte per character on ASCII |
| `Zip.ReservedValuesAreRefused` | packages/knowledge/src/zip.ts:44-46 | at the values zip64 reserves the archive is refused |
| `ForeignZip.MemberIsRead` | packages/knowledge/src/zip.ts:50-79 | at any central header, with name, extra field and comment of any length, whose local header has a name and an extra field of any length: the entry is passed over, refused as encrypted or as of an unknown method, or its bytes are the body or its inflation; and the next header is looked for behind name, extra field and comment |
| `ForeignZip.ArchiveIsRead` | packages/knowledge/src/zip.ts:31-82 | reading any archive of any members, with any extras and comments and a comment after the end record, gives its entries in order up to the limit, or the first refusal |
| `ForeignZip.ExtrasDoNotMatter` | packages/knowledge/src/zip.ts:31-82 | stored files come back one for one, same path, size and bytes, whatever extras and comments stand around them |
| `ForeignZip.RefusalIsWhole` | packages/knowledge/src/zip.ts:62-77 | the first refused member within the limit makes the whole archive refused, with its error |
| `ForeignZip.DamagedDirectory` | packages/knowledge/src/zip.ts:50-52 | without the four bytes of the signature, or without room for a header, the directory is damaged |
| `ForeignZip.DamagedLocal` | packages/knowledge/src/zip.ts:68 | a wanted body without a local signature at its offset is damaged, or out of range |
| `ForeignZip.NoEndIsRefused` | packages/knowledge/src/zip.ts:36-42 | bytes without an end signature within reach are no archive |
| `Zip.WriteLocal` | packages/knowledge/src/zip.fixture.ts:14-19 | the buffer holds the local header of section 4.3.7 of PKWARE APPNOTE.TXT |
| `ForeignZip.WrittenLocal` | packages/knowledge/src/zip.fixture.ts:14-19 | a written local header and body are those of that member |
| `Zip.WriteCentral` | packages/knowledge/src/zip.fixture.ts:21-26 | the buffer holds the central directory header of section 4.3.12 |
| `ForeignZip.WrittenCentral` | packages/knowledge/src/zip.fixture.ts:21-26 | a written central header is that of a member with the UTF-8 flag, its method, checksum, sizes and offset, and no extra field or comment |
| `Zip.WriteEnd` | packages/knowledge/src/zip.fixture.ts:31-34 | the buffer holds the end record of section 4.3.16 |
| `Zip.WriteZip` | packages/knowledge/src/zip.fixture.ts:4-40 | the written bytes are the archive of those parts in order, with each offset where its file starts |
| `Guard.AcceptedIsConfined` | packages/db/src/guard.ts:47-77 | a document matching a filter accepted without credit for `$nor` or for patterns in a list belongs to a workspace the filter names, whatever else the filter contains |
| `Guard.GuardIsSound` | packages/db/src/guard.ts:47-77 | the same for every accepted filter free of `$nor` in which each workspace value that gets credit has an equality or a list free of patterns |
| `Guard.ValueConfinedIff` | packages/db/src/guard.ts:50-64 | a workspace value is confined to what it names, under every semantics, if and only if it has an equality or a list free of patterns, or is no operator object and no pattern |
| `Guard.ConfinedIffNotOpen` | packages/db/src/guard.ts:47-77 | a filter free of `$nor` is confined to what it mentions, under every semantics, if and only if it is not open |
| `Guard.StrictIsNotOpen` | packages/db/src/guard.ts:47-77 | what is accepted without that credit is not open |
| `Guard.PatternLetsAllThrough` | packages/db/src/guard.ts:57-62 | a filter with a pattern in its list that is accepted, holds no `$nor`, mentions nobody and matches every tenant |
| `Guard.NorLetsOthersThrough` | packages/db/src/guard.ts:69-74 | a `$nor` of branches accepted without that credit is accepted and matches every document outside the workspaces they name |
| `Guard.NorIsNeverConfined` | packages/db/src/guard.ts:69-74 | whatever those branches, some workspace is not mentioned and all its documents match |
| `Guard.NorCreditCanBeHarmless` | packages/db/src/guard.ts:47-77 | a filter accepted for its `$nor` alone that is matched, and confined, under every semantics |
| `Guard.PassedCommandIsConfined` | packages/db/src/guard.ts:128-224 | what a passed, unmarked command on a tenant or mixed collection selects, in a pipeline by its leading match, belongs to workspaces its filter names, for filters free of `$nor` with every credit pinned |
| `Guard.LaterStagesAreNotRead` | packages/db/src/guard.ts:84-102 | the verdict on a pipeline is that on its first stage |
| `Guard.UnionPasses` | packages/db/src/guard.ts:84-102 | a pipeline that goes on to union a whole collection passes |
| `GuardVerdicts.RefusedIff` | packages/db/src/guard.ts:128-224 | over every command, each violation exactly when: the collection is not classified; the command is judged and lacks the filter its kind must have; it is a judged insert with a document that has no workspace or an empty one |
| `GuardVerdicts.UnknownIsRefused` | packages/db/src/guard.ts:134-149 | a command is refused for its collection if and only if that is not classified, platform intent or not |
| `GuardVerdicts.SearchConstrainsIff` | packages/db/src/guard.ts:91-101 | a search stage passes if and only if the first kind of search it has carries a constraining filter or compound |
| `GuardVerdicts.PipelineIff` | packages/db/src/guard.ts:84-102 | a pipeline passes if and only if its first stage is a match that fixes the workspace or, without a match, a search that does |
| `GuardVerdicts.StampedIffCarries` | packages/db/src/guard.ts:207-218 | an inserted document passes if and only if it has a workspace that is a string and not empty |
| `GuardVerdicts.IntentIsDeclared` | packages/db/src/guard.ts:104-112 | platform intent is declared exactly by a comment that begins with the marker, or by its `salvations` entry beginning with `platform` |
| `Scoped.ScopedFilterIsExact` | packages/db/src/scoped.ts:38-46 | a scoped filter matches exactly what the caller's filter matches within the workspace |
| `Scoped.InsertIsStamped` | packages/db/src/scoped.ts:54-65 | an insert is rejected exactly when it claims another workspace, with that claim, and otherwise carries this one and every other field as it was |
| `Scoped.ScopedCallIsExact` | packages/db/src/scoped.ts:80-132 | find, count, update and delete calls are refused exactly when they name a workspace, and otherwise touch exactly the caller's documents within it |
| `Scoped.ScopedAggregateIsExact` | packages/db/src/scoped.ts:142-156 | an aggregation is refused exactly when it begins with a search stage, and otherwise starts from exactly the workspace's documents |
| `Scoped.CallIsConveyed` | packages/db/src/scoped.ts:80-156 | the command sent conveys the call: the change, one document or all, the stages after the gate, the documents |
| `Scoped.DocsAreSent` | packages/db/src/scoped.ts:98-103 | all documents are sent, in order, each stamped and otherwise kept, and none if one claims another workspace |
| `Scoped.WriteStaysInsideIff` | packages/db/src/scoped.ts:105-124 | a write keeps what it selects in its workspace, whatever the operators other than `$set` do, if and only if its change leaves the workspace field or sets it to the same workspace |
| `Scoped.ScopedUpdateCanMove` | packages/db/src/scoped.ts:105-111 | a scoped update that sets another workspace is sent and passes the guard |
| `Scoped.EveryScopedCommandPasses` | packages/db/src/scoped.ts:80-156 | every command the layer sends on a tenant collection passes the guard, except an insert under an empty workspace id |
| `Chunking.HardCut` | packages/knowledge/src/chunk.ts:115-130 | the cutting loop terminates and computes the specified cuts |
| `Chunking.HardCutsAreGood` | packages/knowledge/src/chunk.ts:115-130 | every cut is trimmed, not empty and within the limit, and no visible character is lost |
| `ChunkShape.HardCutsAre` | packages/knowledge/src/chunk.ts:115-130 | each cut is at the last space of the window if that lies past the middle, and at its end if none does |
| `Chunking.Split` | packages/knowledge/src/chunk.ts:88-106 | the two nested loops compute the specified pieces |
| `ChunkShape.SplitIsPacked` | packages/knowledge/src/chunk.ts:88-106 | a paragraph that fits is one piece; the parts of one that does not are packed greedily with a space between them: as many as fit, and the next would not have |
| `ChunkShape.BreaksAreBlankLines` | packages/knowledge/src/chunk.ts:77-82 | text is cut into paragraphs exactly at a newline, spaces and tabs, and all the newlines that follow |
| `ChunkShape.GapsAreSentenceEnds` | packages/knowledge/src/chunk.ts:108-113 | and into sentences exactly at white space behind a full stop, exclamation or question mark and before a capital, a digit, an opening quote or parenthesis |
| `ChunkShape.CutAtIs` | packages/knowledge/src/chunk.ts:76-113 | the parts are the text between those separators, none of which begins inside a part |
| `Chunking.PiecesLoseNothing` | packages/knowledge/src/chunk.ts:76-130 | the pieces of a document hold its visible characters exactly, in order, and none is over the limit |
| `Chunking.ChunkText` | packages/knowledge/src/chunk.ts:48-74 | the flushing loop computes the specified chunks |
| `ChunkShape.ChunksArePacked` | packages/knowledge/src/chunk.ts:48-74 | the chunks are the pieces in order, packed greedily with a blank line between them, each opening with the tail of the one before |
| `ChunkShape.TailIs` | packages/knowledge/src/chunk.ts:133-138 | the tail is what stands behind the first space of the last characters, less white space; all of a text no longer than that; nothing for no overlap |
| `Chunking.ChunksFit` | packages/knowledge/src/chunk.ts:30-74 | no chunk is longer than `maxChunkLength` |
| `Chunking.ChunksOverlap` | packages/knowledge/src/chunk.ts:52-74 | every chunk after the first starts with the overlap tail of the one before |
| `Chunking.PiecesStayWhole` | packages/knowledge/src/chunk.ts:52-74 | every piece lies whole inside some chunk |
| `Chunking.ChunkTextPromises` | packages/knowledge/src/chunk.ts:30-138 | all four for any document, any target of at least one and any overlap of at least zero |
| `Resilience.SemaphoreStepKeeps` | packages/mcp/src/resilience.ts:10-62 | acquire, abort and release each keep: permits conserved, nobody waiting beside a free permit, grants then waiters in order of arrival less those who gave up |
| `Resilience.SemaphoreRunsKeep` | packages/mcp/src/resilience.ts:10-62 | that holds at every point of every interleaving, repeated releases included |
| `Resilience.Semaphore.Acquire` | packages/mcp/src/resilience.ts:19-42 | is the machine's step; grants at once exactly when a permit is free and the signal is live, taking one permit, and otherwise joins the line at its end unless the signal is dead |
| `Resilience.Semaphore.Abort` | packages/mcp/src/resilience.ts:28-32 | is the machine's step; a caller that waits leaves the line, and nothing else changes |
| `Resilience.Semaphore.Release` | packages/mcp/src/resilience.ts:44-54 | is the machine's step: the first in line gets the permit, or it becomes free; a second call does nothing |
| `Resilience.BreakerRunsCount` | packages/mcp/src/resilience.ts:80-143 | for a threshold of at least one the circuit is closed exactly while the failure count is below it, in every run |
| `Resilience.OneTrialPerSpell` | packages/mcp/src/resilience.ts:104-136 | a half-open spell admits at most one call, whatever late results arrive |
| `Resilience.CircuitBreaker.TryAcquire` | packages/mcp/src/resilience.ts:112-119 | is the machine's step; admits exactly when closed, open for the full pause, or half open without a trial in flight, and then marks the trial |
| `Resilience.CircuitBreaker.RecordFailure` | packages/mcp/src/resilience.ts:127-136 | is the machine's step; counts one failure, and opens from now exactly when half open or at the threshold |
| `ResponseCache.ClampTtl` | packages/mcp/src/cache.ts:61-66 | positive exactly for a positive number, never above it and never above ten minutes |
| `ResponseCache.KeysTellApart` | packages/mcp/src/cache.ts:48-57 | with ids free of the separator, equal keys have the same workspace, binding, owner and method |
| `ResponseCache.PrefixIsExact` | packages/mcp/src/cache.ts:134-144 | the invalidation prefix catches every key of the binding, in every scope, and no other |
| `ResponseCache.EverySlotHasOrigin` | packages/mcp/src/cache.ts:81-153 | in every run an entry was stored by an earlier operation and its binding was not wiped since |
| `ResponseCache.EveryHitIsEntitled` | packages/mcp/src/cache.ts:91-108 | in every run a hit was stored for the same binding and method, by the reader's own scope, as public, or by the workspace's scope; it is younger than its ttl and than ten minutes, and the binding was not invalidated since |
| `CacheHits.FreshEntryIsServed` | packages/mcp/src/cache.ts:81-153 | in every run what was stored is served to every entitled reader, unless in between it expired, was wiped or replaced, or as many entries as the cache holds came to stand behind it; a shared entry is served itself, one filed for its owner gives way only to a live shared one |
| `CacheHits.ReadFinds` | packages/mcp/src/cache.ts:91-108 | a read returns the live entry under the shared key, or failing that the live one under the reader's own, or nothing |
| `ResponseCache.SizeIsBounded` | packages/mcp/src/cache.ts:110-130 | with a bound of at least one the size never exceeds it |
| `ResponseCache.ScopedResponseCache.Get` | packages/mcp/src/cache.ts:91-108 | both lookups in order, dropping what has expired |
| `ResponseCache.ScopedResponseCache.Set` | packages/mcp/src/cache.ts:110-130 | is the machine's step: nothing without a ttl, the oldest entry makes room |
| `ResponseCache.ScopedResponseCache.InvalidateBinding` | packages/mcp/src/cache.ts:134-144 | removes exactly the binding's entries and counts them |
| `Cron.DueBetween` | packages/schedule/src/cron.ts:195-256 | the walk over minutes whose wall clock matches returns exactly the first of them after the walk bound, in at most cap times 1440 plus one steps |
| `Cron.DayRule` | packages/schedule/src/cron.ts:195-212 | minute, hour and month match, and some restricted day field matches or none is restricted |
| `Cron.MatchesInIsExact` | packages/schedule/src/cron.ts:228-256 | the list holds exactly the matching minutes of the window, strictly increasing |
| `Cron.DueMinutesAreTheFirst` | packages/schedule/src/cron.ts:195-256 | what is listed are whole minutes of the window that match, strictly increasing, at most the cap and one for a cap below one; a matching minute not more than the cap in days before the end is left out only once so many were listed before it |
| `Cron.SplittingLosesNothing` | packages/schedule/src/cron.ts:228-256 | a window within reach that holds at most the cap of matches, split anywhere, lists the same minutes |
| `Cron.ResumingLosesNothing` | packages/schedule/src/cron.ts:228-256 | asking again from the last minute given lists every match from the walk's start on |
| `Cron.ResumingListsTheWindow` | packages/schedule/src/cron.ts:228-256 | within reach that is every match of the window, each exactly once, in order |

## Left out

- MongoDB itself: each driver call is one atomic step over the document or the log; status writes by other repositories, such as cancellation, are not steps of the model.
- Tokens are fresh by assumption, and so are the ids and sequence numbers the message store assigns; a model gives the calls of one reply different ids and no results.
- `findOrphanedQueued`, tracing, metrics and logging: they decide nothing.
- Budget totals across a slice: each step rebuilds its meter from the same context, and the budget store is not part of this model, so a step's budget check is an input.
- The event stream is assumed to carry every insert made after it was opened, in order, and the writer to insert in seq order.
- Other writers of the conversation during one step: a step has the store to itself.
- `prefixIsPreserved` compares values where the source compares their canonical texts; `CanonicalJson.CanonicalIffSame` says when those agree.
- Rendering the fingerprint in hexadecimal, and collisions of the hash.
- Numbers other than integers, integers of 1e21 and more (which print in exponent form), dates, `toJSON` and negative zero in canonical JSON.
- Deflate, the checksum and UTF-8: parameters of the archive model, with the inverse laws as hypotheses (for ASCII names UTF-8's is proved).
- Search stages in pipelines: the analysis of them is modelled, their meaning is not, so the confinement theorem speaks of filters and leading matches. Commands the analysis does not know pass unread.
- Fields explicitly set to undefined in filters and inserted documents, array-valued workspace ids, and collations, under which equal need not mean identical.
- The scoped change stream, the platform handle and the guard's reporting mode: only easy members would follow.
- Chunking.ChunkText: for a target below one the cutting loop does not terminate, so the model asks for at least one; the index of a chunk is its position.
- The wording of the exhausted run's error and the heading put before a summary are abbreviated or left to the summary given.
- ToolPhase.Run: asks for at least one parallel call, since the batch loop does not advance with none, and for distinct call ids; the wording of refusals is abbreviated.
- Wall-clock fields in a time zone and the parsing of cron expressions: the clock is a parameter, and parsing would only add easy members.
- Resilience.Semaphore.constructor: the refusal of fewer than one permit is a precondition.
- The time-out wrapper around outbound calls, and the choice of scope for a binding.
- In-place update of the message array, of the loop detector's window and of the cache's map is modelled by reassigning a sequence, without aliasing.
