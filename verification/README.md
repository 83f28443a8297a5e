# Verified model of the MACP control plane's ingest pipeline

The control plane observes a MACP runtime: it ingests each session's envelope stream, keeps an event
log and a cached projection of it, drives one status row per run from many places at once, and serves
readers while all of that goes on. This project models that pipeline in Dafny and proves what it
promises over whole runs: every log, every interleaving, every sequence of runtime answers.

| part | modules |
|---|---|
| Resumable ingest (section 3.2 of RFC-MACP-0006) | `Ingest`, `ConsumeLoop`, `IngestLoop`, `FrameQueue` |
| Event log and cached projection | `Tables`, `Transactions`, `Interleaving`, `Cache`, `Rebuild`, `RebuildKinds`, `StoredProjection` |
| The reducer and its invariants | `Events`, `Projection`, `Branches`, `Batching`, `Finality`, `Windows`, `Quorum`, `ActorLaws`, `EdgeLaws`, `Summaries`, `RunLaws`, `Words`, `DecisionLaws`, `PolicyLaws`, `SignalLaws`, `MessageLaws` |
| Run lifecycle and discovery | `Lifecycle`, `Discovery` |
| Readers | `Replay`, `Paging`, `Sse`, `SseHandoff`, `Breaker`, `ListSessions`, `Drift` |
| Closed-key walk (section 4 of RFC-MACP-0012) | `KeyShapes`, `KeyAdmission`, `VendorKeys` |

How the parts fit. `Interleaving` runs any number of transactions statement by statement under the
`runs` row lock and proves them serializable; that is why `Cache` may reason about histories of
atomic transactions and `Ingest` about atomic commits. `Cache` is generic in the reducer, asking only
that batches compose; `Batching` proves that of the real one, and `StoredProjection` puts the two
together; `Transactions` keeps the result as the invariant of the service object. `IngestLoop` shows
that what the consume loop does with a subscription is a run of the ingest protocol. `Replay` and
`SseHandoff` read the log that `Cache` proves sorted. `ListSessions` drives the breaker of `Breaker`,
and `Drift` reads what it returns.

Modelling choices:

- The database is the rows of one run; a transaction commits and returns, or rolls back and throws.
  The runtime's history is an append-only sequence with a compaction base.
- The normalizer is an arbitrary list of draft events handed to each transaction. Redis, gRPC,
  clocks, timeouts and failures are parameters or free choices of the environment.
- JSON event data is a record of the properties the reducer reads, absent meaning `None`; alternative
  snake_case spellings of one property are one field. Timestamps are ordered integers.
- The reducer is specified column by column, with each column's dependencies in its signature.
  `Branches` holds the branches that loop (touches, edges, ballots, tallies) as the source writes
  them, and `Batching.ApplyEvents` the loop over events and the switch; all are proved against the
  column steps. What those steps come to is then said of whole logs in terms of the events' own data:
  run (`RunLaws`), decision (`Finality`, `DecisionLaws`), policy (`PolicyLaws`, `Quorum`), signals and
  the other lists (`SignalLaws`, `Windows`), participants and nodes (`MessageLaws`, `ActorLaws`), edges
  (`EdgeLaws`), trace (`Summaries`), with the words they turn on in `Words`.

## What the code does that its comments do not say

Each of these is a lemma, with the exact condition where there is one.

- `applyEvents` takes the run id from the state the batch began with (`current.run.runId`), so cutting
  a log into batches is invisible exactly when that id is set (`Batching.BatchingInvisibleIffRunIdSet`).
  Every stored projection starts from `empty(runId)`, where it is.
- The upsert does not store `llm` and `outboundMessages`, so the state a batch returns counts that
  batch alone (`Batching.UnstoredTotalsRestartEachBatch`).
- A rebuild casts rows instead of converting them: subject and trace are gone. One event folds as it
  did live exactly when it has no subject, no span and no new trace id (`Rebuild.StripInvisibleIff`);
  over all logs of a kind of events nothing is lost exactly when no event of the kind has a subject, a
  span or a trace id (`RebuildKinds.AllSurviveIff`). Column by column: the timeline, the trace ids and
  the signal ids each have their own exact condition for every log; the signals with their
  acknowledgements and the linked artifacts have one for every kind of events
  (`RebuildKinds.SignalsSurviveIff`, `RebuildKinds.ArtifactsSurviveIff`); and the core columns (run,
  participants, graph, decision, progress, policy, counters) agree as long as no rebuilt event fell
  back to its subject, which is exact event by event and for every kind (`Rebuild.CoreAgreesOnOneIff`,
  `Rebuild.CoreSurvivesIff`).
- A decision finalized a second time without a `supersedes` reference keeps the first one's
  (`Finality.SupersedesIsCurrentIff`).
- A session first met through a snapshot gets a run marked running whatever its state. Until the stream
  consumer it starts finalizes it, the status is right exactly when the session is open, and a second
  snapshot puts it right; once finalized, exactly when that was the session's way
  (`Discovery.FirstSnapshotRightIff`). A consumer shown only its session's own state goes wrong exactly
  when it gave up on a session that had not expired (`Discovery.RightUnlessTheConsumerGaveUp`).
- Without a `runtime_sessions` row, a recovery ingests the stream again from the start
  (`Ingest.ExactlyOnceIffBound`).
- Several markers of one kind can each log the terminal event of a run: it can be logged n times exactly
  when at least n markers for that status were past their first read as the run ended
  (`Lifecycle.CanLogIff`), so at most once exactly when at most one was (`Lifecycle.LogsOnceIff`).
- A participant that goes by the id of a lifecycle node (`__start` and the like) loses its mirror in the
  graph exactly when that node is promoted past it, or when it is declared after the node
  (`ActorLaws.UpsertHarmsIff`, `ActorLaws.DeclareHarmsIff`).
- When the idle timeout gives up on a subscription, the iterator's `return` cancels the call but wakes
  nobody: the pull still asleep is left to a callback of the cancelled call or an abort
  (`FrameQueue.Subscription.Return`).
- An evaluation that allows reaches the quorum even after a failed end or a negative commitment; nothing
  else reopens it (`PolicyLaws.QuorumOfTheLog`).
- Inside the reset window the breaker admits a call exactly when the failures since the last success or
  reset no longer reach the threshold; a success that was in flight when it opened is enough, in every
  configuration (`Breaker.AdmittedIff`, `Breaker.LateSuccessReopens`).
- The SSE high-water mark loses events when the hub publishes out of order: nothing is missed exactly
  when what is new to the subscriber is published in ascending order (`SseHandoff.NothingMissedIff`).
- The wildcard policy refuses what a mode admits wherever that mode leaves open a position that
  another closes (`KeyAdmission.ModeWithinWildcardIff`).

## Model

| member | source | states |
|---|---|---|
| `Ingest.StepKeeps` | src/runs/stream-consumer.service.ts:641-708 | Every single step (deliver, commit, abort, disconnect, resubscribe, gap, poll, crash, recover, bind, compaction, other writers) keeps: stored session-stream envelopes = first `last_envelope_ordinal` of the runtime history; in-memory ordinal = stored one; queued frames = the next stretch of history |
| `Ingest.ExactlyOnce` | src/runs/stream-consumer.service.ts:415-529 | The same over every finite run from any state where it holds: no envelope twice, missing or out of order |
| `Ingest.ExactlyOnceIffBound` | src/runs/run-recovery.service.ts:97-170 | From the start of a run, the stored envelopes are always a prefix of history if and only if the run has a session row |
| `Ingest.PersistStores` | src/events/run-event.service.ts:120-160 | A committed raw event adds exactly its own envelope, if it came from the session stream, and nothing else |
| `Ingest.OthersStoreNothing` | src/runs/signal-consumer.service.ts:145-165 | Control-plane events, rebuilds and ambient signals change neither the stored stream envelopes nor the ordinal |
| `Ingest.IngestedTwice` | src/storage/runtime-session.repository.ts:51-73 | A concrete unbound run whose one envelope is stored twice |
| `ConsumeLoop.Consume` | src/runs/stream-consumer.service.ts:396-593 | Terminates; with k envelopes stored at most maxRetries*(k+1) resubscribes and maxRetries+1 polls; what it stored is the stretch of history the ordinal moved over; how every subscription and the polling went, as above; a normal exit leaves the marker aborted or finalized; the run is finalized as some frame or poll reported, or as failed after the last of maxRetries+1 polls, or not at all |
| `ConsumeLoop.StreamPhase` | src/runs/stream-consumer.service.ts:429-529 | Each subscription asks for what follows the last stored envelope and is read as far as above; the loop goes on exactly while they end without a gap, resuming is on and retries are left; it comes to polling only on a gap, without resuming, out of retries or when subscribing throws; it finalizes the run only as a frame reported and dies only of that or of a stop |
| `ConsumeLoop.SmoothStoresAll` | src/runs/stream-consumer.service.ts:429-529 | When every frame commits and nothing throws, a streaming phase that was not stopped has stored every envelope of every subscription it opened, in order, and nothing else |
| `ConsumeLoop.ReadSubscription` | src/runs/stream-consumer.service.ts:433-491 | One subscription: of the frames read, all committed, the envelopes are stored and the ordinal has moved over exactly them. Unless the marker died, it is read until there are no more frames, the next does not commit, or the last threw after its commit; the outcome is a gap exactly if what stopped it says so; only an envelope handled to the end resets the retry budget; and it returns exactly when the marker is dead |
| `IngestLoop.SubscriptionIsRun` | src/runs/stream-consumer.service.ts:429-529 | Every subscription the loop reads, ended by itself or by an aborted transaction, is a run of the ingest protocol from idle to idle that stores the same envelopes and leaves the same ordinal |
| `IngestLoop.ReadIsRun` | src/runs/stream-consumer.service.ts:433-491 | What the loop reports of a subscription, the protocol does: a run to the ordinal reached, with exactly the history up to it stored |
| `ConsumeLoop.PollPhase` | src/runs/stream-consumer.service.ts:531-593 | Polls until one settles the run and finalizes it as that one says; or as failed after exactly maxRetries+1 that settled nothing; or stops unsettled only because of a stop or because reporting the retry threw |
| `ConsumeLoop.Start` | src/runs/stream-consumer.service.ts:120-255 | Whatever escapes the loop, the marker ends aborted or finalized, and the run finalized as reported or as failed because the polls ran out or an error escaped |
| `ConsumeLoop.ActiveStream.HandleRawEvent` | src/runs/stream-consumer.service.ts:641-708 | An opened frame connects the marker; only on commit does the ordinal move, by one for an envelope, and the processed mark become the maximum of the emitted seqs; a terminal state finalizes, as the frame reports it; an abort always throws |
| `ConsumeLoop.ActiveStream.FinalizeRun` | src/runs/stream-consumer.service.ts:269-294 | Flags are set before the fallible status write, which is attempted once, with the first mark given |
| `FrameQueue.Subscription.OnData` | src/runtime/rust-runtime.provider.ts:318-374 | Appends exactly the accepted frames: inline errors and envelopes of the subscribed session; wakes a sleeping consumer when there is one |
| `FrameQueue.Subscription.Next` | src/runtime/rust-runtime.provider.ts:425-450 | Hands frames over in order; ends or throws only when everything accepted has been handed over; sleeps only with nothing to do |
| `FrameQueue.Subscription.Launched` | src/runtime/rust-runtime.provider.ts:303-316 | A call made after the stream was ended is cancelled at once |
| `FrameQueue.Subscription.Abort` | src/runtime/rust-runtime.provider.ts:467-477 | Leaves no running call and no sleeping consumer, whenever it comes |
| `FrameQueue.Subscription.Return` | src/runtime/rust-runtime.provider.ts:449-460 | The consumer stopping early, with a pull asleep or not (idle timeout), leaves no running call, and one not made yet will be cancelled; it wakes nobody, so a sleeper waits for a callback of the cancelled call or an abort |
| `FrameQueue.EnvelopesInOrder` | src/runtime/rust-runtime.provider.ts:354-374 | The envelopes accepted are exactly those sent for the session, in order |
| `Tables.AtomicIsProgram` | src/events/run-event.service.ts:81-158 | Issued one by one, a transaction's statements have exactly its atomic effect on every table |
| `Tables.GuardSays` | src/storage/projection.repository.ts:28-62 | An unforced write of a projection lands only on a lower version, a forced one always |
| `Transactions.RunEmit` | src/events/run-event.service.ts:81-93 | The statements issued one by one, any of which may throw, have the atomic effect of the transaction or leave nothing to commit |
| `Transactions.RunPersist` | src/events/run-event.service.ts:142-158 | The same for an ingest, with the resume ordinal written last |
| `Transactions.RunEventService.EmitControlPlaneEvents` | src/events/run-event.service.ts:61-98 | Whichever statement throws: on commit the returned events are the drafts with the run's id and the next seqs, each stored under its seq with all the draft says, earlier rows untouched, and the log grows by exactly them; otherwise nothing; and seqs, stored rows and cached projection still agree with the log |
| `Transactions.RunEventService.PersistRawAndCanonical` | src/events/run-event.service.ts:120-165 | The same for the drafts of an ingest; and on commit the raw row lies under the next seq and the resume ordinal and stream cursor are the greater of old and new, all together or not at all |
| `Transactions.RunEventService.RebuildProjection` | src/events/run-event.service.ts:106-112 | On commit the stored row is the fold of the whole log as rows are cast, with the log's last seq as version, and nothing else changed; otherwise nothing did |
| `Interleaving.Serializable` | src/storage/run.repository.ts:102-124 | At every point of every statement-level interleaving under the row lock, the committed tables are those of the committed transactions run one after another in commit order |
| `Interleaving.LostWithoutTheLock` | src/storage/projection.repository.ts:28-62 | Without the lock a concrete run commits two events and the version guard drops one of them from the stored row |
| `Cache.EmitConserves` | src/storage/run.repository.ts:102-114 | A control-plane batch keeps seqs exactly 1..last with raw and canonical disjoint, and lands last in seq order |
| `Cache.PersistConserves` | src/events/run-event.service.ts:126-158 | The same for an ingest batch with its raw row |
| `Cache.InsertFresh` | src/storage/event.repository.ts:43-68 | Fresh consecutive seqs never meet a stored one, so `onConflictDoNothing` discards no row |
| `Cache.ApplyAgrees` | src/projection/projection.service.ts:68-94 | A normal write on an agreeing cache leaves it agreeing: the version guard never drops a batch that carries something new |
| `Cache.RebuildKeepsCache` | src/projection/projection.service.ts:559-577 | A rebuild leaves version and fold matching the committed log, read as rows are cast |
| `Cache.HistoryOk` | src/events/run-event.service.ts:81-112 | Seq conservation, log order and cache agreement along every history of commits and rebuilds |
| `Cache.CacheAgreesUnderInterleaving` | src/events/run-event.service.ts:61-160 | All of that at every point of every interleaving of committing and aborting transactions, for any reducer whose batches compose |
| `StoredProjection.ReducerLawful` | src/projection/projection.service.ts:96-117 | The real reducer is such a reducer, on the nine stored columns as reloaded from the row |
| `StoredProjection.StoredProjectionAgrees` | src/storage/projection.repository.ts:28-62 | At every point of every interleaving the stored columns are the plain fold of `applyEvents` over the committed log as last rebuilt, version, latestSeq and totalEvents match it, and after a rebuild the core columns are still the plain fold unless a rebuilt event fell back to its subject |
| `Batching.ApplyEvents` | src/projection/projection.service.ts:96-548 | The loop and switch compute the column-wise fold, whose columns the rows below read off the log |
| `RunLaws.RunOfTheLog` | src/projection/projection.service.ts:128-221 | For every log, the run column in terms of its events alone: the status is the last one named (by a lifecycle event, a resolved, expired or cancelled session, or a commitment), turned by sessions seen suspended or open since unless it is terminal; every other field the latest one named by the right kind of event; the gap flag set exactly when a gap is logged |
| `RunLaws.StatusOfTheLog` | src/projection/projection.service.ts:133-221 | The status half, for every log and run id |
| `Branches.ReceiveMessage` | src/projection/projection.service.ts:263-317 | The received-message branch with its loops over recipients takes exactly the step of participants, nodes and edges |
| `Branches.TouchParticipant` | src/projection/projection.service.ts:689-722 | Find-or-add and the terminal guard, statement by statement, are one touch |
| `Branches.TouchEach` | src/projection/projection.service.ts:286-286 | The loop over recipients touches them in order |
| `Branches.UpsertEach` | src/projection/projection.service.ts:671-687 | The loop over recipients upserts each edge in place or at the end |
| `Branches.PushEach` | src/projection/projection.service.ts:242-246 | The loop over recipients pushes an edge for each named one |
| `Branches.Propose` | src/projection/projection.service.ts:350-413 | A proposal, counting ballots in a loop, takes exactly the decision's step |
| `Branches.Finalize` | src/projection/projection.service.ts:421-451 | A commitment takes exactly the decision's step |
| `Branches.BumpVoteTally` | src/projection/projection.service.ts:598-627 | Find-or-add and recount, statement by statement, bump exactly one entry and reopen nothing |
| `Batching.BatchesCompose` | src/projection/projection.service.ts:96-104 | Applying a log in pieces is applying it whole, once the run id is set |
| `Batching.BatchingInvisibleIffRunIdSet` | src/projection/projection.service.ts:133-136 | Batching is invisible for all logs if and only if the starting state's run id is non-empty |
| `Batching.OutboundTotals` | src/projection/projection.service.ts:247-262 | Outbound totals count exactly the outbound events of the folded log |
| `Batching.LlmTotals` | src/projection/projection.service.ts:489-524 | Calls, prompt, completion and total tokens and cost are the sums over exactly the LLM events that carry a payload |
| `Batching.UnstoredTotalsRestartEachBatch` | src/storage/projection.repository.ts:37-49 | The stored columns cover the whole log, the two unstored ones only the last batch; equal to the whole exactly when the earlier log held no such event |
| `Finality.DecisionFinality` | src/projection/projection.service.ts:350-463 | Over every event sequence: finalized exactly when it was or some `decision.finalized` arrived; action, outcome, reasons, resolver, time and the rest of the ruling are those of the last one |
| `Finality.SettledKept` | src/projection/projection.service.ts:390-413 | Nothing but another finalization changes a settled ruling |
| `Finality.SupersedesSticks` | src/projection/projection.service.ts:434-451 | `supersedes` is the last reference any finalization carried |
| `Finality.SupersedesIsCurrentIff` | src/projection/projection.service.ts:434-451 | It is the last finalization's own if and only if that one carries a reference or none before did |
| `Finality.ContributionWindow` | src/projection/projection.service.ts:378-412 | The contribution table is the last 50 contributions, before and after finalization |
| `DecisionLaws.DecisionOfTheLog` | src/projection/projection.service.ts:144-149 | There is a decision exactly when a proposal, a commitment or a prompt is logged; its prompt is the latest; before any commitment it is named and reasoned after the latest proposal; its contributions are the last 50 |
| `DecisionLaws.ConfidenceOfTheLog` | src/projection/projection.service.ts:378-436 | At every event of every log: an open decision's confidence is the share of approvals among the votes so far, else what the proposal names, else unchanged; a commitment's is what it names, else that share, else unchanged; nothing else touches it; and a commitment settles the proposal it names, else the open one |
| `Words.ContributionSays` | src/projection/projection.service.ts:350-376 | A proposal's contribution field by field: its action the first non-empty of vote word, named action, message type and a default, its reasons the non-empty ones given, confidence 1 for a bare vote, implicit exactly when marked |
| `Words.VoteIff` | src/projection/projection.service.ts:814-827 | A message votes to allow or deny by exactly four words each, in any case, and failing both by its type |
| `Words.RatioIsShare` | src/projection/projection.service.ts:383-389 | The aggregate is approvals over votes, and none without votes |
| `Words.FinalSays` | src/projection/projection.service.ts:421-451 | A commitment's action and reason as named or by default; its outcome as named, else what its action says |
| `Words.OutcomeIff` | src/projection/projection.service.ts:847-852 | Which actions count as positive and which as negative, in any case |
| `Words.ReferenceSays` | src/projection/projection.service.ts:759-766 | The reference a commitment carries, none when both its parts are empty, and canonical exactly when it is `sha256:` and 64 lower-case hexadecimal digits |
| `Windows.TimelineWindow` | src/projection/projection.service.ts:105-117 | latestSeq and totalEvents are exact and `recent` is the last 50 events of the log |
| `Windows.EvictionCommutesIff` | src/projection/projection.service.ts:337-349 | Acknowledging commutes with eviction unless the acknowledgement names an evicted signal whose id one in the window reuses |
| `Windows.SignalWindow` | src/projection/projection.service.ts:318-349 | With distinct signal ids the stored list is the last 200 of the unbounded acknowledged list |
| `Windows.StoredWindows` | src/projection/projection.service.ts:105-117 | Both windows for the projection of a run |
| `SignalLaws.SignalsOfTheLog` | src/projection/projection.service.ts:318-349 | With distinct signal ids, the k-th signal is what the k-th emitting event says, acknowledged when and by whom the latest acknowledgement after it that names it says |
| `SignalLaws.ListsOfTheLog` | src/projection/projection.service.ts:105-117 | Timeline, progress, LLM calls and signals of a run's projection: the last 50, 100, 100 and 200 of what their events say, field by field |
| `Quorum.QuorumOnlyRises` | src/projection/projection.service.ts:153-159 | Over every event sequence the quorum status only moves up: unset, pending, failed, reached |
| `Quorum.TallyCountsTheLog` | src/projection/projection.service.ts:598-627 | Entries have distinct commitments and cast = allow + deny; per commitment and in total the counts are the numbers of vote-bearing events of the log |
| `Quorum.BumpEntryFor` | src/projection/projection.service.ts:598-612 | A vote adds one to its own commitment and nothing to any other |
| `PolicyLaws.QuorumOfTheLog` | src/projection/projection.service.ts:153-200 | For every log, exactly: reached once any evaluation allows; otherwise decided by the first failed or cancelled end or commitment; otherwise pending once there is a vote or an expectation; otherwise unset |
| `PolicyLaws.PolicyOfTheLog` | src/projection/projection.service.ts:478-547 | For every log: version, description and expected commitments are the latest, resolved by the latest policy event or else the first commitment, the outcome is the last commitment's, the evaluations are the last 50 |
| `PolicyLaws.VoteRequires` | src/projection/projection.service.ts:613-622 | A vote sets what its commitment requires: the voters, or everybody if there are none, with half of that rounded up as the threshold |
| `ActorLaws.StepKeeps` | src/projection/projection.service.ts:228-317 | One event keeps participants distinct and mirrored by one node each of the same status, keeps their ids apart from the lifecycle nodes', and demotes no lifecycle node, as long as it does not use one id for both |
| `ActorLaws.MirrorAlways` | src/projection/projection.service.ts:654-722 | The same over every event sequence and any set of lifecycle ids: as long as no id is used both for a participant and for a lifecycle node that the log brings in, every participant is mirrored |
| `ActorLaws.UpsertHarmsIff` | src/projection/projection.service.ts:654-669 | Bringing in a lifecycle node breaks the mirror if and only if a participant goes by its id and ranks below it |
| `ActorLaws.DeclareHarmsIff` | src/projection/projection.service.ts:228-235 | Declaring a participant breaks the mirror if and only if it is new and a node already goes by its id |
| `ActorLaws.SweepTerminal` | src/projection/projection.service.ts:629-652 | The in-place loop computes the sweep |
| `ActorLaws.SweepLaws` | src/projection/projection.service.ts:629-652 | A sweep ends everyone, leaves ended ones alone, is idempotent, and fails at most one participant, only on failure, one with the latest activity |
| `ActorLaws.NoReactivation` | src/projection/projection.service.ts:689-722 | While the projected run status stays terminal, an ended participant keeps its status |
| `MessageLaws.MessageSays` | src/projection/projection.service.ts:236-290 | What a message does to each participant: those it is to wait, its sender is active under its name, all seen at its time, unless they and the run have ended; nobody else is touched and everybody keeps their place |
| `MessageLaws.EndSays` | src/projection/projection.service.ts:629-652 | What an end does to each participant: finished ones stay, never-active ones are skipped, the others are completed, except that a failure or expiry fails the one active last (the last of several); and no event but ends, messages and sightings touches anybody |
| `MessageLaws.SeenSays` | src/projection/projection.service.ts:228-235 | A sighting adds a participant idle unless it is there |
| `MessageLaws.LifecycleSays` | src/projection/projection.service.ts:291-315 | Which nodes a received message brings in, added or promoted where they stand, and that it changes no other but its participants' |
| `Summaries.TraceSummarizes` | src/projection/projection.service.ts:119-125 | Span count, latest trace and span id, and each artifact of the log listed once |
| `Summaries.IdsNamed` | src/projection/projection.service.ts:119-125 | The trace and span ids an event names, an empty one counting as none |
| `Summaries.ProgressWindow` | src/projection/projection.service.ts:464-476 | The progress list is the last 100 reports |
| `EdgeLaws.ReceivedRedraws` | src/projection/projection.service.ts:263-316 | A received message redraws exactly its list of edges, and the last 300 are kept |
| `EdgeLaws.SentAdds` | src/projection/projection.service.ts:241-247 | A sent message appends an edge to each recipient it names, and the last 200 are kept |
| `EdgeLaws.RedrawSpec` | src/projection/projection.service.ts:671-687 | Whatever was there: edges already there keep their place and take the new time if drawn, the others drawn are appended once each, every drawable one is there, and nothing else changes |
| `EdgeLaws.EdgesFromTheLog` | src/projection/projection.service.ts:236-317 | Every edge of the graph was drawn by an event of the log, with that event's time |
| `Summaries.SummariesOfTheLog` | src/projection/projection.service.ts:96-126 | These together for the projection of a run |
| `Replay.ReadBackInvisibleIff` | src/replay/replay.service.ts:91-131 | Storing an event and reading it back is invisible to the reducer if and only if it has no subject with an empty id |
| `Replay.ReadBackIs` | src/replay/replay.service.ts:91-131 | What reading a stored event back gives, field by field: all of it, but for a subject with an empty id, an absent trace, the schema version and the renamed source kind |
| `Replay.StateAtIsWhatWasStored` | src/replay/replay.service.ts:85-89 | For every history with rebuilds anywhere, and whatever commits later: the state at a batch's last seq is the row stored when that batch committed, on all stored columns if no rebuild had read any event by then, otherwise on the core columns unless a rebuilt event falls back to its subject |
| `Replay.RowsSettled` | src/storage/event.repository.ts:242-249 | Later transactions never change what is listed up to an earlier seq |
| `Replay.LogIsSorted` | src/storage/event.repository.ts:242-249 | On every history the stored rows are in strict seq order |
| `Rebuild.StripInvisibleIff` | src/events/run-event.service.ts:106-112 | A rebuild folds an event as the live fold does if and only if it has no subject, no span, and no trace id other than the one recorded |
| `Rebuild.CoreAgreesOnOneIff` | src/events/run-event.service.ts:106-112 | A rebuilt one-event log agrees on the core columns if and only if the event takes no fallback to its subject |
| `Rebuild.RebuildAgreesOnCore` | src/events/run-event.service.ts:106-112 | A rebuild followed by live batches agrees with the live fold on run, participants, graph, decision, progress, policy and counters, for every log whose rebuilt events take no fallback to the subject |
| `Rebuild.CoreSurvivesIff` | src/events/run-event.service.ts:106-112 | For any kind of events: a rebuild, with any live batches after it, is safe for the core columns of every log of that kind if and only if no event of that kind falls back to its subject |
| `Rebuild.TimelineRebuiltIff` | src/events/run-event.service.ts:106-112 | For every log, the timeline survives a rebuild if and only if none of its last 50 events has a subject |
| `Rebuild.TraceRebuiltIff` | src/events/run-event.service.ts:106-112 | For every log, trace and span ids survive a rebuild if and only if the log has none |
| `Rebuild.SignalsRenamedIff` | src/events/run-event.service.ts:109-110 | For every log, the ids of the signal list survive a rebuild if and only if none of the last 200 signals is named by its subject rather than its event id |
| `RebuildKinds.AllSurviveIff` | src/events/run-event.service.ts:106-112 | For any kind of events: every column of every log of that kind survives a rebuild, with anything applied live after it, if and only if no event of that kind has a subject, a span or a trace id |
| `RebuildKinds.SignalsSurviveIff` | src/events/run-event.service.ts:106-112 | For any kind of events: the signal list with its acknowledgements survives a rebuild of every log of that kind, with anything applied live after it, if and only if no signal is renamed and no acknowledgement finds or misses its signal through its subject |
| `RebuildKinds.ArtifactsSurviveIff` | src/events/run-event.service.ts:106-112 | For any kind of events: the linked artifacts of every log of that kind survive a rebuild, with anything applied live after it, if and only if no artifact of that kind is named otherwise by its subject |
| `Paging.QueryIsSlice` | src/storage/event.repository.ts:70-77 | A page is the slice right after the cursor, and only a short one reaches the end |
| `Paging.Stream` | src/replay/replay.service.ts:33-83 | For every batch size, and with transactions committing between fetches, the replay emits exactly the events of the range stored at its last fetch, in order, each once |
| `Paging.Drain` | src/storage/event.repository.ts:220-240 | The cursor loop over a growing log ends, having emitted exactly the rows of the range stored at its last fetch, in order, each once |
| `Paging.RangeSettled` | src/replay/replay.service.ts:47-51 | Once the log has reached the end of a range, later commits add nothing to it |
| `Sse.Connection.OnMessage` | src/controllers/runs.controller.ts:226-244 | Buffers before the backfill is done, afterwards emits exactly what is newer than the high-water mark |
| `Sse.Connection.OnPage` | src/controllers/runs.controller.ts:268-277 | Emits a page's events above the high-water mark |
| `Sse.Connection.Flush` | src/controllers/runs.controller.ts:283-294 | Empties the buffer into the stream under the same rule and goes live |
| `Sse.EmissionRises` | src/controllers/runs.controller.ts:217-294 | Whatever arrives in whatever order, emitted seqs strictly increase and stay above `afterSeq` |
| `Sse.LosesNothingIff` | src/controllers/runs.controller.ts:231-240 | For every subscriber and every message sequence, exactly the new messages are sent, once each and in arrival order, if and only if they arrive in strictly ascending order |
| `SseHandoff.NothingMissedIff` | src/controllers/runs.controller.ts:217-294 | For every interleaving of commits, publications in any order and backfill pages: live with everything published, every event after the named seq was sent, once and in order, if and only if `afterSeq > 0` or nothing had been published before it joined, and what was new to it when it went live is published in ascending order |
| `SseHandoff.HandoffComplete` | src/controllers/runs.controller.ts:262-294 | With publication in seq order: at every moment exactly the events between floor and high-water mark were sent, once each and in order; live and caught up, all of them |
| `SseHandoff.ReversedPublicationDrops` | src/events/run-event.service.ts:185-223 | A run, for every starting seq, in which two commits are published in reverse and the first is never sent |
| `Lifecycle.ValidFrom` | src/storage/run.repository.ts:126-129 | Collects exactly the statuses whose table entry lists the target |
| `Lifecycle.TableSays` | src/storage/run.repository.ts:12-23 | What the table admits: the start-up order, pause and resume, completion only from running or suspended, failure and cancellation from every status that is not terminal |
| `Lifecycle.FirstReadSays` | src/runs/run-manager.service.ts:241-403 | Which runs each marker gives up on at its first read: ended ones, for a pause also paused ones, for a resumption all but paused ones; start-up markers do not look |
| `Lifecycle.RunRepository.TransitionTo` | src/storage/run.repository.ts:126-148 | Updates exactly when the table admits it, setting the target status, the start on a start and the end on an end; otherwise the row is untouched and the result says whether it was already there |
| `Lifecycle.LifecycleSafe` | src/runs/run-manager.service.ts:241-403 | For any number of interleaved markers: the status path follows the table, a terminal row never changes, `endedAt` is present exactly on terminal rows and written once, terminal events match the row |
| `Lifecycle.NoStageSkipped` | src/runs/run-manager.service.ts:241-403 | However markers interleave, a run has been through the stage before the one it is in, so no stage of start-up is skipped |
| `Lifecycle.TerminalAbsorbs` | src/storage/run.repository.ts:12-23 | From the first terminal state on, the row is constant |
| `Lifecycle.OneTerminalKind` | src/runs/run-manager.service.ts:241-302 | Any two terminal events of a run agree with each other and with the row in kind and end time |
| `Lifecycle.CanLogIff` | src/runs/run-manager.service.ts:241-403 | From the step that ends a run, its terminal event can be logged n times if and only if at least n markers for that status are then past their first read: never more often, and every one of them can be driven to its log |
| `Lifecycle.LogsOnceIff` | src/runs/run-manager.service.ts:241-403 | So however the run goes on it is logged at most once, if and only if at most one such marker is there |
| `Lifecycle.DuplicateTerminalEvents` | src/runs/run-manager.service.ts:370-403 | A run from the queued row in which two markers of one kind both log |
| `Discovery.SessionDiscovery.ConsumeWatchStream` | src/runs/session-discovery.service.ts:100-133 | What was handled leaves every run tracking its own session: for every way to read its events as moments of the session (lost ones included) a driven run is driven or rightly ended, and in step after a snapshot or when nothing was lost; a run not driven ignores snapshots, and one not yet running ends only by expiry or cancellation; an unseen session's first snapshot makes its run; the watch stops only at a pause or resolution of a run not yet running |
| `Discovery.WatchIsRun` | src/runs/session-discovery.service.ts:111-157 | Handling the delivered events and snapshots of a session does to its run what the lossy watch below says |
| `Discovery.LossyWatchConverges` | src/runs/session-discovery.service.ts:111-157 | Whatever was lost, one snapshot gives a driven run the status its session's state means, the one a lossless watch would have given; a second changes nothing |
| `Discovery.NeverAstray` | src/runs/session-discovery.service.ts:211-275 | Along every lossy watch a run is driven or rightly ended |
| `Discovery.FirstSnapshotRightIff` | src/runs/session-discovery.service.ts:135-199 | A newly discovered session's run, for every way the consumer it starts may have finalized it: right if and only if that was the session's way, or it has not and the session is open; right after a second snapshot if and only if it has not finalized it otherwise |
| `Discovery.RightUnlessTheConsumerGaveUp` | src/runs/stream-consumer.service.ts:570-580 | With any consumer outcome `ConsumeLoop.Start` allows, shown only terminal states of its own session: right after a second snapshot if and only if the consumer did not give up, or the session had expired |
| `Breaker.CircuitBreaker.GetState` | src/runtime/circuit-breaker.ts:60-71 | Half-opens exactly when open and the reset timeout has passed |
| `Breaker.CircuitBreaker.RecordTransition` | src/runtime/circuit-breaker.ts:53-58 | Appends unless the state repeats, and keeps the last 200 |
| `Breaker.CircuitBreaker.OnSuccess` | src/runtime/circuit-breaker.ts:93-107 | Closes and forgets all failures |
| `Breaker.CircuitBreaker.OnFailure` | src/runtime/circuit-breaker.ts:109-126 | Counts, and opens at the threshold |
| `Breaker.CircuitBreaker.Reset` | src/runtime/circuit-breaker.ts:132-139 | Closes and forgets all failures |
| `Breaker.ClosedIffBelowThreshold` | src/runtime/circuit-breaker.ts:73-126 | Under any overlap of calls and for any threshold: the counter is the failures since the last success or reset, and the breaker is closed if and only if that is zero or below the threshold |
| `Breaker.HistoryIsTheTrace` | src/runtime/circuit-breaker.ts:53-58 | The ring is the last 200 of the true transition trace with times and reasons, ends in the current state, repeats none, and never goes from CLOSED straight to HALF_OPEN |
| `Breaker.AdmittedIff` | src/runtime/circuit-breaker.ts:60-126 | Over every run, a call is admitted if and only if the failures since the last success or reset are none or below the threshold, or the last failure is the reset timeout ago or longer |
| `Breaker.AdmittedEarlyIff` | src/runtime/circuit-breaker.ts:60-126 | Within the reset timeout of a failure that left it open, a call is admitted if and only if the failures since the last success or reset are none or below the threshold |
| `Breaker.NoEarlyAdmission` | src/runtime/circuit-breaker.ts:60-79 | So no call is admitted within the reset timeout of such a failure unless a success or reset came between |
| `Breaker.LateSuccessReopens` | src/runtime/circuit-breaker.ts:93-107 | In every configuration there is a run in which a late success lets the next call in with no time passed |
| `ListSessions.ListAll` | src/runtime/rust-runtime.provider.ts:589-667 | The loop, over a live breaker, computes the drain, and leaves the calls, sessions, breaker and ending that `DrainExplained` describes |
| `ListSessions.DrainExplained` | src/runtime/rust-runtime.provider.ts:589-667 | For every sequence of answers: every call but the last was made in time, admitted and answered by a page short of the end or a refusal that halves; each ending has exactly its cause; the sessions are those the pages offered; the breaker is as the calls left it |
| `ListSessions.CompleteIff` | src/runtime/rust-runtime.provider.ts:655-667 | A drain is complete if and only if it comes to a page that reaches the end of the store and carries no token; that page is its last call and it holds the whole store |
| `ListSessions.HealthyDrainCompletes` | src/runtime/rust-runtime.provider.ts:589-667 | A healthy runtime whose pages cover the store within the cap is drained completely, with no call after the page that reaches the end |
| `ListSessions.DrainIsPrefix` | src/runtime/rust-runtime.provider.ts:589-667 | For every sequence of answers: it ends, returns a prefix of the store, complete means all of it, at most maxPages+2 calls and three counted failures, page size halved with floor 1 |
| `ListSessions.DrainSparesBreakerIff` | src/runtime/rust-runtime.provider.ts:62-82 | No answers make a drain open a closed breaker without failures if and only if the threshold exceeds the halving ladder plus one (4 for page sizes from 4 up) |
| `ListSessions.HealthyRefusalsNeverCount` | src/runtime/rust-runtime.provider.ts:195-217 | Answers that are only pages and expected refusals leave the breaker closed with nothing counted, for every threshold; which statuses and codes are expected |
| `Drift.DriftSound` | src/controllers/admin.controller.ts:76-128 | Untracked sessions reported are a prefix of the truth about the whole store; after a complete drain both directions are exact; after a truncated one the reverse is null; and the counts are those of the sessions, the live ones and the active runs |
| `Drift.UntrackedExact` | src/controllers/admin.controller.ts:76-99 | The untracked sessions of a list are its live sessions no active run is bound to |
| `Drift.MissingExact` | src/controllers/admin.controller.ts:100-128 | Missing runs are the active, started, bound ones whose session is not live in the store |
| `Drift.TruncatedReverseUnsound` | src/controllers/admin.controller.ts:100-122 | On a prefix the reverse direction would accuse a healthy run |
| `KeyShapes.KeyShapeOf` | src/policy/policy-rules-validator.service.ts:61-68 | The loop computes the shape of a schema |
| `KeyShapes.UnionKeyViolations` | src/policy/policy-rules-validator.service.ts:77-99 | The recursive walk computes the violations in key order |
| `KeyShapes.UnionIsOneTree` | src/policy/policy-rules-validator.service.ts:77-99 | Walking a value against a family finds the same violations as walking it against one merged tree |
| `KeyShapes.OrderAndRepetitionIrrelevant` | src/policy/policy-rules-validator.service.ts:77-99 | Only which shapes are in the family matters |
| `VendorKeys.VendorKeyIffGrammatical` | src/policy/policy-rules-validator.service.ts:19-26 | The vendor-key scanner accepts exactly `x-`, a word of letters and digits, and one or more dotted labels |
| `KeyAdmission.CleanIffConforms` | src/policy/policy-rules-validator.service.ts:60-68 | The walk against one schema's shape is clean if and only if the value keeps to the schema's keys |
| `KeyAdmission.ReportedIff` | src/policy/policy-rules-validator.service.ts:77-99 | A violation is reported if and only if some keys lead down through closed and defined positions to a vendor extension below the top or to a key not defined there, and under their dotted path |
| `KeyAdmission.AdmitsMoreIffCovers` | src/policy/policy-rules-validator.service.ts:70-99 | One family admits all that another admits if and only if its merged tree covers the other's |
| `KeyAdmission.ModeWithinWildcardIff` | src/policy/policy-rules-validator.service.ts:70-99 | The wildcard admits everything a mode's schema admits if and only if no position the mode leaves open is closed by another |

## Left out

- gRPC, HTTP, Redis and Postgres drivers, credentials, telemetry, DTOs and OpenAPI export: I/O plumbing.
- Ajv schema validation and the vendor-extension name gate of policy rules: the library is external; only the closed-key walk is modelled. An object's fields are listed already sorted by key.
- Event data of the wrong JSON type, non-ASCII case folding in vote and outcome inference, and empty timestamps.
- The event normalizer: drafts are arbitrary, so nothing is said about which canonical events an envelope becomes; exactly-once is stated on raw rows.
- The in-process `applyLocks` chain: the row lock already serializes the writers.
- `deriveMissingCanonical` and `healStaleTerminalDecision`: read-side repairs of old rows.
- ActorLaws.MirrorAlways: needs no id to be both a participant's and a lifecycle node's; `ActorLaws.UpsertHarmsIff` and `ActorLaws.DeclareHarmsIff` say exactly when such an id does harm.
- Binding a session inside the statement-level interleaving: the session row's upsert is a step of `Ingest` only.
- Deleting or archiving a run during the pipeline: the run row is taken to exist.
- Stop and shutdown are modelled as something the loop may notice at any of its waiting points; backoff and idle timeouts as the environment ending a subscription.
- Monotonicity of the projected run status: late events may change it; absorption is proved for the `runs` row.
- Windows.SignalWindow: needs distinct signal ids; `Windows.EvictionCommutesIff` says exactly which reuse breaks it.
- SseHandoff.HandoffComplete: needs the hub to publish in seq order, which two transactions' post-commit effects do not guarantee; `SseHandoff.NothingMissedIff` says exactly what holds without it.
- A `Last-Event-ID` that is not a natural number, and the snapshot, heartbeat and complete messages of the SSE stream, which carry no seq.
- Breaker.NoEarlyAdmission: assumes a clock that does not run backwards.
- ListSessions.DrainIsPrefix: assumes the store does not change during the drain and that a page token names a position in it.
- The edge list as a window of an unbounded one: it is none, since an edge drawn again after eviction is appended anew; `EdgeLaws` says what each message does to the list instead.
- Idempotent relaunch, metrics, webhooks, dashboard, JWT minting, receipts and what-if replay: they are outside the ingest pipeline and its row lock, or only pass values through.
