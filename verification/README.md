# Session link, runner control and state adapter: a Dafny model

The host runs one untrusted runner per conversation session, in a container. The two sides exchange
durable events over a Unix socket; the host projects the runner's events into its own tables, journals
its own events towards the runner, starts and stops the container, delivers output to chat channels and
keeps adapter state in SQLite. This project models that control logic and proves what it keeps.

- **Durable apply** (`SessionTables`, `DurableApply`, `SessionStore`): every runner frame as one
  transaction over the tables of a session. `DurableApply.Deliver` is the specification of one frame;
  `SessionStore.Store` is the imperative form, with the same statements as the source, proved equal to it.
- **Runs of frames and host writes** (`DurableReplay`, `TurnLifecycle`, `References`, `SequenceNumbers`,
  `InputEdits`, `Redelivery`, `Replies`, `EventAdmission`, `LastWrites`): theorems over every sequence of frames
  and host writes, in any order; exactly which events are admitted, and what the tables show afterwards.
- **Host journal and transport** (`HostLink`, `Framing`, `RateWindow`): the stop-and-wait sender over
  connections that come and go, newline framing, and the fixed-window budgets.
- **Single-owner control** (`RunnerControl`, `Delivery`, `SessionSweeps`): the maps, promises, in-flight
  sets and dirty flags, with each await as a scheduling point of a step relation.
- **State adapter** (`StateAdapter`, `Namespaces`, `ForeignPurges`, `Erasure`, `KeyValues`, `TokenLocks`,
  `BoundedQueue`): a timed map, token locks and bounded queues, and how far adapters are isolated.
- **Policies and folds** (`Admission`, `Stuck`, `Activity`).

Tables are maps, a transaction is one step and a thrown error is a returned message that leaves the
session as it was. Clocks, sockets, child processes, adapter calls and random tokens are arguments or
nondeterministic steps. A run is a sequence of steps; `Run` folds `Next`, `Apply` or `Step` over it, and a
step whose guard does not hold changes nothing. Fields named as history (`enqueued`, `sent`, `handed`,
`owner`, `issued` and so on) exist only so that theorems can speak about the past.

Where the code does otherwise than its comments say, or what they do not say, the model follows the code:

- `src/container-admission.ts:115` says that an unreadable configuration is charged the dearest one. It is
  charged the estimate of an empty configuration; `Admission.UnreadableConfigIsCovered` gives the exact
  configurations for which that is enough.
- `src/host-sweep.ts:149-163` has the dirty-flag loop of delivery but removes its map entry later;
  `SessionSweeps.LostExactlyInTheWindow` says exactly when a request is lost.
- `src/state-sqlite.ts:32-33` says that every adapter instance is isolated. Its live entries are; but a purge
  by any adapter removes expired rows of all of them, and a few calls can tell. `ForeignPurges` says exactly
  which, and `Erasure.ErasureIsExact` exactly when a run with other adapters is answered like one without.
- `src/session-link.ts:603-613` replaces a destroyed connection before its close is handled.
  `HostLink.AcceptAfterCloseServes` says when the successor is served and
  `HostLink.ReplacedBeforeCloseStaysSilent` shows the other case.
- `src/session-link.ts:619-667` drains a chunk although a frame in it has destroyed the connection, so that the
  cutting of the stream can show. `Framing.CutsAgreeExactly` says exactly when.

## Model

| member | source | states |
|---|---|---|
| `SessionStore.Store.ApplyDurableRunnerEvent` | src/session-link-durable.ts:556-737 | one frame leaves exactly the tables and the reply of `Deliver`: envelope and event type checks, replay check, order check, skippable telemetry, all-or-nothing required events, ledger insert and trim |
| `SessionStore.Store.ApplyTurn` | src/session-link-durable.ts:427-489 | the turn is stored if and only if identity, phase order and settlement rules hold; otherwise the same error and no change |
| `SessionStore.Store.ApplyMessage` | src/session-link-durable.ts:131-193 | a message is stored if and only if its number, turn and id pass, else the same error and no change |
| `SessionStore.Store.ApplyUsage` | src/session-link-durable.ts:346-407 | usage upsert that never changes the turn of a row; invalid references are an error without a change |
| `SessionStore.Store.ApplyActivity` | src/session-link-durable.ts:300-344 | the step's other rows go and its row is inserted or refreshed; invalid or moved steps are an error without a change |
| `SessionStore.Store.ApplyState` | src/session-link-durable.ts:210-256 | state upsert with the turn-metadata checks |
| `SessionStore.Store.ProjectInputEditResult` | src/pending-input-edit.ts:63-142 | the host text changes only for an accepted command on its matching target, not on replay and not on conflict |
| `SessionStore.Store.ApplyOptionalTelemetry` | src/session-link-durable.ts:541-554 | a validation failure undoes this event alone and is returned, not thrown |
| `SessionStore.Store.ApplyRequired` | src/session-link-durable.ts:629-700 | the switch over required events: fails exactly when the specification's check fails, else writes exactly what it writes |
| `SessionStore.Store.ApplyRequiredState` | src/session-link-durable.ts:666-677 | a receipt that differs from the stored one is refused; otherwise it is stored and projected, as a replay exactly when it was stored before |
| `DurableReplay.DeliverCases` | src/session-link-durable.ts:605-716 | a frame is applied exactly when it is new, next in sequence and valid; every other frame leaves the whole session unchanged |
| `DurableReplay.ProjectionIsFoldOfAccepted` | src/session-link-durable.ts:605-716 | after any run the projection is the fold of the accepted events, each once and in order, and the ledger holds the newest 4096 of them |
| `DurableReplay.AcceptedIsJournalPrefix` | src/session-link-durable.ts:625-626 | frames drawn from one journal, however duplicated, reordered and replayed, are accepted as a prefix of that journal |
| `DurableReplay.ReplayConverges` | src/session-link-durable.ts:605-716 | hence the projection is the fold of journal entries 1..last |
| `DurableReplay.LedgerWindow` | src/session-link-durable.ts:711-715 | the ledger's sequence numbers are exactly the last min(last, 4096), each once |
| `DurableReplay.LastNeverFalls` | src/session-link-durable.ts:622-626 | the last sequence number never decreases over any continuation |
| `DurableReplay.AcknowledgedOnce` | src/session-link-durable.ts:606-626 | a frame acknowledged once changes nothing when it comes again, whatever happened in between |
| `Redelivery.BehindIsAcknowledged` | src/session-link-durable.ts:606-625 | in every reachable session a well-formed frame that is not ahead of the ledger is refused exactly when its event id has been reused for another frame, and changes nothing |
| `Redelivery.AcknowledgedAgain` | src/session-link-durable.ts:606-625 | hence a frame acknowledged once is acknowledged whenever it is sent again, unless its id was reused |
| `Redelivery.RedeliveredJournalIsAcknowledged` | src/session-link-durable.ts:606-626 | a journal with distinct event ids is redelivered without a refusal, whatever was duplicated, reordered and replayed |
| `Redelivery.OwnReceiptReplays` | src/pending-input-edit.ts:97-122 | a receipt that was projected can be projected again as a replay |
| `DurableReplay.TelemetryNeverBlocks` | src/session-link-durable.ts:541-554 | an in-order telemetry frame is always acknowledged and consumes its number; an invalid one leaves the projection as it was |
| `TurnLifecycle.EveryTurnIsWellFormed` | src/session-link-durable.ts:484-487 | in every reachable projection a turn is settled exactly when it has a final outcome, and exactly when it has an end time |
| `TurnLifecycle.TurnsOnlyAdvance` | src/session-link-durable.ts:461-483 | over any continuation phases never go back, identity never changes and settlement is permanent |
| `TurnLifecycle.NativeTurnsSettleLater` | src/session-link-durable.ts:486 | a settled native turn was stored unsettled, under the same identity, at an earlier point of the run |
| `References.EveryProjectionIsSound` | src/session-link-durable.ts:226-247 | in every reachable projection turn ids name turns, anchored usage and activity agree with their output's turn, metadata names usage of its own turn, and a turn has one row per step |
| `References.PutActivityOk` | src/session-link-durable.ts:316-343 | one activity write keeps all references and at most one row per turn and ordinal |
| `References.OutputIsPermanent` | src/session-link-durable.ts:186-191 | turns, messages and usage rows never disappear; messages never change and usage never changes turn |
| `References.SettledMetadataIsFrozen` | src/session-link-durable.ts:248-250 | once a turn is settled its metadata never becomes another value, and once deleted never returns |
| `SequenceNumbers.AdmissionIsExact` | src/session-link-durable.ts:146-191 | a message is admitted exactly when it is new, its turn is known, and its number is odd, above all runner numbers and at most the next odd number after everything observed |
| `SequenceNumbers.NextNumberIsAdmissible` | src/session-link-durable.ts:176-185 | the next odd number after everything observed is always admissible, at most two above it |
| `SequenceNumbers.NumbersNeverCollide` | src/session-manager.ts:452-458 | over any run runner numbers are odd and distinct, host numbers even, counted and distinct across both tables |
| `SequenceNumbers.NumbersIncrease` | src/session-link-durable.ts:176-191 | runner numbers strictly increase in commit order and every committed message is still stored |
| `SequenceNumbers.HostRowsAreExact` | src/session-manager.ts:440-470 | a new host row takes the next even number, which is spent also when its id is known |
| `EventAdmission.TurnAdmissionIsExact` | src/session-link-durable.ts:427-489 | the next version of a turn is acknowledged and stored exactly when the identity is kept, the phase does not go back, a settlement is final, complete and for a native turn not its first version, and an unsettled turn has neither outcome nor end; otherwise it is refused and changes nothing |
| `EventAdmission.UnsettledTurnCanSettle` | src/session-link-durable.ts:461-488 | in every reachable session every stored unsettled turn, native or not, can be settled, and the reply names it |
| `EventAdmission.MessageErrorIsExact` | src/session-link-durable.ts:146-191 | a message passes exactly when its id is new, its turn known and its number odd, above the runner's numbers and at most two above some number observed in either table |
| `EventAdmission.ReceiptErrorIsExact` | src/pending-input-edit.ts:63-122 | a receipt passes exactly when it equals a stored one, answers the host's own command and, if it accepts, finds a web message of the command's chat, thread and sender, with the expected text on a first edit |
| `EventAdmission.RequiredAdmissionIsExact` | src/session-link-durable.ts:629-700 | in every reachable session the next frame with a required event is acknowledged if and only if the event fits what is stored, by rules written out for each type; a refused one changes nothing |
| `EventAdmission.OptionalAdmissionIsExact` | src/session-link-durable.ts:541-554 | the next frame with an optional event is acknowledged, and stores its usage, activity or metadata exactly when it fits; the whole projection afterwards is given |
| `EventAdmission.PutActivityIsExact` | src/session-link-durable.ts:334-343 | a fitting activity row replaces all rows of its step and leaves every other row |
| `EventAdmission.ReplyIsExact` | src/session-link-durable.ts:192-193 | an applied frame announces delivery for a settled turn and for a message that is a system message or no response, processing for a persisted batch, and nothing else |
| `LastWrites.ReportIsExact` | src/session-link-durable.ts:701-710 | an acknowledged new frame reports exactly the turn it is about, and none if it did not fit |
| `LastWrites.LastWriteWins` | src/session-link-durable.ts:605-716 | after any run every table shows of an accepted event that fitted exactly the row it gave, until a later one writes or removes that row |
| `LastWrites.EveryRowWasWritten` | src/session-link-durable.ts:605-716 | where no accepted event that fitted wrote a row, there is none |
| `LastWrites.LastClaimWins` | src/session-link-durable.ts:195-208 | processing_ack shows the last accepted write of a claim, unless the host cleared an unfinished one |
| `InputEdits.InputStep` | src/pending-input-edit.ts:97-132 | one step changes the row of a typed input only through a first, accepted receipt or a status the host sets: a compare and swap of the text for an edit, the cancelled flag and completion for a cancellation, and no other column |
| `InputEdits.RowIsSumOfChanges` | src/pending-input-edit.ts:111-132 | over any continuation the whole row is the row it was, changed only by those commands and host status writes, in order |
| `InputEdits.CancelledIsCompleted` | src/pending-input-edit.ts:123-131 | an accepted cancellation leaves the input cancelled and completed for good, unless the host sets its status again |
| `InputEdits.ReceiptsArePermanent` | src/session-link-durable.ts:666-683 | a stored receipt never changes and never disappears |
| `InputEdits.EditsFormChain` | src/pending-input-edit.ts:63-142 | the accepted edits of an input form a compare-and-swap chain from its old text to its new one, one per request however often it is resent or replayed |
| `InputEdits.CancellationIsFinal` | src/pending-input-edit.ts:111-132 | a cancelled input keeps its whole content for ever |
| `InputEdits.OnlyFirstAcceptedReceiptsMutate` | src/session-link-durable.ts:666-677 | a frame that changes host input carries a first, accepted receipt and changes the row of its target alone; conflicts and replays do not |
| `Replies.ChangesAreReported` | src/session-link-durable.ts:701-710 | a turn the reply does not name keeps its row, inputs, messages, usage, activity and metadata, unless its metadata was deleted |
| `Replies.MetadataDeletionIsSilent` | src/session-link-durable.ts:678-710 | the exception is real: a metadata deletion changes the turn's view and reports nothing |
| `Replies.ReportedTurnsExist` | src/session-link-durable.ts:701-710 | only known turns, and only of applied frames, are reported |
| `Replies.SettlementIsReported` | src/session-link-durable.ts:632-638 | a turn that becomes settled is reported at that frame with delivery ready, and a reported settlement has happened |
| `Replies.EditedTextIsStored` | src/pending-input-edit.ts:133-141 | in every reachable session the edited text and the cancelled flag in a reply are those stored for that input, also on replay |
| `HostLink.Sender.FlushHostEvents` | src/session-link.ts:167-207 | sends the oldest row, or ready once, only when writable and nothing is in flight; an unencodable head destroys the connection |
| `HostLink.Sender.ApplyHostAck` | src/session-link.ts:209-226 | accepts only the event in flight, deletes exactly its row and sends the next |
| `HostLink.Sender.ApplyHostNack` | src/session-link.ts:228-238 | accepts only the event in flight and destroys the connection |
| `HostLink.Sender.HandleConnection` | src/session-link.ts:586-613 | a second connection is destroyed while the first is not; otherwise it is installed, unready, and flushed |
| `HostLink.Sender.OnAck` | src/session-link.ts:658-666 | an acknowledgement frame: flushed when valid, connection destroyed when not; also one left in the chunk of a connection just destroyed |
| `HostLink.Sender.OnNack` | src/session-link.ts:658-666 | a rejection frame, likewise |
| `HostLink.Sender.OnClose` | src/session-link.ts:692-704 | clears the event in flight only for the current connection |
| `HostLink.PendingIsEnqueuedMinusAcked` | src/session-link.ts:167-226 | over any run the journal table is what was enqueued minus what was acknowledged, in order, and only its head is in flight |
| `HostLink.SentIsJournalInOrder` | src/session-link.ts:167-238 | over any run the sender only repeats the oldest unacknowledged event or moves to the next |
| `HostLink.ReadyOnceWhenDrained` | src/session-link.ts:175-181 | ready goes out at most once per connection and only when nothing enqueued is unacknowledged |
| `HostLink.AcceptAfterCloseServes` | src/session-link.ts:603-613 | in every run a connection accepted after its predecessor's close was handled is served at once; one that is installed and not served replaced a predecessor destroyed but not yet closed |
| `HostLink.ClosedLeavesNothingInFlight` | src/session-link.ts:692-697 | in every run without a current connection nothing is in flight |
| `HostLink.AcceptServes` | src/session-link.ts:603-613 | one accept from any state serves the connection if and only if nothing is in flight |
| `HostLink.AnsweringDrains` | src/session-link.ts:167-226 | a served runner that answers empties the journal in as many acknowledgements as there are rows, all acknowledged in order, and is then told ready unless it was told before the rows were enqueued |
| `HostLink.ReplacedBeforeCloseStaysSilent` | src/session-link.ts:692-697 | a connection with an event in flight, replaced before its close is handled, leaves a successor that is sent nothing until it closes or acknowledges an event it was never sent |
| `HostLink.InFlightSilences` | src/session-link.ts:169 | while an event is in flight nothing is sent, short of an acknowledgement, a close or a restart |
| `HostLink.RejectionDestroys` | src/session-link.ts:228-238 | in every run a rejection of the event in flight ends the current connection and changes nothing else |
| `HostLink.RejectedIsSentAgain` | src/session-link.ts:167-207 | short of an acknowledgement, whatever happens, the next connection accepted with no current one is sent the very event that was in flight |
| `HostLink.RejectionIsRetried` | src/session-link.ts:228-238 | in particular after a rejection, the close it leads to and a new connection |
| `HostLink.TimeoutDestroys` | src/session-link.ts:199-206 | an acknowledgement that is late ends the connection it was awaited on and nothing else; any other timer does nothing |
| `HostLink.WrongAnswerDestroys` | src/session-link.ts:658-664 | an answer about any other event ends the connection it came on |
| `HostLink.UnsendableHeadDestroys` | src/session-link.ts:183-203 | an event that cannot be encoded ends the connection that is due for it and stays the oldest |
| `HostLink.NotificationSends` | src/session-link.ts:167-207 | on an idle writable connection a notification, like a handled frame, sends the oldest pending event |
| `HostLink.SecondConnectionIsRefused` | src/session-link.ts:603-606 | while a connection is usable a second one is refused, and its frames do nothing |
| `HostLink.EnqueueAppends` | src/db/session-db.ts:157-162 | in every run an enqueued event becomes the youngest of the journal under a number above all earlier ones |
| `HostLink.SocketsWearOut` | src/session-link.ts:586-704 | no step reopens a connection, and only an accept opens one |
| `HostLink.RestartSendsAgain` | src/session-link.ts:167-207 | a restart keeps the journal, and the next connection is sent its oldest event |
| `Framing.Connection.OnLine` | src/session-link.ts:623-687 | the checks of one line, the handler, and what its outcome does: go on, go on with this chunk alone, or stop |
| `Framing.Connection.OnData` | src/session-link.ts:615-690 | the receive loop equals the specification's drain of the buffer; a chunk in which the handler destroys the connection is drained to its end or its first refusal, and no later one is received |
| `Framing.CutsAgreeExactly` | src/session-link.ts:617-691 | all ways of cutting a byte stream hand over the same lines if and only if the first line that is refused or destroys the connection is not a destroying one followed by a complete line that passes the checks before the handler |
| `Framing.ChunkingIsInvisible` | src/session-link.ts:617-691 | without such a line two cuts hand over the same lines and stop or not alike |
| `Framing.RejectionThenFrame` | src/session-link.ts:228-238 | a rejection that destroys the connection, with an acceptable frame behind it: in one chunk the frame is handed over, in the next it is not |
| `Framing.SizeLimitIsExact` | src/session-link.ts:623-690 | whatever the handler destroys, handed lines are a prefix of the stream's lines, each of them JSON within the frame limit and, unless durable, within 16 KiB; when the handler accepts every line the receiver stays open exactly when all lines are and no unfinished tail exceeds the limit, and then all are handed over |
| `RateWindow.Budgets.Admit` | src/session-link.ts:627-650 | counts the frame in both windows, also when refused, and admits it exactly when all four budgets hold |
| `RateWindow.TwiceTheBudget` | src/session-link.ts:627-650 | in any 1000 ms interval at most twice each budget gets through, across reconnects |
| `RateWindow.AnySecondIsBounded` | src/session-link.ts:628-632 | the same for any counter that restarts at arrivals at least a window apart |
| `RateWindow.WithinBudgetIsAdmitted` | src/session-link.ts:627-650 | a frame is admitted whenever the last second's arrivals, refused ones included, are within all four budgets |
| `RunnerControl.Runners.WakeContainer` | src/container-runner.ts:124-150 | joins a recovery, answers from an entry, joins a wake or starts one, in that order |
| `RunnerControl.Runners.RecoverStoppedSession` | src/container-runner.ts:152-164 | joins a recovery, refuses beside an entry or a wake, or starts one |
| `RunnerControl.Runners.AttachContainerWatcher` | src/container-runner.ts:590-593 | the entry is set when `docker run` has succeeded |
| `RunnerControl.Runners.OnWatcherEnded` | src/container-runner.ts:595-630 | a terminal watcher event deletes the session's entry, whichever it is |
| `RunnerControl.Runners.SpawnRecovery` | src/container-runner.ts:199-202 | the recovery entry is set together with its child |
| `RunnerControl.Runners.FinishRecovery` | src/container-runner.ts:231-238 | the entry goes only if it is still this recovery's and the stop did not fail |
| `RunnerControl.Runners.DropPromise` | src/container-runner.ts:145-161 | the promise leaves its map in a later step than it settles |
| `RunnerControl.OneRunnerPerSession` | src/container-runner.ts:124-239 | under every interleaving a session has at most one coroutine and at most one live container, and beside a coroutine in set-up, spawn or recovery no live container but its own, given that a container's end is reported once and not before it |
| `RunnerControl.WakeStartsExactlyWhenUnowned` | src/container-runner.ts:124-150 | a wake starts a runner exactly when no coroutine, watched container or lock holds the session, and then none of its containers is alive; it answers true exactly when a container is watched |
| `RunnerControl.RecoverStartsExactlyWhenUnowned` | src/container-runner.ts:152-164 | over every clean run a recovery, like a wake, adds and registers its coroutine exactly when no coroutine, watched container or lock holds the session, and otherwise changes nothing |
| `RunnerControl.RecoveryReachesContainer` | src/container-runner.ts:152-202 | a started recovery reaches a live container that is its session's entry |
| `RunnerControl.EverySessionCanBeFreed` | src/container-runner.ts:124-164 | from every state of a clean run some clean continuation leaves an unlocked session to nobody, so that a wake or a recovery starts |
| `RunnerControl.RecoveryDropsOnlyItsOwn` | src/container-runner.ts:230-238 | a recovery that ends drops its own entry unless its stop failed, and no entry that stands in its place |
| `RunnerControl.FailedStopLocks` | src/container-runner.ts:208-221 | from a failed stop on neither a wake nor a recovery of the session starts |
| `RunnerControl.UnstoppableRecoveryLocks` | src/container-runner.ts:208-238 | a recovery that could not be stopped locks its session for the rest of the run |
| `RunnerControl.EarlyEndAdmitsTwo` | src/container-runner.ts:623-630 | an end reported before it happens lets the next wake start a second container |
| `RunnerControl.SecondEndAdmitsTwo` | src/container-runner.ts:595-630 | a second terminal event deletes the successor's entry and admits a container beside it |
| `RunnerControl.FailedRunAdmitsTwo` | src/container-runner.ts:401-421 | a `docker run` reported as failed while its container lives admits a second container |
| `RunnerControl.ClosedChildAdmitsTwo` | src/container-runner.ts:222-238 | a recovery child reported as closed while its container lives admits a second container |
| `Delivery.Worker.DeliverSessionMessages` | src/delivery.ts:138-154 | marks a running worker dirty or starts one |
| `Delivery.Worker.Drain` | src/delivery.ts:156-177 | the snapshot is the due rows that are not marked, in order |
| `Delivery.Worker.OnDelivered` | src/delivery.ts:181-184 | a successful send marks the row and clears its counter, or counts a failure when the mark fails |
| `Delivery.Worker.OnRejected` | src/delivery.ts:214-216 | a failed send moves to the next row and counts a failure |
| `Delivery.Worker.OnFailure` | src/delivery.ts:215-225 | the third failure marks the row failed and clears its counter; when that cannot be written the drain throws and the counter stays |
| `Delivery.Worker.OnThrow` | src/delivery.ts:151-153 | an exception ends the worker and leaves the dirty flag as it is |
| `Delivery.Worker.OnDrainReturned` | src/delivery.ts:150-153 | the last look at the dirty flag and the removal of the worker are one step |
| `Delivery.DrainsNeverOverlap` | src/delivery.ts:138-154 | two drains of a session never overlap, whatever throws |
| `Delivery.NotifiedCommitsAreCovered` | src/delivery.ts:138-154 | over all runs, whenever no worker runs: the latest notification is covered by a later snapshot if and only if no drain has thrown or read nothing since with it uncovered, and every row a snapshot knew is marked, waits for a retry, or was left behind by a drain that threw |
| `Delivery.UndisturbedRunsLoseNothing` | src/delivery.ts:146-153 | neither happens in a run in which no drain throws or reads nothing, whatever sends and marks fail |
| `Delivery.HandOversAreCounted` | src/delivery.ts:179-244 | over all runs a row was handed over once for each lost mark and once more if it is marked delivered |
| `Delivery.EachRowAtMostOnce` | src/delivery.ts:179-244 | in every run in which successful sends are marked, also with drains that throw and unreadable databases, no row is handed over twice, and a row is marked delivered exactly when it was handed over |
| `Delivery.StartedQueueIsInOrder` | src/delivery.ts:176-179 | a started drain queues exactly the unmarked rows of its snapshot, each once and in the order of the snapshot |
| `Delivery.HandedInSnapshotOrder` | src/delivery.ts:156-250 | in every run, between two drain starts, rows are handed over in the order of the snapshot |
| `Delivery.DrainDeliversQueue` | src/delivery.ts:156-250 | a drain whose sends succeed hands over its whole queue in order, marks it and clears its counters |
| `Delivery.CallIsServedOrRemembered` | src/delivery.ts:138-154 | a call starts a drain, or leaves the dirty flag with the worker that runs |
| `Delivery.FinishedDrainEndsOrRepeats` | src/delivery.ts:138-154 | a finished drain starts over when it was marked dirty, and otherwise ends its worker |
| `Delivery.ThirdFailureAbandons` | src/delivery.ts:214-225 | in every run in which giving up is written, a row is abandoned exactly at its third failed send |
| `Delivery.ThrowLosesWakeup` | src/delivery.ts:146-153 | a drain that throws while a notification is uncovered leaves it uncovered with no worker |
| `Delivery.NotifiedWhileDraining` | src/delivery.ts:140-143 | every notification of a new commit during a drain makes such a state |
| `Delivery.LostMarkRepeats` | src/delivery.ts:181-216 | a send whose mark fails is sent again by the next drain |
| `SessionSweeps.Sweeper.RequestSessionSweep` | src/host-sweep.ts:149-163 | marks a known sweep dirty or starts one |
| `SessionSweeps.Sweeper.OnSweepReturned` | src/host-sweep.ts:156-160 | the loop condition: sweep again when dirty, else settle |
| `SessionSweeps.Sweeper.OnSweepThrew` | src/host-sweep.ts:156-160 | a throwing sweep ends the loop and leaves the dirty flag as it is |
| `SessionSweeps.LostExactlyInTheWindow` | src/host-sweep.ts:149-163 | over all runs an absent loop has covered every request if and only if, since the last start, none came between the loop's end and the removal of its entry and none waited while a sweep threw |
| `SessionSweeps.EndedLoopStartsAgain` | src/host-sweep.ts:149-163 | a loop whose sweep threw or returned clean ends, and the next request sweeps again |
| `SessionSweeps.SecondRequestLost` | src/host-sweep.ts:160-161 | such a request is possible |
| `StateAdapter.SqliteStateAdapter.Cleanup` | src/state-sqlite.ts:207-212 | deletes exactly the rows past their expiry, of every namespace |
| `StateAdapter.SqliteStateAdapter.Get` | src/state-sqlite.ts:50-62 | purges, then reads, deleting a row that expired in between |
| `StateAdapter.SqliteStateAdapter.Set` | src/state-sqlite.ts:64-69 | replaces the row and its expiry |
| `StateAdapter.SqliteStateAdapter.SetIfNotExists` | src/state-sqlite.ts:71-84 | inserts only over an absent or expired row and says whether it did |
| `StateAdapter.SqliteStateAdapter.Delete` | src/state-sqlite.ts:86-88 | removes the key's row |
| `StateAdapter.SqliteStateAdapter.Subscribe` | src/state-sqlite.ts:92-94 | adds the thread to the subscriptions |
| `StateAdapter.SqliteStateAdapter.Unsubscribe` | src/state-sqlite.ts:96-98 | removes it |
| `StateAdapter.SqliteStateAdapter.IsSubscribed` | src/state-sqlite.ts:100-105 | says whether it is there |
| `StateAdapter.SqliteStateAdapter.AcquireLock` | src/state-sqlite.ts:109-122 | takes the row if it is absent or past its expiry and returns a handle with its token, else null |
| `StateAdapter.SqliteStateAdapter.ReleaseLock` | src/state-sqlite.ts:124-128 | deletes the row only with its own token |
| `StateAdapter.SqliteStateAdapter.ExtendLock` | src/state-sqlite.ts:130-140 | moves the expiry of row and handle only with the row's own token |
| `StateAdapter.SqliteStateAdapter.ForceReleaseLock` | src/state-sqlite.ts:142-144 | deletes the thread's row whatever its token |
| `StateAdapter.SqliteStateAdapter.AppendToList` | src/state-sqlite.ts:148-164 | appends at the next index and trims by index |
| `StateAdapter.SqliteStateAdapter.GetList` | src/state-sqlite.ts:166-174 | the unexpired values in index order |
| `StateAdapter.SqliteStateAdapter.Enqueue` | src/state-sqlite.ts:178-185 | appends to the thread's list without expiry and returns its depth |
| `StateAdapter.SqliteStateAdapter.Dequeue` | src/state-sqlite.ts:187-195 | removes and returns the row of lowest index |
| `StateAdapter.SqliteStateAdapter.QueueDepth` | src/state-sqlite.ts:197-203 | counts the rows |
| `Namespaces.NamespacesCollideIff` | src/state-sqlite.ts:37-39 | two namespaces can share a stored key exactly when one, with its colon, is a prefix of the other |
| `Namespaces.NamespacesAreIsolated` | src/state-sqlite.ts:37-203 | no run of other colon-free namespaces' calls changes a live entry of a namespace |
| `Namespaces.PurgeIsExact` | src/state-sqlite.ts:207-212 | a purge leaves exactly the rows of every adapter that are not past their expiry |
| `Namespaces.SubscriptionIsLastWord` | src/state-sqlite.ts:92-105 | whatever all adapters call, a thread is subscribed exactly when its own adapter's last call about it subscribed it |
| `Erasure.ErasureIsExact` | src/state-sqlite.ts:37-212 | at every point of a run of interleaved calls, and whatever it then calls, an adapter is answered as in the run with all foreign calls erased, if and only if no foreign purge in the run met an expired row of its own that matters |
| `Erasure.AnswersSurviveErasure` | src/state-sqlite.ts:37-212 | the answers themselves: interleaved and erased run agree under that condition |
| `Erasure.PurgeIsToldExactly` | src/state-sqlite.ts:207-212 | some continuation of own calls tells a foreign purge if and only if it took an expired row that matters: a stored expiry of 0, a lock, a queue entry, or the last entry of a list above one still readable |
| `Namespaces.AnswersAreLocal` | src/state-sqlite.ts:37-203 | however the calls of all adapters are interleaved, an adapter's rows and answers are a function of its own namespace's rows at the start and of the calls |
| `ForeignPurges.AnswerNoticesExactly` | src/state-sqlite.ts:50-203 | for every operation: its answer differs after a purge exactly for a lock extension on an expired lock, a queue depth over an expired entry, a dequeue whose head has expired and whose next value differs, and an insertion over a stored expiry of 0 |
| `ForeignPurges.EffectNoticesExactly` | src/state-sqlite.ts:50-203 | for every operation: it leaves other live entries after a purge exactly in those cases that revive, insert or remove one, and for a bounded append when the lower next index keeps a live entry that would be trimmed |
| `KeyValues.GetReadsTheTimedMap` | src/state-sqlite.ts:50-62 | a read returns what the timed map holds at its second clock reading |
| `KeyValues.ReadKeepsWhatItFinds` | src/state-sqlite.ts:50-62 | a read that finds nothing leaves no row, and one that finds a value leaves its row as it was |
| `KeyValues.InsertsIffAbsent` | src/state-sqlite.ts:71-84 | an insertion happens exactly when the key holds nothing (a stored expiry of 0 blocks it) and then holds until its own expiry |
| `KeyValues.FirstWriterWins` | src/state-sqlite.ts:71-84 | until its expiry, whatever all adapters do short of overwriting or deleting the key, later insertions are refused and reads return the value that was set or inserted |
| `KeyValues.KvRefinesTimedMap` | src/state-sqlite.ts:50-88 | whatever all adapters call, a key holds from the last clock reading on exactly the unexpired cell of a timed map run on the namespace's own sets, insertions and deletions, and every read and insertion was answered from it, if no write of the key stores an expiry of 0 or none that is past is ever met |
| `KeyValues.AnswersAsMapIff` | src/state-sqlite.ts:50-84 | the exact condition: every read and insertion of a key is answered as by the timed map if and only if none meets a stored expiry of 0 that is past |
| `KeyValues.NoZeroIsMet` | src/state-sqlite.ts:64-84 | no read or insertion meets such a row in any run whose writes of the key store no expiry of 0 |
| `KeyValues.CellStep` | src/state-sqlite.ts:50-88 | one call: what a set, an insertion, a deletion, a read and any other call of any adapter do to the cell that is stored |
| `KeyValues.ZeroBlocksUntilPurged` | src/state-sqlite.ts:71-84 | a value with a stored expiry of 0 is gone for readers and still blocks the insertion of its key, exactly until the first purge by any adapter |
| `TokenLocks.AtMostOneHolder` | src/state-sqlite.ts:109-144 | over any run with a non-decreasing clock two unexpired handles of one thread, neither released nor force-released, are the same |
| `TokenLocks.AcquireFailsIffHeld` | src/state-sqlite.ts:109-122 | an acquisition fails exactly when an issued handle's row for that thread is not past its expiry |
| `TokenLocks.StaleTokenIsPowerless` | src/state-sqlite.ts:124-140 | a token that lost its row never gets one back, and nothing done with it ever changes anything |
| `TokenLocks.OlderHandleCannotTouchNewer` | src/state-sqlite.ts:124-140 | a newer holder's row survives every release and extension by an older handle |
| `TokenLocks.ReleaseFrees` | src/state-sqlite.ts:124-145 | after a release with the row's token, or a forced one, the next acquisition of the thread succeeds |
| `TokenLocks.AcquisitionHolds` | src/state-sqlite.ts:109-140 | a successful acquisition or extension keeps others out for exactly the time it asked for |
| `BoundedQueue.QueueRefinesFifo` | src/state-sqlite.ts:148-195 | whatever all adapters call, a thread's rows are at consecutive indices and exactly the drop-oldest queue its own calls describe |
| `BoundedQueue.QueueAnswers` | src/state-sqlite.ts:166-203 | dequeue, depth and list reads answer as that queue does |
| `BoundedQueue.AppendHolds` | src/state-sqlite.ts:148-164 | an append with trimming keeps the newest entries; a bound of 0 keeps all and a negative one keeps none |
| `Admission.AbsentProviderIsDearest` | src/container-admission.ts:97-108 | with the servers known, an absent provider is never charged less than a named one |
| `Admission.UnreadableConfigIsCovered` | src/container-admission.ts:115-130 | the charge for an unreadable configuration covers the real one exactly when it has at most three stdio servers (native, mock) or none (all others) |
| `Admission.EstimateIsExact` | src/container-admission.ts:97-108 | the price list: 600 MB, 550 for opencode, 250 for native and mock, and 100 for each stdio server |
| `Admission.UsedAdds` | src/container-admission.ts:198 | what is in use is the sum of the running containers' estimates |
| `Admission.EvictionFrees` | src/container-runner.ts:255-288 | an eviction frees exactly the victim's estimate |
| `Admission.ByActivityIsStableSort` | src/container-admission.ts:206 | the order of eviction is a stable sort by last activity |
| `Admission.AdmitThenSpawn` | src/container-runner.ts:255-288 | the loop equals the rounds of the specification: admit, defer, or evict and look again, five times |
| `Admission.EvictsShortestIdlePrefix` | src/container-runner.ts:255-288 | on a snapshot that changes only by evictions it evicts the shortest least-recently-active prefix of the idle containers that makes the candidate fit or leaves nothing running, cut off at five, and defers only when no idle one is left |
| `Admission.NeverEvictsBusy` | src/container-runner.ts:255-288 | on any snapshots it evicts only idle, non-recovering containers, defers only on a snapshot the candidate does not fit, and spawns before its rounds are used up only on one it fits or that is empty |
| `Stuck.DecideStuckAction` | src/host-sweep.ts:90-137 | ok exactly when nothing is stuck; otherwise names the first offender and why |
| `Stuck.SurvivalIsExact` | src/host-sweep.ts:98-137 | exactly who survives a sweep, in terms of the link's age, the last signal and every dated claim |
| `Stuck.LimitsAreExact` | src/host-sweep.ts:285-290 | the ceiling and the tolerance in milliseconds: half an hour and one minute, or a longer timeout declared by a shell tool, six hours at most |
| `Stuck.NothingSurvivesSixHours` | src/host-sweep.ts:285-290 | past the start grace no claim older than six hours is ok, whatever the runner declares |
| `Stuck.StuckStaysStuck` | src/host-sweep.ts:90-137 | a stuck runner that stays silent stays stuck |
| `Stuck.TimeoutOnlyRelaxes` | src/host-sweep.ts:98-126 | a declared timeout only relaxes the decision, and past six hours gains nothing |
| `Activity.ReduceActivityLines` | src/activity.ts:30-61 | the one-pass indexed merge equals grouping by kind and id in first-seen order and folding each group from the left |
| `Activity.IndexKeyInjective` | src/activity.ts:38 | the index string determines kind and id |
| `Activity.FoldKeepsLatest` | src/activity.ts:46 | every property of a merged step but its duration is the latest one given |
| `Activity.EndGetsDuration` | src/activity.ts:47-57 | a tool or compaction whose latest status is terminal gets the time from its first to its last line |
| `Activity.FoldDuration` | src/activity.ts:46-57 | the duration a merged step shows, exactly: the computed one of the last line at which it had ended, or a later one a line carries |
| `Activity.ReducedHasEveryStep` | src/activity.ts:30-61 | the reduced trail has exactly one line for each kind and id among the valid steps, and no other |
| `Activity.ReduceIsIncremental` | src/activity.ts:30-61 | reducing a concatenation equals reducing the reduced first part with the second |
| `Activity.ReduceIsIdempotent` | src/activity.ts:30-61 | reducing twice is reducing once |

## Left out

- Field checks: string lengths (except those of ids, event types and end times), integer ranges and exact key sets are one `Malformed` payload; base64, UTF-8 and attachment checks are not part of this model.
- JSON text: a document is its content, key order and spacing; digests are injective.
- Timestamps the host writes itself (`applied_at`, `status_changed`), the rounding of durations, and columns no rule reads, which one opaque field stands for.
- Import and fork writes (`src/fork-session.ts`), the search index, attachments, and the listeners that receive a reply.
- `HostLink.AnsweringDrains`: progress assumes encodable rows and a runner that answers; fairness of the network is not modelled.
- `HostLink.Sender.HandleConnection`: the connection budget and the suspension of the socket server (`src/session-link.ts:592-601`) are one refusal step.
- `DurableReplay.AcknowledgedOnce`: the reply is the subject of `Redelivery.AcknowledgedAgain`.
- `HostLink.SentIsJournalInOrder`: acknowledgement timers may fire for any event with the awaited id, which includes every run in which timers are cleared as in the source.
- `Framing.CutsAgreeExactly`: a receiver stops at its first refusal; what a connection that was only half-closed still reads is not modelled, and streams are bytes.
- `KeyValues.KvRefinesTimedMap`: for namespaces without a colon (`Namespaces.NamespacesCollideIff` covers the others) and a clock that does not go back.
- `StateAdapter.SqliteStateAdapter.Enqueue`: the await between the append and the count is not a scheduling point of this method; in runs of calls the append and the count are two calls, and any others may come between them.
- Connection budgets, suspension and relistening of the socket server, stop requests and live turn state.
- `RateWindow.TwiceTheBudget`: covers one lifetime of the host's session state; counters restart with the host process.
- `Delivery.NotifiedCommitsAreCovered`: rows enter when they are due; the attempt counter is that of one session, a failing host-state notification after a mark is not modelled, and bounce-back messages are ordinary commits.
- `RunnerControl.OneRunnerPerSession`: containers of the previous host process are adopted before anything else runs, one per session; memory, egress, network set-up and the boolean a wake promise resolves to are not modelled (it resolves to true also after a failed `docker run`).
- `SessionSweeps.LostExactlyInTheWindow`: what a sweep does is not modelled.
- `InputEdits.CancellationIsFinal`: the host rewrites only tasks; the two bookkeeping fields that recurrence writes into any completed recurring row (`src/modules/scheduling/recurrence.ts:78`) are not modelled.
- `Erasure.ErasureIsExact`: from tables whose list indices are not negative, as all tables reached from an empty one.
- `TokenLocks.AtMostOneHolder`: starts from an empty lock table, so rows left by an earlier process, whose handles are gone, do not appear.
- `BoundedQueue.QueueRefinesFifo`: the thread's own list is appended to without a time to live, as enqueue does.
- `Admission.UnreadableConfigIsCovered`: provider names are lower-cased in ASCII only, and names that happen to be properties of every JavaScript object are treated as unknown.
- Reading the snapshot of running containers (heartbeats, claims, due messages) and the memory budget.
- `Stuck.DecideStuckAction`: times are parsed already; whole milliseconds.
- `Activity.ReduceActivityLines`: the order of properties inside a step's JSON text.
- Retry and backoff of stuck rows, recurrence, routing, commands, provisioning and the web interface: one-branch facts or other files.
