# reliomq: verified model

A Dafny 4.11 model of the message path of reliomq: the crash-safe segmented Outbox, the GroupMode
persistence policy, the Sender's FIFO with FastMode RAM ownership, the stop-and-wait protocol of Sender and
Relay, and the consumer's duplicate filter. `dafny verify dfyconfig.toml` checks the project.

## How the model is built

* **Bytes and files.** `framing.dfy` has the segment and record layout at byte level (`>8sQ`, `>4sII`,
  big-endian) and the opening scan. The checksum is an arbitrary function and an envelope is an ID with its
  canonical bytes, assuming the decoder returns the ID of those bytes. `layout.dfy` says how records spread over
  segments.
* **The disk.** `disk.dfy` has what each system call does and what a crash may leave: any prefix of each file that
  keeps the synced bytes, and either outcome of each rename and unlink since the last directory fsync.
  `recovery.dfy` and `storage.dfy` relate the directory to a log of everything appended. Class `FileSystem` records
  the directory after every system call in `visited`, together with a floor and a ceiling between which every
  checkpoint there lies (`RunRecovers`). Every Outbox, policy and Sender method bounds the moments it adds
  (`Storage.Moments`): the records they may hold and the checkpoints that may be found, which are the old ones and
  the one in flight. So a crash inside a call is as well described as one between calls (`CrashInside`). A process
  that dies alone leaves the directory with bytes and names still to be synced; opening covers both
  (`Directory.Found`).
* **The Outbox.** Class `Outbox` (`outbox.dfy`) has the source's fields and loops. Each method is proved against
  the abstract queue of `queuespec.dfy`: the list of everything appended, the live head, the saved head, the
  durable length and the heads a crash may leave. The layers above use only that queue, and it is exact: a restart
  returns only what the queue allows (`CrashRefinesQueue`), and some crash makes it return each of those
  (`CrashReaches`).
* **Openings.** An opening is several system calls too, and any of them may fail. What a failed opening leaves can be
  opened as if it had not been tried: it shows no record and no checkpoint that was not there before, and keeps what
  was durable (`Openings.Retries`, in `openings.dfy`). `Reopen`, `Restart` and `Migrate` are given the call that
  fails, if any, succeed when none does, and may be repeated after a failure.
* **Failures.** Every system call may fail. An operation answers Done, Failed (the error is raised and the instance
  stays usable) or Wedged: the directory fsync of a rotation failed after its rename, or a failed append could not
  be undone. After Wedged memory no longer matches the directory; the model treats the instance as fail-stop until
  reopened, and its ghost field `shadow` is the queue that reopening follows. `faults.dfy` shows that this is needed.
  `FileSystem.faults` counts failed calls, and every contract that allows a failure allows it only when that count
  grew or a message is too large for a record: otherwise an operation succeeds.
* **Threads.** Each lock-protected section is one method or step. One delivery attempt is several of them: taking up
  the head (`PickOldest`), arming the tracker and publishing (`Deployment.Send`), the wait (`AwaitAck`) and the end of
  the attempt (`FinishAttempt`); anything else may happen between them. Timers are callbacks carrying a generation
  that may fire at any time; clocks are readings that never decrease.
* **The whole system.** `protocol.dfy` is the stop-and-wait protocol as a transition system. `deployment.dfy` puts
  real `Sender`, `AckTracker` and `Relay` objects under it: class `Deployment` keeps a ghost run of the protocol, and
  every call, callback, timer, fault, wedge, restart and delivery, in any order, extends that run and keeps the
  objects aligned with it, messages in RAM included. A call that stores or removes leaves a `Peril`: the process may
  also have died at any moment inside it, and `CutShort` continues the run from there. So the end-to-end theorems
  hold for the objects, before and after whatever restarts (`Guarantees`).

Where the source and its description differ, the model follows the code:

* A clean `stop` followed by a reopening is not always the identity. When a completion renamed the checkpoint past
  the head and then its directory fsync failed, that checkpoint may survive, although the message still counts as
  pending. This branch is the whole exception: after a normal return of `stop`, every restart returns exactly the
  pending FIFO if and only if no completion of the present head took it (`Sender.Shutdown`, whose flag
  `halfRemoved` is set by that branch alone, cleared by the head's completion and otherwise kept). `RestartExact` is
  the same on the directory, and `HalfRemovedMayVanish` a concrete case.
* First deliveries follow acceptance order except for a message that a crash lost after it was sent and before the
  destination had it (`EndToEndOrder`). Exactly those may be delivered late (`OrderExact`); a crash loses at most
  one of them (`StrayIsFirst`), and `LostMessageReorders` is a concrete case.
* An instance that is used on after a failed rotation or a failed rollback may leave a directory that does not
  open. `StaleAppendReopens` and `LeftoverReopens` say exactly when.
* A `flush` that raises leaves no timer armed, and a later append arms only the data timer; the contracts of
  `PersistencePolicy` say which calls restore which timer.

## Model

| member | source | states |
|---|---|---|
| Framing.BigEndianRoundTrip | reliomq/outbox.py:80-85 | header integers decode to what was encoded |
| Framing.ScanSegment | reliomq/outbox.py:955-1043 | the scan loop computes the recursive scan of the bytes, errors and torn tails included |
| Framing.TornTailExact | reliomq/outbox.py:955-1043 | for any cut at or after the header, the scan of an active segment returns exactly the records lying wholly before the cut and the last such boundary; a torn closed segment is an error |
| Framing.WholeSegmentScans | reliomq/outbox.py:955-1043 | an untorn segment scans to all its records |
| Framing.RepairThenAppend | reliomq/outbox.py:1015-1043 | truncating at the reported boundary and appending rescans to the survivors and then the new records |
| Framing.ReadEntry | reliomq/outbox.py:1151-1174 | an index entry reads back the record's bytes, also after later appends |
| Layout.SelectChunk | reliomq/outbox.py:444-467 | the chunk loop takes exactly the specified prefix and its byte count |
| Layout.ChunkFor | reliomq/outbox.py:444-472 | the chunk is never empty once rotation was considered, so the empty-chunk branch is dead |
| Layout.ChunkRefines | reliomq/outbox.py:437-481 | writing a chunk is appending its records one at a time, and the next record would have rotated |
| Layout.BatchRefinesSingles | reliomq/outbox.py:437-485 | a batch leaves exactly the segment layout of single appends |
| Layout.AppendEachFlat | reliomq/outbox.py:437-485 | no layout loses, repeats or reorders a record |
| Layout.BuildSegments | reliomq/outbox.py:756-788 | the migration builder produces the layout of appending to an empty queue |
| Loading.ScanAll | reliomq/outbox.py:826-840 | every segment is scanned, and opening fails exactly when one scan fails |
| Loading.IndexPending | reliomq/outbox.py:888-895 | the index is built exactly when pending IDs are distinct |
| Loading.LoadStorage | reliomq/outbox.py:803-901 | loading computes the specified pending list, head and scans, or fails exactly when specified |
| Recovery.LoadExact | reliomq/outbox.py:803-901 | a directory holding a log loads to the log from the checkpoint on |
| Recovery.CrashRecovery | reliomq/outbox.py:803-901 | whatever a crash leaves of a directory satisfying the invariant loads without error to the log from a surviving checkpoint to a point at or after the durable tail |
| Recovery.FoundFiles | reliomq/outbox.py:154-173 | whether the machine or only the process died, what reading the directory shows is something a crash could have left, and only the newest segment may have bytes to sync |
| Recovery.RepairedSettled | reliomq/outbox.py:1019-1036 | the repair leaves exactly the survivors, all durable, with the invariant restored |
| Storage.WriteSafe | reliomq/outbox.py:493-509 | a partly written chunk keeps the directory recoverable |
| Storage.RollbackSafe | reliomq/outbox.py:510-516 | truncating after a failed write restores the state before it |
| Storage.InstallSegmentSafe | reliomq/outbox.py:549-577 | a rotation's rename is safe because the closed segment was synced |
| Storage.InstallHeadSafe | reliomq/outbox.py:615-638 | a checkpoint's rename is safe at a synced record boundary |
| Storage.UnlinkSafe | reliomq/outbox.py:651-674 | deleting a segment below every surviving checkpoint is safe |
| Storage.RunRecovers | reliomq/outbox.py:391-684 | crash safety at every micro-step of any run: reopening yields the log of that moment from a surviving checkpoint, no lower than the floor of any earlier moment and no higher than the ceiling of that one, with every record durable at that or any earlier moment |
| Storage.CursorSafety | reliomq/outbox.py:845-877 | after a crash at any moment the checkpoint names an existing segment at a record boundary, every later segment exists and no closed segment is torn |
| Storage.FileSystem.Append | reliomq/outbox.py:493-509 | a write puts some prefix of the frames on disk, all of them when it succeeds, and the run stays safe |
| Storage.FileSystem.RenameHead | reliomq/outbox.py:626-640 | installing a checkpoint between the floor and the ceiling keeps the run safe; one past the ceiling, which only a removal raises, is never installed |
| OutboxSteps.CrashRefinesQueue | reliomq/outbox.py:803-901 | a crash reopens to a list the abstract queue allows, and each entry reads back the bytes appended |
| OutboxSteps.CrashInside | reliomq/outbox.py:391-684 | after a crash at any micro-step inside a call reopening yields the call's records from one of its checkpoints on, the old ones and the one in flight, each readable, with nothing missing that was durable before the call |
| OutboxSteps.ReopenAdvances | reliomq/outbox.py:154-174 | a crash and reopening loses no durable record and never lowers the floor under the checkpoints |
| OutboxSteps.KnownIds | reliomq/outbox.py:124-128 | pending plus volatile completed IDs are exactly those at or after the saved head |
| OutboxSteps.NewOnesFresh | reliomq/outbox.py:399-430 | what deduplication leaves repeats no ID still on disk at or after the saved head |
| Openings.RepairRetries | reliomq/outbox.py:1015-1036 | truncating the torn tail of whatever is found, before anything is synced, leaves a directory that opens as if nothing had happened |
| Openings.RetriesRecovers | reliomq/outbox.py:154-173 | whatever a crash leaves after any number of failed openings is still something the queue allows |
| OutboxClass.Outbox.Settle | reliomq/outbox.py:154-173 | the repair, the data sync and the barriers of opening make all that was seen durable; when one of them fails, what is left opens as if it had not been tried |
| OutboxClass.Outbox.Open | reliomq/outbox.py:119-174 | on the settled directory opening adopts exactly the survivors, all durable, with nothing volatile |
| OutboxClass.Outbox.ReadPending | reliomq/outbox.py:1151-1174 | reading a pending record returns its appended bytes |
| OutboxClass.Outbox.NormalizedCursor | reliomq/outbox.py:608-613 | the cursor of the live head |
| OutboxClass.Outbox.CursorAfterOldest | reliomq/outbox.py:601-606 | the cursor of the record after the live head |
| OutboxClass.Outbox.SyncData | reliomq/outbox.py:585-597 | a sync makes everything durable and changes nothing else; it fails only on a fault |
| OutboxClass.Outbox.PersistCheckpoint | reliomq/outbox.py:615-649 | success leaves one surviving checkpoint at the requested position; failure adds it to the survivors exactly when its rename took effect |
| OutboxClass.Outbox.CleanupCompletedSegments | reliomq/outbox.py:651-684 | without a fault exactly the closed segments before the checkpoint go; the log and the live segments stay |
| OutboxClass.Outbox.Checkpoint | reliomq/outbox.py:263-274 | sync, then checkpoint the live head, then clean up; the saved head moves only on success |
| OutboxClass.Outbox.RemoveOldest | reliomq/outbox.py:306-346 | the head leaves exactly when it equals the expected envelope; with sync it is durable and no other checkpoint survives; a failure leaves the FIFO as it was, and a checkpoint past the head survives exactly when it was renamed |
| OutboxClass.Outbox.Rotate | reliomq/outbox.py:549-583 | success adds an empty segment after syncing everything; a failed directory fsync wedges the instance, and reopening still returns what was queued |
| OutboxClass.Outbox.WriteBytes | reliomq/outbox.py:490-523 | the file half: written and synced, undone, or left with part of the bytes |
| OutboxClass.Outbox.WriteChunk | reliomq/outbox.py:487-539 | the chunk joins the queue, synced when asked, or nothing changes |
| OutboxClass.Outbox.AppendChunk | reliomq/outbox.py:441-484 | one loop iteration: some records written in order, layout as by single appends |
| OutboxClass.Outbox.WriteAll | reliomq/outbox.py:437-485 | all new records written with the layout of single appends, or a prefix of them on failure |
| OutboxClass.Outbox.Deduplicate | reliomq/outbox.py:409-430 | rejects exactly inconsistent or oversized batches, else returns the new envelopes in order |
| OutboxClass.Outbox.AppendMany | reliomq/outbox.py:391-485 | acceptance puts the whole batch among the pending envelopes, each with its content, in the layout of single appends; a failure needs a fault and leaves a prefix; rejection needs a conflicting or oversized envelope |
| OutboxClass.Outbox.Append | reliomq/outbox.py:219-232 | false exactly for a pending ID, which changes nothing |
| OutboxClass.Outbox.Get | reliomq/outbox.py:288-294 | the pending envelope with an ID, if and only if there is one |
| OutboxClass.Outbox.CompletedClosedSegmentPending | reliomq/outbox.py:353-362 | some closed segment lies wholly before the live head |
| OutboxClass.Reopen | reliomq/outbox.py:119-174 | opening what a running Outbox or a crash left fails only when a system call does, never on its contents, and can then be repeated |
| OutboxClass.Restart | reliomq/outbox.py:119-174 | after a crash or the death of the process, of a running or a wedged Outbox, and after any failed openings, a fresh one opens with a FIFO the queue allows |
| OutboxClass.RestartInside | reliomq/outbox.py:391-684 | after a death at any micro-step inside a call a fresh Outbox opens with the call's records from one of its checkpoints on, and all that was durable before |
| Restarts.CrashReaches | reliomq/outbox.py:803-901 | whatever the queue allows a restart to return is returned after some crash |
| Restarts.RestartExact | reliomq/outbox.py:154-174 | every crash reopens to exactly the pending FIFO if and only if all records are durable and every checkpoint that may survive is at the live head |
| QueueSpec.NewOnesMeaning | reliomq/outbox.py:409-430 | the new envelopes are distinct, unknown, and all of the batch that was not known |
| QueueSpec.BatchIsPending | reliomq/outbox.py:409-430 | after a consistent batch every one of its envelopes is pending |
| QueueSpec.CoveredAppends | reliomq/persistence.py:221-269 | the counters still cover the exposure when the Outbox synced or checkpointed inside an append |
| QueueSpec.ExposureBounded | reliomq/persistence.py:152-192 | a crash loses at most the counted unsynced suffix and replays at most the counted acknowledged messages |
| QueueSpec.PrefixAcceptable | reliomq/sender.py:772-786 | a spill batch never conflicts with what is already stored of it |
| QueueSpec.SpillStores | reliomq/sender.py:761-786 | a spill of a partly stored list leaves it stored up to some point, in order |
| QueueSpec.SpillRetries | reliomq/sender.py:735-807 | after any sequence of failing spills every message is stored once, in order, and all those a successful spill selected |
| Policy.PersistencePolicy.constructor | reliomq/persistence.py:41-82 | a fresh policy over a freshly opened Outbox exposes nothing, and no sync or checkpoint has failed |
| Policy.PersistencePolicy.ArmDataTimer | reliomq/persistence.py:320-343 | afterwards unsynced work with an interval has exactly one current timer, due within the interval |
| Policy.PersistencePolicy.ArmAckTimer | reliomq/persistence.py:345-370 | the same for acknowledgement progress |
| Policy.PersistencePolicy.SyncGroupData | reliomq/persistence.py:271-289 | success clears the counters with everything durable; failure keeps them and, when suppressed, re-arms the timer |
| Policy.PersistencePolicy.CheckpointGroup | reliomq/persistence.py:291-318 | success clears all counters and both timers; failure keeps them |
| Policy.PersistencePolicy.AppendGroup | reliomq/persistence.py:221-269 | counters keep covering the exposure and stay below their thresholds unless the last sync failed; consumed closed segments are checkpointed |
| Policy.PersistencePolicy.Append | reliomq/persistence.py:116-136 | appends once and, in DurableMode, durably |
| Policy.PersistencePolicy.Complete | reliomq/persistence.py:152-192 | the head leaves exactly when it matches; durable modes leave one surviving checkpoint |
| Policy.PersistencePolicy.Flush | reliomq/persistence.py:203-219 | a normal return leaves everything durable, only the live head, no timer and no failed attempt behind |
| Policy.PersistencePolicy.OnDataTimer | reliomq/persistence.py:386-391 | a stale callback changes nothing; a current one leaves the data timer disciplined |
| Policy.PersistencePolicy.OnAckTimer | reliomq/persistence.py:393-398 | the same for the ACK timer |
| Policy.GroupCrash | reliomq/persistence.py:221-318 | without a failed last sync or checkpoint, a crash image reads back from at most ack_checkpoint_messages-1 before the live head to at most sync_messages-1 messages and fewer than sync_bytes bytes short of the end |
| Policy.FaultFreeCrash | reliomq/persistence.py:221-318 | the same after any sequence of calls, as long as no system call failed |
| SenderClass.Sender.constructor | reliomq/sender.py:225-262 | recovered messages are the Outbox's FIFO, all on disk |
| SenderClass.Sender.SelectBatch | reliomq/sender.py:735-763 | the longest RAM prefix within both batch limits, but at least one message |
| SenderClass.Sender.AppendBatch | reliomq/sender.py:772-775 | a spill leaves the Outbox holding the disk part and a RAM prefix whose items were all attempted, even when it wedges it; only a fault or a message too large for a record stops it |
| SenderClass.Sender.Confirm | reliomq/sender.py:776-786 | a retried batch is read back exactly as appended and synced; only a fault stops it |
| SenderClass.Sender.Release | reliomq/sender.py:792-798 | ownership moves for exactly the stored prefix |
| SenderClass.Sender.SpillBatch | reliomq/sender.py:735-807 | a prefix moves to disk or, only after a fault or with a message too large for a record in RAM, the RAM queue is unchanged with nothing left PERSISTING |
| SenderClass.Sender.SpillAll | reliomq/sender.py:729-733 | terminates, with an empty RAM queue on success |
| SenderClass.Sender.MakeRoom | reliomq/sender.py:809-832 | room for the message within both hard limits; rejection only for a message above the RAM limit, after a fault, or with a message too large for a record in RAM |
| SenderClass.Sender.SpillHighWater | reliomq/sender.py:854-866 | ends below both high-water marks, unless after a fault or with a message too large for a record in RAM |
| SenderClass.Sender.Schedule | reliomq/sender.py:876-923 | one current timer by the age or disconnect deadline, or the retry time when later; none for an empty queue |
| SenderClass.Sender.RunMaintenance | reliomq/sender.py:933-967 | when it runs without error no RAM message is overdue, both marks are respected and a due disconnect empties the queue |
| SenderClass.Sender.OnFastTimer | reliomq/sender.py:925-931 | a stale timer changes nothing |
| SenderClass.Sender.EncodedOf | reliomq/sender.py:67-87 | a message's bytes are its accepted content wherever it is stored |
| SenderClass.Sender.PublishFast | reliomq/sender.py:566-581 | accepted messages join the FIFO's end, rejected ones change nothing in it; limits and marks hold |
| SenderClass.Sender.PublishStored | reliomq/sender.py:582-609 | the message joins the FIFO exactly when the policy accepts it |
| SenderClass.Sender.Publish | reliomq/sender.py:554-610 | an identical pending message and other content under a pending ID change nothing, in memory or on disk; a new message joins the FIFO's end or is rejected; armed timers stay armed |
| SenderClass.Sender.PersistPrefix | reliomq/sender.py:766-798 | a selected prefix is marked, stored and released, or unmarked again |
| SenderClass.Sender.RemoveStored | reliomq/sender.py:1027-1042 | the Outbox removes exactly the logical head, or nothing; it never disagrees about the oldest message |
| SenderClass.Sender.CompleteItem | reliomq/sender.py:998-1070 | an acknowledged head leaves the FIFO and its store, or neither and only after a fault; after the stop flag nothing leaves; `halfRemoved` is set exactly by the rename whose directory fsync failed |
| SenderClass.Sender.PromoteForRetry | reliomq/sender.py:969-996 | on success a head relied on for retry is on disk |
| SenderClass.Sender.PickOldest | reliomq/sender.py:1262-1276 | the head with its exact bytes, or why there is no attempt |
| SenderClass.Sender.FinishAttempt | reliomq/sender.py:1305-1364 | the head leaves only after both the publish confirmation and a matched acknowledgement, and then does unless the sender stopped or storing failed; otherwise the FIFO is unchanged |
| SenderClass.Sender.Shutdown | reliomq/sender.py:449-469 | a normal return leaves the whole FIFO in the Outbox, and every crash reopens to exactly that FIFO if and only if `halfRemoved` is not set; unsynced and unsaved work has its timers again |
| Faults.StaleAppendReopens | reliomq/outbox.py:487-581 | after a rotation whose directory fsync failed, one more append leaves a directory that every crash reopens if and only if it wrote nothing or synced all it wrote |
| Faults.LeftoverReopens | reliomq/outbox.py:510-581 | after a failed append that was not taken back and a rotation, every crash reopens if and only if no bytes are left, or whole records are left and synced |
| Faults.FaultsReachable | reliomq/outbox.py:541-547 | an Outbox with one record meets the hypotheses of both |
| Faults.HalfRemovedMayVanish | reliomq/outbox.py:638-644 | a removal whose directory fsync failed may or may not survive a crash |
| Acknowledgements.WaitExact | reliomq/ack.py:30-92 | the tracker is matched and not interrupted exactly when a match for the begun ID came before any timeout, with no interruption |
| Acknowledgements.LateMatchHarmless | reliomq/ack.py:49-65 | wrong, late and stale matches change nothing, now or later |
| Acknowledgements.AckTracker.Begin | reliomq/ack.py:30-47 | accepted exactly for a non-empty ID with no active expectation |
| Acknowledgements.AckTracker.Match | reliomq/ack.py:49-65 | true exactly for the expected ID of an uninterrupted expectation |
| Acknowledgements.AckTracker.Decide | reliomq/ack.py:67-76 | `wait` answers true exactly for a confirmed expectation |
| Protocol.StepInv | reliomq/sender.py:1259-1406 | every step of sender, relay, brokers and crashes keeps the protocol invariant |
| Protocol.EndToEndSafety | reliomq/relay.py:436-531 | in every run a message that left the FIFO, or whose acknowledgement is in flight, was accepted by the destination with its ID and payload |
| Protocol.EndToEndOrder | reliomq/sender.py:1265-1366 | in every run a message, surviving or lost, is first delivered before any accepted after it, unless a crash lost it sent but undelivered; only never-sent messages are passed over |
| Protocol.OrderExact | reliomq/sender.py:1388-1406 | a message a crash loses keeps its place in every continuation if and only if it was not yet sent or already delivered |
| Protocol.StrayIsFirst | reliomq/sender.py:1265-1366 | a surviving message that is sent but undelivered is the first undelivered one |
| Protocol.LostMessageReorders | reliomq/sender.py:1388-1406 | a message a crash lost can be delivered after a later one |
| Protocol.CompletedHandledOnce | examples/consumer_dedup.py:54-65 | every message that ever left the FIFO, also one a later crash drops from the log, is handled exactly once when repetitions stay inside the window |
| Protocol.RelayAttemptRuns | reliomq/relay.py:436-531 | what one forwarding attempt publishes is a run of the protocol |
| EndToEnd.AcceptMatches | reliomq/sender.py:554-610 | an accepted message, in RAM or on disk, is an acceptance of the protocol |
| EndToEnd.RemoveMatches | reliomq/sender.py:998-1056 | a completed removal is one of the protocol |
| EndToEnd.ReachAligned | reliomq/sender.py:554-1070 | at every micro-step inside a Sender call the Outbox may hold only what the protocol has at the same places, with the checkpoint at or before the head unless its removal was asked for |
| EndToEnd.CrashMatches | reliomq/outbox.py:803-901 | whatever a crash leaves is a sender crash of the protocol, and the reopened FIFO is the protocol's |
| EndToEnd.Deployment.Publish | reliomq/sender.py:554-610 | publishing keeps the run; what an append that raised may have stored counts as accepted |
| EndToEnd.Deployment.Pick | reliomq/sender.py:1262-1276 | taking up the head, with any maintenance, is no step |
| EndToEnd.Deployment.Send | reliomq/sender.py:1287-1304 | with the tracker expecting the head's ID, publishing it is the protocol's attempt, never after the stop flag |
| EndToEnd.Deployment.AckComes | reliomq/sender.py:1149-1170 | the tracker takes an acknowledgement only for the ID of the attempt under way, and then it is the protocol's; any other is no step |
| EndToEnd.Deployment.AwaitAck | reliomq/sender.py:1338-1344 | the wait answers true exactly when the awaited acknowledgement came in time and nothing interrupted, and then the destination has the head |
| EndToEnd.Deployment.Finish | reliomq/sender.py:1305-1366 | the end of an attempt is a run; a message leaves only after a wait that answered true, and was accepted by the destination |
| EndToEnd.Deployment.Restart | reliomq/outbox.py:119-174 | a new Sender on what a crash or the death of the process left, wedged or not, continues the run; an opening that fails changes nothing and can be repeated |
| EndToEnd.Deployment.CutShort | reliomq/sender.py:554-1070 | when the process or the machine dies at any micro-step inside a call, a new Sender continues the run from there |
| EndToEnd.Deployment.RelayReceives | reliomq/relay.py:370-424 | queuing a message is a step of the protocol, rejecting it none |
| EndToEnd.Deployment.RelayWorks | reliomq/relay.py:533-553 | one turn of the worker is a run of the protocol |
| EndToEnd.Deployment.RelayStops | reliomq/relay.py:652-694 | stopping or losing the relay is a step of the protocol |
| EndToEnd.Deployment.Guarantees | reliomq/sender.py:1265-1366 | after any sequence of calls, deaths inside them and restarts, everything that had left the FIFO at any moment of the run was delivered, and messages that are no strays were first delivered in order |
| RelayClass.Relay.OnSourceMessage | reliomq/relay.py:370-424 | queued exactly when intake is open, the message is valid and there is room |
| RelayClass.Relay.ForwardOnce | reliomq/relay.py:436-531 | a DeliveryAck directly follows the confirmed forwarding of its message |
| RelayClass.Relay.WorkOnce | reliomq/relay.py:533-553 | takes one queued message and forwards it unless stopping |
| RelayClass.Relay.Stop | reliomq/relay.py:652-694 | queued messages are abandoned without acknowledgements |
| ConsumerDedup.Deduplicator.AlreadyProcessed | examples/consumer_dedup.py:38-45 | true exactly when the ID was seen before with at most MAX_REMEMBERED_IDS-1 distinct others since |
| ConsumerDedup.NewestContains | examples/consumer_dedup.py:38-45 | an ID is among the n most recent exactly when fewer than n distinct others were seen since |
| ConsumerDedup.NewestTouch | examples/consumer_dedup.py:38-45 | one step of the bounded map keeps the most recent IDs of the whole stream |
| ConsumerDedup.HandledOnce | examples/consumer_dedup.py:54-65 | a message repeated only inside the window is handled at its first delivery only |
| Legacy.ReadLegacyPending | reliomq/outbox.py:1047-1087 | the journal loop computes the replay |
| Legacy.ReplayHistory | reliomq/outbox.py:1047-1087 | replaying the journal of any valid history yields its FIFO |
| Legacy.IgnoredLine | reliomq/outbox.py:1055-1086 | corrupt, duplicate and out-of-order lines can be struck out without changing what survives |
| Legacy.SurvivorsInOrder | reliomq/outbox.py:1047-1087 | survivors of any journal are distinct and in the order they were enqueued |
| Legacy.InstalledSafe | reliomq/outbox.py:756-801 | a freshly built directory satisfies the directory invariant with everything durable |
| Legacy.Migrate | reliomq/outbox.py:708-788 | migrating and opening a journal returns exactly the replayed messages; it fails only when one is too large or a system call fails, and once the directory has its name a later opening returns them, whatever crashes come |

## Left out

- OutboxClass.Outbox.Append, AppendMany, Rotate and the Sender methods after a wedge: nothing is promised about a wedged instance in memory, only what reopening its directory returns; the source keeps accepting calls there.
- OutboxClass.Outbox.Open: the two generation counters start at zero, not at the checkpoint's own number and one sync; only whether they grow is ever read.
- OutboxClass.Outbox.Settle: that a parent directory's own entry was never synced is not part of the directory's state; its barrier is a call that may fail.
- EndToEnd.Deployment.CutShort: comes before any later step of the relay and the brokers; what they do between the death and the restart follows the restart in the run.
- JSON and topic encoding, ID validation, CRC collisions: an envelope is an ID with bytes that decode to it.
- `format.json`, a missing or unreadable checkpoint written by nobody, and stray files: loading handles a missing or misplaced checkpoint, but no run of the model produces one.
- Temporary files: a temporary file is written and synced before its rename, so each is one rename step that works or does not.
- Disk assumptions: truncation takes effect at once, a failed fsync makes nothing durable and loses nothing, a failed rename or unlink has no effect, and directory fsync is supported.
- The `_volatile_cursor` field: it is written but never read for a decision.
- Aliasing of one envelope object by several owners, payload snapshots and logging.
- Real threads, condition variables and `wait_for_delivery`: locked sections are atomic and timers are callbacks.
- MQTT sessions, SUBACK bookkeeping, reconnect backoff: connection states and publish results are arbitrary.
- `Sender.start` and the mid-run `connect`/`disconnect` callbacks, except that maintenance reads the disconnect time.
- SenderClass.Sender.Schedule: deadlines and high-water marks are computed over real numbers, not binary floating point.
- Protocol.EndToEndOrder: says nothing about a message a crash lost sent but undelivered, because the order does not hold for it (OrderExact).
- Legacy.Migrate: assumes fewer than 2^64-1 messages, the range of a segment number; a crash before the parent directory is synced, which leaves the journal alone, is not a separate outcome; choosing between the path, its sidecar directory and a fresh queue is left out.
- `PersistencePolicy.checkpoint`, `Outbox.load`, `size`, `contains`, `compact`: thin wrappers over members above.
