# A verified model of the LAN file-transfer engine

The crate sends files between two devices of one network and shows their progress to any number of
subscribers. This project models its five hard parts and proves what they promise, for every input,
every interleaving and every run of unbounded length. `dafny verify dfyconfig.toml` checks all of it.

## What is modelled

**Snapshots and deltas** (`Replication`, `ReplicationRuns`, `ReplicationProofs`,
`ReplicationEmission`, `ReplicationFinality`, `ReplicationLimits`, `Manager`, `Subscription`,
`SubscriptionEvents`). Writers change shared state under a lock and publish either a full snapshot or a
throttled delta. `Replication` is a transition system whose steps are the lock-protected sections of the
code: record progress, forget an emission, mutate, push, publish, and on the subscriber's side mark the
watch, read a baseline, receive a delta, lag, or drop the call midway. The watch channel is a version
counter; the broadcast channel is a log of which only the newest 256 entries can still be received. A
subscriber's replica is replaced by a snapshot and patched by a delta. A `Trace` remembers what the
server held at each revision; no step reads it except to order a transfer's own steps, as its task does.
`Manager` and `Subscription` are the two objects, updated in place; between two of their accesses to
shared state other tasks take any steps, and each method is proved to contribute exactly its own steps to
the run.

**The two-party protocol** (`Session`, `SessionProofs`, `SessionRuns`, `SessionLiveness`,
`SessionStreams`, `SessionDecisions`, and in detail `Router`, `RouterDelivery`, `JobPauses`, `ReceiveTasks`, `ReceiveFiles`, `JobControl`, `JobLifetime`). A sender and a receiver exchange
an offer, an answer and a completion over a control stream, and one stream per file, dispatched by a
router into a queue of four. Both sides may fail, be paused or be cancelled at any step.

**The byte loops** (`FileStream`), **the transfer entity, its history and restart** (`Transfer`,
`History`), and **offers, listing, paths and the final placement of a file** (`Offer`, `Listing`,
`PathNames`, `SafePaths`, `Finalize`).

## What is proved, and what turned out not to hold

- A delivered delta leaves the replica of its transfer as the server held it at the delta's revision,
  including files the delta does not carry, but for changes that were never sent (`DeltaExactness`, with
  both directions). Such changes exist because a terminal transition forgets what is dirty
  (`src/application/manager.rs:755-761`): `ForgottenProgressIsLost` exhibits a run, `ForgottenFileTrails`
  shows that every such loss is visible in every later delta until it is repaired, and
  `DeltaExactWithoutForgetting` that nothing is lost without such a transition since a full snapshot.
- A subscriber with nothing left to see is up to date, unless a `next()` future was dropped while it
  waited for its baseline. The comment at `src/subscription.rs:42` says that dropping the future keeps
  the receivers' positions; the code marks the watch as seen before it waits for the state lock, so the
  snapshot that woke it is lost (`DroppedBaselineHappens`). `DropLosesIff` says exactly when a drop loses
  something: when a full snapshot was published since the subscriber's base. `AbandonedStaysBehind` says
  that it stays lost until a baseline is read, and `NoLostUpdate` that nothing else loses an update.
- Sender completed implies receiver completed with every file delivered intact; the converse fails, as a
  pause that lands after the last byte ends as a failure of the sender (`LatePauseHappens`).
  `SenderCompletesIff` gives the exact condition.
- The bounds on what is in flight never block a transfer (`NoStateIsStuck`): both sides can complete from
  every reachable state in which neither job failed, exactly if both statuses still allow the changes
  ahead. Besides a cancellation, a resume spoils the sender's status when it arrives before the sender
  awaits the answer: it moves the status from connecting to transferring, from which the change to
  awaiting approval is refused (`EarlyResumeFails`, and `EarlyResumeHappens` for a run).
- Finalization never touches an existing entry. A dangling symbolic link under the first missing name
  makes it fail although thousands of other names are free, as existence checks follow links and hard
  linking does not (`DanglingLinkBlocks`); `FinalizeStaged` and `LinkableUnlessDangling` give the exact
  condition. The repository's own README speaks of an atomic rename; the code makes a hard link and then
  removes the staged name, and a failure between the two leaves both, as `FinalizeStaged` states.
- Two files of one name make an offer that every receiver refuses; `BuiltOfferIsValidIff` says exactly
  which built offers pass.

## Model

| member | source | states |
|---|---|---|
| ReplicationEmission.EmitsIff | src/application/manager.rs:721-750 | An accepted report emits a delta if and only if it is due, the transfer has no known last emission, or the file is full now; then nothing stays dirty, otherwise the report is added to what is |
| ReplicationEmission.TotalsAfterReport | src/application/manager.rs:714-720 | A report leaves its time and speed, and at that speed the whole seconds until the missing bytes are there |
| ReplicationEmission.FullFilesAreSent | src/application/manager.rs:722-727 | In every run whatever is dirty is a file that still misses bytes, so the last report of a transfer is always broadcast |
| ReplicationEmission.FillingIsBroadcast | src/application/manager.rs:728-748 | Right after a report that fills its file nothing of its transfer is dirty and the newest delta carries the file |
| ReplicationProofs.RecordShape | src/application/manager.rs:697-753 | An accepted progress report rewrites exactly its file and the totals, and a delta carries everything dirty under the next revision |
| ReplicationProofs.MutateApplies | src/application/manager.rs:667-684 | An accepted mutation applies its edit to its transfer, leaves every other listed one alone and keeps at most 200 terminal ones |
| ReplicationProofs.MutateKeepsList | src/application/manager.rs:667-684 | An accepted mutation keeps ids, uniqueness and dirty values, and changes no bytes of any listed transfer |
| ReplicationProofs.PushLists | src/application/manager.rs:686-695 | A pushed active transfer is listed first, and the others stay, pruned |
| ReplicationProofs.PublishKeepsInv | src/application/manager.rs:797-803 | A full snapshot takes the next revision, becomes the last full one, and leaves nothing unsent |
| ReplicationProofs.ReceiveKeepsSub | src/subscription.rs:58-66 | A received entry keeps the cursor and the replica right, and one that applies makes the replica exact at its revision |
| ReplicationProofs.PatchedTrails | src/application/manager.rs:736-746 | Patching a replica with an emitted delta leaves behind exactly the changes that the delta does not carry |
| ReplicationProofs.StepKeepsInv | src/application/manager.rs:667-803 | Every step of every writer and subscriber keeps the replication invariant |
| ReplicationProofs.DeltaExactness | src/application/manager.rs:697-753 | In every interleaving, after delivering a delta the replica has the totals of the delta's revision, and a file's exact bytes if and only if the file has no unsent change since the subscriber's baseline; otherwise it has fewer |
| ReplicationProofs.RevisionDiscipline | src/application/manager.rs:728-750 | Broadcast revisions strictly increase, `last_full_revision` is a function of the revision, and the base test is implied by the revision test |
| ReplicationProofs.BaseTestIsImplied | src/subscription.rs:60-62 | A delta with the subscriber's next revision always carries the subscriber's base |
| ReplicationProofs.DeliveredRevisionsNeverDecrease | src/subscription.rs:30-66 | No step takes a subscriber back to an earlier revision |
| ReplicationProofs.NoLostUpdate | src/subscription.rs:30-40 | A subscriber with no unseen change and no queued delta holds the server's revision and base if and only if it dropped no call that had something to make up for |
| ReplicationProofs.GapMeansFull | src/subscription.rs:60-64 | A delta that leaves a gap, with none passed over, means that a full snapshot lies between |
| ReplicationProofs.QuiescentConvergence | src/application/manager.rs:667-695 | With nothing unpublished, unemitted or forgotten, a drained subscriber's replica is the server's state |
| ReplicationLimits.BehindUntilRead | src/subscription.rs:58-64 | A subscriber behind the last full snapshot stays behind, whatever deltas come, until it reads a baseline |
| ReplicationLimits.DropLosesIff | src/subscription.rs:30-43 | Dropping `next` inside its baseline, with nothing queued, loses something if and only if a full snapshot was published since the base |
| ReplicationLimits.AbandonedStaysBehind | src/subscription.rs:30-43 | What a drop lost stays lost in every continuation until a baseline is read |
| ReplicationLimits.DroppedBaselineHappens | src/subscription.rs:42-56 | Such a run exists: one subscriber, one publication, one dropped call |
| ReplicationLimits.DeltaExactWithoutForgetting | src/application/manager.rs:721-750 | A delivered delta is exact for every file if no terminal transition of its transfer happened since a full snapshot before it |
| ReplicationLimits.ForgottenFileTrails | src/application/manager.rs:755-761 | Once a change that a subscriber has not read is forgotten, every later delta of the transfer leaves it with fewer bytes of that listed file, until a report, a snapshot or a baseline repairs it |
| ReplicationLimits.ForgottenProgressIsLost | src/application/manager.rs:755-761 | From an empty history, a run in which a delta delivered in sequence leaves a forgotten file behind |
| Manager.TransferManager.RecordProgressLive | src/application/manager.rs:697-753 | The method changes the manager exactly as the critical section says, and not at all on an error |
| Manager.TransferManager.EmitSnapshot | src/application/manager.rs:797-803 | The method is one publication |
| Manager.ServerOfRun | src/application/manager.rs:667-803 | Every run of the whole system moves its server as the methods' contracts say |
| Manager.WritesExtend | src/application/manager.rs:728-750 | Whatever others write, the delta log only grows, by entries newer than all before |
| Manager.MutationLands | src/application/manager.rs:667-684 | Undisturbed, an accepted mutation is written and published, and a refused one changes nothing |
| Manager.TransferManager.WriteTransfer | src/application/manager.rs:671-680 | The locked part of a mutation writes and prunes, or changes nothing |
| Manager.TransferManager.MutateTransfer | src/application/manager.rs:667-684 | A mutation contributes its write and its publication to the run, with others' steps between them; a refused one contributes nothing |
| Manager.TransferManager.PushTransfer | src/application/manager.rs:686-695 | Listing a transfer contributes its write and its publication, with others' steps between them |
| Manager.TransferManager.TransitionTransfer | src/application/manager.rs:755-761 | A terminal transition forgets the emission first, others may step in, and the mutation that follows may be refused |
| Manager.TransferManager.FailTransfer | src/application/manager.rs:763-774 | Forgets the emission, and then ends the transfer as failed unless it already ended meanwhile |
| Subscription.TransferSubscription.ReadBaseline | src/subscription.rs:30-40 | Marks the watch, lets others write, and delivers the state and base of one later instant |
| Subscription.TransferSubscription.TakeDelta | src/subscription.rs:58-66 | Skips an old entry, delivers a fitting one and demands a baseline otherwise, as the transition system does |
| Subscription.TransferSubscription.TakeError | src/subscription.rs:67-71 | Delivers the next diagnostic, or how many were dropped |
| Subscription.TransferSubscription.Next | src/subscription.rs:43-73 | While others write, stop the manager or report errors between its accesses, a call is a run of the subscriber's own steps among theirs, and its outcome tells the state it leaves; without others the outcome is determined, in the order of the code's select |
| Subscription.PlayFollowsRun | src/subscription.rs:43-73 | Every run of the whole system moves each subscriber as the methods' contracts say |
| Subscription.NextIsARun | src/subscription.rs:43-73 | An undisturbed call of `next` is a run of the subscriber's own steps |
| Subscription.NextCatchesUp | src/subscription.rs:43-73 | From every reachable state finitely many calls reach the server's revision, and its state when it is quiet |
| SubscriptionEvents.EveryDeltaIsDelivered | src/subscription.rs:58-66 | In every run, deltas that follow a drained subscriber's revision, at most 256 and without a full snapshot, are delivered once each and in order |
| SubscriptionEvents.FirstEvents | src/subscription.rs:18-28 | A new subscriber is told the current state once, and nothing that was broadcast before |
| SubscriptionEvents.DiagnosticsInOrder | src/subscription.rs:67-71 | Diagnostics arrive once and in order; if more than 32 wait, the number dropped and then the newest 32 |
| Transfer.TransferView.Transition | src/domain/transfer.rs:85-117 | Changes status and time exactly when the status machine allows it |
| Transfer.WhereStatusesComeFrom | src/domain/transfer.rs:85-107 | The status machine, read by what may come before each status |
| Transfer.TransferView.RecordProgress | src/domain/transfer.rs:119-139 | The in-place search and update agree with the value function and keep conservation; with unique ids the shortcut finds what a linear search finds |
| Transfer.Position | src/domain/transfer.rs:130 | The first position of an id, if any |
| Transfer.RecordConserves | src/domain/transfer.rs:132-138 | A report keeps the total equal to the sum of the files, each within its size |
| Transfer.EditConserves | src/infrastructure/quic.rs:162-198 | Resets, previews, located files and status changes keep conservation |
| Transfer.FailEnds | src/application/manager.rs:763-774 | A failure ends an active transfer as failed with its message, and leaves an ended one alone |
| Transfer.FilesAfterEdit | src/infrastructure/quic/receiver.rs:518-531 | Resets, previews and located files change exactly the files and fields they are about |
| Transfer.RefusedEdits | src/domain/transfer.rs:85-117 | Exactly which edits are refused, and what an accepted transition changes |
| Transfer.ProgressIsConserved | src/domain/transfer.rs:119-139 | Over every run the total is the sum of the files, bounded by `total_bytes`, so the 64-bit addition never overflows, and without a reset no file loses bytes |
| ReplicationFinality.StepIsFinal | src/domain/transfer.rs:85-139 | No step of any task changes the status or the progress of a terminal transfer that it leaves listed, or lists a pruned one again |
| ReplicationFinality.TerminalIsFinal | src/application/manager.rs:667-774 | In every run, once a transfer is terminal, its status, its total and the bytes of every file never change while it is listed |
| Transfer.CompletionRoute | src/domain/transfer.rs:87-107 | From every status in which a transfer is listed, it completes only after connecting and then transferring |
| History.PruneKeeps | src/application/manager.rs:829-839 | Pruning keeps order, all active transfers and exactly the first 200 terminal ones |
| History.PruneIdempotent | src/application/manager.rs:829-839 | Pruning twice is pruning once |
| History.PruneTransferHistory | src/application/manager.rs:829-839 | The `retain` with a running counter is that pruning |
| History.SortSorts | src/infrastructure/persistence.rs:49 | The sort is descending and stable |
| History.StableSortIsUnique | src/infrastructure/persistence.rs:49 | Two stable descending orders of the same list are equal |
| History.Load | src/infrastructure/persistence.rs:33-52 | Loading yields at most 200 terminal transfers, newest first |
| History.RestartResult | src/infrastructure/persistence.rs:33-70 | A restart lists the stable sort of the first 200 saved transfers, all terminal, and pruning changes nothing |
| History.SavedIsCompact | src/infrastructure/persistence.rs:54-70 | What is saved is the first 200 transfers, in order, without thumbnails, speed and remaining time |
| History.InterruptedIsFailed | src/infrastructure/persistence.rs:39-48 | After a restart each interrupted transfer is failed with a message, each ended one is as it ended, and all show the progress they had |
| History.RestartIsFixpoint | src/infrastructure/persistence.rs:33-70 | One save and load cycle reaches a fixpoint of all further ones |
| JobControl.NoLostWakeup | src/application/manager.rs:68-105 | In every interleaving a waiter sleeps only while paused and not cancelled, or while the notification is still to come |
| JobPauses.PauseHolds | src/application/manager.rs:73-97 | After a pause, until somebody resumes, no waiter gets Ok that had not got it before |
| JobPauses.CancelHolds | src/application/manager.rs:102-105 | After a cancel no waiter ever gets Ok that had not passed its check |
| JobPauses.CompletedCallsWake | src/application/manager.rs:98-105 | Once all calls have sent their notifications, nobody sleeps after a cancel or after a resume without a later pause, and after an attach sleepers listen for the connection |
| JobPauses.ClosingReleases | src/application/manager.rs:83-90 | Whoever listens for the connection fails when it closes |
| JobPauses.NobodyWaitsForNothing | src/application/manager.rs:73-93 | Without a pause or a cancel no waiter ever sleeps or fails |
| JobPauses.IterationEnds | src/application/manager.rs:73-93 | Left to itself a waiter fails if the job is cancelled, sleeps if it is paused, and otherwise gets Ok |
| JobControl.AwakeWaitersCanStep | src/application/manager.rs:73-93 | A waiter that is not asleep and has not returned always has a step |
| JobControl.CancelIsFinal | src/application/manager.rs:73-79 | After a cancel, a waiter that has not passed its check never returns Ok |
| JobControl.OkMeansReady | src/application/manager.rs:73-82 | In every run, a waiter that got Ok read not-cancelled at one step, did nothing of its own in between, and read not-paused at a later one |
| JobLifetime.HandlingEnds | src/application/manager.rs:755-774 | The job's own error handling leaves its transfer terminal, whatever its status was |
| JobLifetime.StepKeepsInv | src/application/manager.rs:444-463 | Every active transfer is owned by a job that has yet to end it, through all points of the sending and the receiving body |
| JobLifetime.HowPointsAreReached | src/infrastructure/quic.rs:155-242 | From which point and by which mutation each point of the sending and the receiving body is reached |
| JobLifetime.BodiesAdvance | src/application/manager.rs:667-684 | An accepted mutation is applied and takes the body on; a refused one breaks the body and changes nothing |
| JobLifetime.FailureIsRecorded | src/application/manager.rs:452-461 | A failed job leaves its active transfer failed with its message, a cancelled one leaves it cancelled |
| JobLifetime.NoSpaceIsRecorded | src/infrastructure/quic/receiver.rs:211-231 | Missing space ends the transfer as failed with its message |
| JobLifetime.UserActs | src/application/manager.rs:490-527 | A user's cancellation ends every active transfer, and a pause or resume acts where the status machine lets it |
| JobLifetime.JobEndMeansTerminal | src/application/manager.rs:444-463 | In every run, when a body returns Ok and when a job releases its slot after success, refusal, error or cancellation, its transfer is terminal |
| JobLifetime.ListsAreBounded | src/application/manager.rs:397-412 | At most 16 transfers are active and at most 216 listed |
| FileStream.SendFile | src/infrastructure/quic/sender.rs:112-143 | For every chunking the stream only ever carries a prefix of the encoding, and ends only as all of it |
| FileStream.ReceiveFile | src/infrastructure/quic/receiver.rs:452-502 | For every chunking: done if and only if the stream is complete, unless interrupted; what is staged is always a prefix of the stream |
| FileStream.ReceiveEnd | src/infrastructure/quic/receiver.rs:480-502 | Digest and end-of-stream checks pass exactly on a complete stream |
| FileStream.RoundTrip | src/infrastructure/quic/sender.rs:112-143 | The receiver ends with the sender's bytes; without faults both succeed exactly when the source is unchanged |
| ReceiveFiles.Grants.Consume | src/infrastructure/quic/receiver.rs:380-402 | A grant passes exactly the right, unused, unexpired ticket, and is then used |
| ReceiveTasks.ReportKeeps | src/infrastructure/quic/receiver.rs:470-478 | A report of any receive in flight, accepted or refused, keeps the view in step with all of them |
| ReceiveTasks.JoinSet.JoinNext | src/infrastructure/quic.rs:381-387 | Among arbitrary reports and user actions, one receive finishes; a success means that its file is complete in the view |
| ReceiveTasks.JoinUntil | src/infrastructure/quic/receiver.rs:337-339 | Joining leaves fewer receives than the limit, or one failed |
| ReceiveTasks.AllJoined | src/infrastructure/quic/receiver.rs:374-377 | With all joined and none failed, the view is complete and every stream was whole |
| ReceiveFiles.TakeStream | src/infrastructure/quic/receiver.rs:340-354 | Takes a stream exactly when it is for an unreceived manifest file and authorized |
| ReceiveFiles.ReceiveAll | src/infrastructure/quic/receiver.rs:320-378 | Ok means every manifest file was received exactly once from a whole stream, each grant consumed once, at most four in flight, all joined, and `completed_bytes == total_bytes`; and such streams suffice if nothing else fails |
| Listing.PreparingView | src/infrastructure/quic.rs:107-153 | Lists files by position with a checked sum, refused exactly when the sum overflows, and starts with right accounting and no progress |
| Listing.ValidOfferStarts | src/infrastructure/quic/receiver.rs:90-149 | Every valid offer has a manifest of distinct files and lists a transfer with right accounting and no progress |
| Listing.AnswerIsUsable | src/infrastructure/quic/receiver.rs:237-259 | A file's stream is authorized if and only if it carries the granted ticket within 65 hours after it was issued |
| Listing.ReceiveOffer | src/infrastructure/quic/receiver.rs:237-283 | For every valid offer the answer passes the sender's check, Ok means a whole stream for each file and a complete view, and if nothing else fails each file's ticket arriving once, in time, with the whole file is enough |
| Router.RouteIntegrity | src/infrastructure/quic/router.rs:24-48 | In every run the keys are the ids of the live routes, one each, and a route only gets streams with its own id |
| RouterDelivery.EveryStreamIsDelivered | src/infrastructure/quic/router.rs:94-108 | In every run each channel has got exactly the streams sent to it while it was alive and had room, in order, and every other dispatched stream was rejected; the counts add up |
| RouterDelivery.LookUpFindsTheRoute | src/infrastructure/quic/router.rs:94-99 | A stream is looked up to the live route of its transfer, and to none if there is none |
| RouterDelivery.DroppedGetsNothing | src/infrastructure/quic/router.rs:24-32 | Once a route's receiving half is dropped no stream gets into it or out of it again |
| Router.StaleHandleStaysWithItsRoute | src/infrastructure/quic/router.rs:94-107 | A handle cloned from a dropped route never delivers into a later route of the same id |
| Router.SessionRouter.Route | src/infrastructure/quic/router.rs:35-49 | Registers exactly the ids that are not routed |
| Router.SessionRouter.DropRoute | src/infrastructure/quic/router.rs:24-32 | Removes the entry and then the receiving half |
| Router.SessionRouter.Dispatch | src/infrastructure/quic/router.rs:88-108 | A stream of a live route with room is queued last there and nothing else changes; any other is rejected |
| SessionProofs.RunKeepsInv | src/infrastructure/quic.rs:244-360 | Every run of both sides, the router and all file tasks keeps the protocol invariant |
| SessionStreams.SendTask | src/infrastructure/quic/sender.rs:112-143 | What a send task leaves on its stream comes about by the protocol's sending steps; without faults it is done exactly when the source is unchanged |
| SessionStreams.ReceiveTask | src/infrastructure/quic/receiver.rs:452-517 | A receive task is done exactly when the protocol may finalize the file, unless interrupted, and stages what the protocol finalizes |
| SessionProofs.EndToEndAgreement | src/infrastructure/quic.rs:317-359 | Sender completed implies receiver completed, and every file finalized with exactly the bytes sent |
| SessionProofs.CompletionIsFinal | src/infrastructure/quic/receiver.rs:284-303 | The receiver's completion is never undone, also not by a failed completion write |
| SessionProofs.EndedJobsAreTerminal | src/infrastructure/quic/receiver.rs:176-231 | In every run a job of either side that is over, whichever way, has ended its transfer |
| SessionDecisions.ReceiptNeedsConsent | src/infrastructure/quic/receiver.rs:156-176 | In every run, a receiver that is not automatic has accepted, registered or received anything only after the user decided to accept |
| SessionDecisions.AutomaticIsGiven | src/infrastructure/quic/receiver.rs:118-140 | Only the offer's own setting makes a receive automatic, and any other one asks the user |
| SessionDecisions.RefusalIsFinal | src/infrastructure/quic/receiver.rs:176-206 | After a refusal, or for missing space, nothing is accepted or received in any continuation |
| SessionDecisions.RefusalEndsTheReceiver | src/infrastructure/quic/receiver.rs:176-231 | A refusing receiver ends as rejected, cancelled or failed, and its answer says which |
| SessionDecisions.RefusalEndsTheSender | src/infrastructure/quic.rs:280-301 | A refused sender ends as rejected or cancelled, as the answer says, for good |
| SessionDecisions.FailuresEnd | src/infrastructure/quic/receiver.rs:33-44 | Handling a failure ends an active transfer as failed, and a cancellation as cancelled, on both sides |
| SessionDecisions.UsersAct | src/application/manager.rs:490-527 | What a user's pause, resume or cancellation makes of each status on either side |
| SessionProofs.RoomForArrivals | src/infrastructure/quic/router.rs:101-104 | By counting, a stream that reaches the router always finds room in the queue of four |
| SessionProofs.BackpressureHolds | src/infrastructure/quic/receiver.rs:260-274 | No stream is turned away for a full queue, nor for a missing route while the receiver has not failed; at most four send tasks and four receives are in flight |
| SessionProofs.SenderCompletesIff | src/infrastructure/quic.rs:237-240 | With everything in, the sender completes if and only if it is not paused or cancelled at that moment |
| SessionProofs.LatePauseFailsTheSender | src/domain/transfer.rs:87-107 | In every run a pause at that moment makes the sender fail a transfer the receiver completed |
| SessionRuns.TransfersCanSucceed | src/infrastructure/quic.rs:244-360 | For every list of file contents some run completes both sides with exactly these files |
| SessionRuns.LatePauseHappens | src/domain/transfer.rs:87-107 | For every list of files the late pause is reachable |
| SessionLiveness.SomeFileAdvances | src/infrastructure/quic/receiver.rs:336-373 | While files are missing, some file can advance, whatever is in flight, queued or being received |
| SessionLiveness.UnfitStays | src/domain/transfer.rs:87-107 | A state that cannot complete any more never becomes one that can |
| SessionLiveness.EarlyResumeFails | src/application/manager.rs:502-513 | In every run, a resume before the sender awaits the answer makes completion unreachable |
| SessionLiveness.EarlyResumeHappens | src/application/manager.rs:502-513 | For every list of files such a run exists, and neither job has failed in it yet |
| SessionLiveness.NoStateIsStuck | src/infrastructure/quic.rs:244-360 | From every reachable state both sides can still complete if and only if neither job failed and both statuses still allow what their jobs have ahead |
| PathNames.Sanitize | src/infrastructure/filesystem.rs:59-97 | Accepted paths have safe components that join to the path again |
| PathNames.SplitJoin | src/infrastructure/filesystem.rs:63 | Splitting is the inverse of joining |
| SafePaths.SafeIff | src/infrastructure/filesystem.rs:59-97 | Exactly which paths are safe, by their characters and segments |
| SafePaths.ReservedIff | src/infrastructure/filesystem.rs:103-115 | Exactly which names are reserved: a device's name in any case, spaces after it, and whatever follows its first dot |
| SafePaths.TraversalIsUnsafe | src/infrastructure/filesystem.rs:64-72 | No path with an empty, dot or double-dot segment is safe |
| PathNames.SafePathsStayInside | src/infrastructure/filesystem.rs:59-97 | A sanitized path resolves inside the directory it is joined to and names no device |
| Offer.CheckFiles | src/infrastructure/quic.rs:408-421 | The fold with sets accepts exactly valid manifests and computes their size |
| Offer.CheckPreviews | src/infrastructure/quic.rs:434-445 | The preview checks accept exactly bounded images of distinct manifest files |
| Offer.ValidateOffer | src/infrastructure/quic.rs:389-449 | Validation accepts exactly the offers that the set-free description allows |
| Offer.VerifyAcceptMeansGood | src/infrastructure/quic.rs:451-487 | Comparing set sizes accepts exactly one usable grant for each file and nothing else |
| Offer.BuiltAcceptIsGood | src/infrastructure/quic/receiver.rs:237-266 | The answer the receiver builds has exactly one grant for each file; how long it is good is `Listing.AnswerIsUsable` |
| Offer.HandshakeCompatible | src/infrastructure/quic/receiver.rs:237-266 | For every valid offer the receiver's answer passes the sender's check |
| Offer.VerifiedAcceptIsUsable | src/infrastructure/quic.rs:311-324 | After the check, grant look-up never fails and clamping the chunk size changes nothing |
| Offer.WireCodecIsMonotone | src/infrastructure/quic.rs:372-379 | The length of a frame in protobuf encoding is monotone, as packing needs |
| Offer.EncodingIsCounted | src/infrastructure/quic.rs:372-379 | What is counted for a preview and for a frame is the length of its bytes |
| Offer.CandidatesAreThePreviews | src/infrastructure/quic/preparation.rs:119 | The candidates are exactly the previews that preparing the files gave |
| Offer.PackPreviews | src/infrastructure/quic/preparation.rs:118-129 | The push-and-pop loop takes the previews that `Picks` describes |
| Offer.PackedKeepsBudgets | src/infrastructure/quic/preparation.rs:118-129 | Packed previews keep the byte budget and the frame limit |
| Offer.PackedIsMaximal | src/infrastructure/quic/preparation.rs:118-129 | Each skipped preview breaks a budget even when added to the final selection |
| Offer.SelectOrdered | src/infrastructure/quic/preparation.rs:119-128 | The selection is in order and contains only candidates |
| Offer.BuildOffer | src/infrastructure/quic/preparation.rs:101-137 | Fails exactly when the frame without previews is too long |
| Offer.BuiltOfferIsValidIff | src/infrastructure/quic/preparation.rs:101-137 | A built offer is valid exactly for 1 to 256 files within the size cap, with safe and distinct portable names, a non-zero id and a positive time |
| Finalize.CandidatesAreDistinct | src/infrastructure/filesystem.rs:125-143 | The candidate names are pairwise distinct |
| Finalize.CandidateKeepsExtension | src/infrastructure/filesystem.rs:129-138 | Every numbered candidate has the name's extension and a number at the end of its stem |
| Finalize.MissingNameExists | src/infrastructure/filesystem.rs:134-146 | If at most 9,999 of the names are taken, one is missing |
| Finalize.FirstMissingIs | src/infrastructure/filesystem.rs:126-143 | The search yields the first missing candidate, and none only if all 10,000 are taken |
| Finalize.EnterDirectory | src/infrastructure/filesystem.rs:157-176 | Accepts a plain directory, creates a missing one, and on a quiet machine refuses exactly anything else |
| Finalize.CreateSafeDirectories | src/infrastructure/filesystem.rs:149-179 | Only adds plain directories on the way, never follows a link, and on a quiet machine fails exactly when something is in the way or the root is missing |
| Finalize.UniqueDestination | src/infrastructure/filesystem.rs:117-147 | Returns a candidate, on a quiet machine the first missing one |
| Finalize.FinalizeStaged | src/infrastructure/filesystem.rs:181-196 | Under arbitrary concurrent creations no other entry is altered, Ok adds exactly the staged content under a free name and removes the staged one; on a quiet machine it succeeds if and only if `Finalizable`, and otherwise collisions are retried until all names are taken or 10,000 entries were created |
| Finalize.LinkableUnlessDangling | src/infrastructure/filesystem.rs:183-190 | Success needs a free name with only existing ones before it |
| Finalize.DanglingLinkBlocks | src/infrastructure/filesystem.rs:126-190 | A dangling link under the file's name blocks it although every other name is free |

## Left out

- QUIC, TLS, pairing, discovery, capability grants and the network runtime; streams are reliable sequences that may be reset. They live in other crates, which are not part of this model, as is the wire crate: frame limit and offer base length are parameters.
- SHA-256, Unicode normalization, base64 and serialization: the hash is any function to 32 bytes, the portable path key any function on paths. Codepoints are counted in UTF-8 bytes for the length limits.
- Wall-clock time, timeouts and speeds: throttling, timeouts and the reported speed are nondeterministic parameters of a step.
- Saturation of the revision at the largest 64-bit value: revisions are unbounded.
- Closed channels in `TransferSubscription::next`, which keeps the manager, and so the channels' senders, alive; and the persistence task that saves the last scheduled history.
- Peers, receive policies, settings, endpoint parsing, media types, thumbnails and names shown to users: easy members with little interaction; in snapshots they are one opaque value, `profile`.
- The free-space estimate of `ensure_receive_capacity`: in `Session` its refusal is the step `NoSpace`.
- Dropping the public future `send_files` of the manager between listing the transfer and spawning its job.
- Replication.Enabled: progress needs an announced transfer and a reset needs no progress before it, because the transfer's own task awaits its push and its reset first; ids are never reused.
- Subscription.TransferSubscription.Next: a call that is dropped midway is a step of `Replication` and not of the method.
- Transfer.TransferView: the manager holds its transfers as values (`View`) in a sequence; aliasing of list entries is not modelled, as the code has none.
- JobControl.Next: a state machine on values, one memory access a step, under sequential consistency; a notification wakes every waiter whose ticket is older.
- JobLifetime.Next: jobs are points and stages on values; which error ends a body is nondeterministic, and a shutdown that aborts tasks is not modelled.
- Session.Next: a state machine on values for one transfer on one session; the grant checks are in `ReceiveFiles`, the two-step dispatch in `Router`, and pausing inside the byte loops only delays steps.
- FileStream.ReceiveFile: disk errors, timeouts and waiting are one nondeterministic interruption; staging file creation and removal are in `Finalize` or not modelled.
- ReceiveFiles.ReceiveAll: the streams the router delivers, and what they carry, are given in advance; a receive's reports are determined when it starts and reach the view in any order until it is joined; recording a file's final path, and aborting the receives still running after an error, are not modelled.
- Offer.BuildOffer: sums the sizes without the 64-bit overflow, since validation refuses a manifest whose sizes overflow as it refuses one past the size cap; sizes, ids and times are parameters.
- Finalize.FinalizeStaged: other programs create any entries at any moment, but do not delete or replace any, so the second look after creating a directory (lines 168-173) always succeeds; a staged file that someone else removes ends in an I/O error in the code.
- `decode_hex` and `peer_advertisement` of the sender: conversions without state.
