# Record Hub: a verified model

Record Hub receives messages at least once and in any order and turns them into state that must look as if every event had arrived
once and in order. This project models its hardest parts in Dafny and proves what they promise.

| Files | What they model |
|---|---|
| `ProjectionStore`, `ProjectionPipeline`, `ProjectionRefinement` | the live projection as atomic steps of any number of workers, and its refinement of an in-order fold |
| `ProjectionReplay`, `ProjectionRebuild`, `ProjectionSwitch` | replay of the archive into a staging collection, rebuilds interleaved with live steps, and what a switch of the read pointers does to readers, to checkpoints and to later switches |
| `ProjectionExamples` | reachable runs in which a rebuild is not invisible, for each exact condition one |
| `ProjectionDatabase`, `ProjectionRunner` | the repositories, the message handler and the pull loop, updating state in place and tied to the steps above |
| `RebuildLifecycle`, `RebuildService` | the rebuild operation: one worker, any number of cancelling callers; the service methods as they are written, replaying into the database and switching its pointers |
| `CommandModel`, `CommandProtocol`, `CommandGuarantees`, `CommandServices` | the command gateway and the owner inbox: vocabulary, protocol and invariant, results over whole runs, stores and services |
| `RecordFeed` | the bounded in-process feed as a window on the unbounded log |
| `Association` | the three association read models |
| `FixturePath`, `MappedObject`, `MappingGeneration` | paths in JSON documents, building the mapped object, the compiled catalog and its event index |
| `IssuerKeys`, `RateLimiter`, `PrincipalRotation` | key overlap, the fixed-window limiter, audited principal rotation |

Three shapes recur. A protocol is a machine: a `World`, a `Step` datatype, a function `Next`, an invariant that every step keeps, and
results about `Run`. Code that changes things in place is a class; its methods are proved against the step functions of a machine, and
`Valid()` says that the fields present a reachable state of that machine, so the results about runs hold of the code. An algorithm with
a loop is a method proved against an independent definition of its result.

What a shared step function computes is stated a second time, field by field, by predicates that do not use it: `Says` for records,
`TransactionDid` for the projection transaction, `HandlingEnds` and `IsSettled` for a message, `Carries` for a command's result, `OfferDid`
for a subscriber's channel, `ShowsDetails` and `EventDid` for an association, `IsMove` for a rotation. Contracts and main results end in these.

## Hypotheses

- A Mongo transaction and a single-document compare-and-swap are atomic steps; unique indexes hold. A message stays deliverable for ever.
- SHA-256 digests are injective: a digest is modelled by the value it is the digest of, and so is an identifier made from one.
- The event archive is wired into the projector, as the server does; without it there is nothing to rebuild from.
- Identifiers are trimmed where the source trims them before use. Clocks are integers; where it matters, they do not run backwards.
- The source of events publishes one event for each version of an aggregate (`UniqueVersions`). Rebuild equivalence also needs that a
  later event of a document carries a greater record version (`RecordVersionsIncrease`); nothing in the code sees to it for summary
  events, and what a rebuild shows without it is stated below.
- Rebuild equivalence is stated for a scope that is at rest when its archive is listed (`Quiescent`) and archives nothing new until the
  pointers switch; other scopes, and redeliveries of archived messages, go on meanwhile. Without this the exact effect is stated below.
  Nothing is assumed of the collection: it may hold anything earlier attempts and live writers left, and readers may use it already.
- One worker processes the steps of a rebuild operation in the lifecycle; any number of attempts run at once in the refinement. The result stream of commands carries only what `Process` returns, and owners read only the command stream.
- Revisions, sequence numbers and the feed's event numbers are unbounded.

## Where the code does less than one might expect

These are proved as exact conditions, or with a concrete run.

- A table is switched at most twice in any run: the unique index covers the pointer's status, and a second retired pointer collides with
  the first. A switch passes exactly when each of its tables was switched less than twice (`AtMostTwoSwitches`). Every rebuild names the
  three summary tables, so once its pointers were switched twice, by two rebuilds (`TwoRebuildsSwitch`) or by one that was taken up again
  after its switch (`RetryTakesBothPointers`), every further attempt that nobody cancels ends FAILED (`ThirdRebuildFails`).
- A replay and switch show a document as before exactly when it is read elsewhere and the switch does not cover it, or, of the events
  staged, the first with the greatest record version is the one behind the document's last write (`ListingDecidesTheView`, with no
  hypothesis on record versions; `LateEventsDecideTheView` for increasing ones). It fails for an event applied after the listing
  (`LateEventDisappears`), for one listed before it was applied (`UnappliedEventAppears`), and in a scope at rest where record versions
  go back (`RecordVersionsGoBack`).
- Staged records do not wait for the switch in every run. Staging an entry changes what a document shows exactly when the document is
  read from that collection and holds no record there, or one with a smaller record version (`StagingShowsIff`). At rest this does not
  happen (`AppliedStagesUnseen`). An operation that has switched and is taken up again after a crash shows an event that was archived
  since, with nothing applied or audited (`RetryShowsUnapplied`).
- The checkpoints of a switch come from a second listing and leave the live ones alone exactly when those had reached every listed entry
  (`CheckpointsStayIff`). An entry they had not reached is never applied afterwards, in any run (`ListedAgainIsNeverApplied`); its next
  delivery is acknowledged as stale, without record and audit entry (`StaleDeliveryIsAcknowledged`). An event archived between the two
  listings is lost in this way (`ListedAgainEventIsLost`).
- The same happens to documents of a table that no rebuild switches: their checkpoints advance, and an event listed again but not shown
  by then is shown in no later run (`ListedAgainIsNeverShown`). The handler writes approval events to such a table unless a mapping
  targets it (`ApprovalsAreNotSwitched`).
- All orders of an archive stage the same document exactly when all its events with the greatest record version have the same image
  (`OrderIsInvisibleIff`); otherwise the order of the listing, by the events' own times, decides which of them shows.
- A message is archived before its mapping accepts it (`RejectedIsArchived`), and the archive is append-only. So an archived event that
  the generation does not accept makes every later attempt to rebuild its workspace that nobody cancels end FAILED
  (`RefusedEntryFailsRebuilds`).
- Some event of a kind is ambiguous exactly when a mapping whose allowlist names its own scope stands beside another such mapping or one
  that reads the workspace from the metadata (`AmbiguousIffAllowlistsOverlap`, with an instance in `TwoAllowlistsAreAmbiguous`).
- A cancelled rebuild may have switched its pointers (`CancelCanFollowSwitch`, and a run in `CancelledAfterSwitch`); success is saved
  exactly when nothing was saved since the staged version (`SuccessNeedsNoLateCancel`). The switch and the save of success are separate
  writes: after a crash between them a retry may end FAILED (`FailedAfterSwitch`) or switch a second time (`SwitchedAgain`).
- A claimed command whose worker is gone can never be committed (`ClaimNeedsItsWorker`): the claim has no expiry.
- An association's conflict mark is lost to a stale writer exactly when its event moves past what both had read (`StaleWriteLosesConflictIff`).
- Building a mapped object succeeds in every order of its targets exactly when no target leads through another
  (`EveryOrderBuildsIffIndependent`). The registration rules do not demand this, and the fixture check ranges over a Go map.
- The default key overlap equals the token lifetime, which covers a token only if nothing comes between reading the signer and reading
  the clock (`VerifiableIffOverlapCovers`).
- Two windows of the limiter admit up to twice the limit less one in one window's time, and no bound below that holds
  (`IntervalAdmitsFewerThanTwice`, `BoundIsMet`).
- Once a rotation's old principal is revoked, no transition is accepted any more, also after an emergency stop (`RevokedIsFinal`).

## Model

| member | source | states |
|---|---|---|
| ProjectionRefinement.RunRefinesInOrderFold | server/internal/modules/projection/store.go:149-308 | after any run of live deliveries (reordered, duplicated, retried, crashed, response lost), a checkpoint at version v means events 1..v were applied once each and in order, audited, and every document is their in-order fold: field by field it holds what the newest of them that writes it says, nothing where none writes it, and event v is shown |
| ProjectionRefinement.RunsAgree | server/internal/modules/projection/store.go:149-248 | two runs that bring an aggregate to the same version leave its documents the same, however the deliveries differed |
| ProjectionRefinement.AcknowledgedStaysCovered | server/internal/modules/projection/nats.go:319-376 | an acknowledged message has an applied inbox row whose checkpoint is at or above its version in every later state, pointer activations included; a terminated message has a dead letter |
| ProjectionRefinement.CleanDeliveryAdvances | server/internal/modules/projection/summary_projector.go:125-267 | from any world, also after a crash half way, one undisturbed delivery of the next version is acknowledged, moves the checkpoint, shows the content, schema, versions and times of the event, and is audited |
| ProjectionRefinement.EarlyDeliveryWaits | server/internal/modules/projection/store.go:200-245 | an undisturbed delivery that comes before its turn and is not at its last attempt is handed back: its message waits in archive and inbox, nothing is written, acknowledged, dead-lettered or terminated, and no version moves |
| ProjectionRefinement.ReorderedDeliveriesConverge | server/internal/modules/projection/store.go:149-248 | two consecutive events of an aggregate delivered in reverse, then the later one again: both are acknowledged and applied once, in order, the checkpoint is at the later version and the later event is shown |
| ProjectionRefinement.RacingWorkersApplyOnce | server/internal/modules/projection/store.go:172-241 | of two workers that claimed the same next event the first commit applies it, also if its response is lost, and the second finds it applied, changes nothing and succeeds |
| ProjectionRefinement.OwnerWrites | server/internal/modules/projection/summary_projector.go:291-299 | a document is written by the events of one aggregate only |
| ProjectionPipeline.NextIsSafe | server/internal/modules/projection/summary_projector.go:125-267 | every step of every worker, and of a rebuild, keeps inbox, archive, audit and settlements consistent |
| ProjectionPipeline.RunIsSafe | server/internal/modules/projection/nats.go:258-422 | every reachable world is safe: acknowledged implies applied, terminated implies dead-lettered, applied rows are covered by checkpoints |
| ProjectionPipeline.ApplyKeepsSafety | server/internal/modules/projection/store.go:149-248 | the transaction, from whatever claimed row, keeps the audit one entry per application, each with the document, version and message of its application, and each applied row justified by its checkpoint |
| ProjectionPipeline.CommitExtendsOrder | server/internal/modules/projection/store.go:296-308 | an accepted event is the next version of its aggregate, and no other aggregate moves |
| ProjectionPipeline.RunKeepsArchive | server/internal/modules/projection/archive.go:94-118 | in every run, rebuilds included, an archive entry stays what it is |
| ProjectionStore.ClassifyCheckpoint | server/internal/modules/projection/store.go:296-308 | apply exactly for the next version, stale exactly for one not above the checkpoint |
| ProjectionReplay.ReplayIgnoresOrder | server/internal/modules/projection/store.go:250-268 | where the events with the greatest record version have one image, the staged document does not depend on archive order, repetition, clock, or what earlier attempts at the same listing left behind |
| ProjectionReplay.OrderIsInvisibleIff | server/internal/modules/projection/store.go:250-268 | for every set of events, all orders stage the same document exactly when its events with the greatest record version have the same image |
| ProjectionReplay.ReplayShowsFirstTop | server/internal/modules/projection/store.go:250-268 | whatever the record versions, of all events staged so far the first with the greatest record version is the one a document shows |
| ProjectionReplay.ReplayKeepsGreatest | server/internal/modules/projection/store.go:250-268 | a replay adds its events to those the collection already holds: each staged document is the image of a greatest event among both, or absent if none writes it |
| ProjectionReplay.ReplayCompletes | server/internal/modules/projection/rebuild.go:425-442 | a replay taken up again after a crash leaves exactly the replay of the listing, whatever part of it was staged before |
| ProjectionReplay.LatestCheckpoints | server/internal/modules/projection/rebuild.go:446-470 | the loop over the archive yields, for each aggregate listed and no other, version, event and receipt of an entry that no other listed entry is newer than |
| ProjectionReplay.StagedEqualsLive | server/internal/modules/projection/rebuild.go:401-444 | once the collection holds the replay of a quiescent listing its documents of the scope equal the live ones |
| ProjectionRebuild.QuiescentSwitchKeepsView | server/internal/modules/projection/rebuild.go:446-470 | a switch at quiescence to a collection that holds the live documents of the scope changes no visible document and no checkpoint, and the store still follows the live history |
| ProjectionRebuild.RestReplaysUnseen | server/internal/modules/projection/rebuild.go:401-444 | at rest the replay of a listing into any collection, also one that readers use, changes no view and leaves the live documents of the scope in it |
| ProjectionRebuild.AppliedStagesUnseen | server/internal/modules/projection/store.go:250-268 | staging an event that was applied changes no view, whatever collection it goes to |
| ProjectionRebuild.LiveKeepsJustified | server/internal/modules/projection/store.go:149-248 | under live steps every record in every collection stays the image of an event applied to its document, and no record version shrinks |
| ProjectionRebuild.RebuildsAreInvisible | server/internal/modules/projection/rebuild.go:304-470 | with any number of attempts staged entry by entry in whatever collections, failing and crashing at any point, also between switch and save, and taken up again, live steps of other scopes and redeliveries in between, and pointer switches, an aggregate at version v still shows the in-order fold of events 1..v, field by field |
| ProjectionRebuild.ActKeepsJoint | server/internal/modules/projection/rebuild.go:401-470 | every live step, listing, staged entry, switch and abandoned attempt keeps the live projection and every attempt sound together |
| ProjectionRebuild.AttemptSwitches | server/internal/modules/projection/rebuild.go:401-470 | an attempt that goes through, as actions of that machine, leaves the replay of the whole listing and the switched pointers |
| ProjectionSwitch.LateEventsDecideTheView | server/internal/modules/projection/rebuild.go:401-470 | at any moment, quiescent or not, a switch shows a document as before exactly when it does not cover it or the staged events leave it as it is |
| ProjectionSwitch.ListingDecidesTheView | server/internal/modules/projection/rebuild.go:401-470 | for a replay on top of whatever was staged, whoever reads the collection and whatever the record versions, followed by the switch: a document reads as before exactly when it is read elsewhere and not covered, or the first top of what was staged is the event of the last live write |
| ProjectionSwitch.StagingShowsIff | server/internal/modules/projection/store.go:250-268 | staging an entry changes a view exactly when its document is read from that collection and holds no record or one with a smaller record version |
| ProjectionSwitch.FirstTopAgreesIff | server/internal/modules/projection/store.go:250-268 | a staged document equals the live one exactly when the first top of what was staged is the newest live event of the document |
| ProjectionSwitch.StagedAgreesIff | server/internal/modules/projection/store.go:250-268 | a staged document equals the live one exactly when the event of the last live write was staged and no staged event writes it with a greater record version, or nothing wrote it |
| ProjectionSwitch.ListedAgainIsNeverApplied | server/internal/modules/projection/rebuild.go:446-470 | after a switch no run applies an event of the second listing that was not applied before it, nor an older one of its aggregate |
| ProjectionSwitch.ListedAgainIsNeverShown | server/internal/modules/projection/rebuild.go:446-470 | an event of the second listing for a table that is not switched, if not shown by then, is shown in no later run that leaves the table alone |
| ProjectionExamples.LateEventDisappears | server/internal/modules/projection/rebuild.go:401-470 | a reachable run in which an event applied after the listing is visible before the switch and not after |
| ProjectionExamples.UnappliedEventAppears | server/internal/modules/projection/rebuild.go:401-470 | a reachable run in which an event listed before it was applied becomes visible at the switch, neither applied nor audited |
| ProjectionExamples.RetryShowsUnapplied | server/internal/modules/projection/rebuild.go:401-444 | a reachable run in which an operation taken up again after its switch makes an event visible by staging it, neither applied nor audited |
| ProjectionExamples.RetryTakesBothPointers | server/internal/modules/projection/read_pointer.go:35-110 | a reachable run in which one operation holds the active and the retired pointer of each table, so that no further switch is allowed |
| ProjectionExamples.ListedAgainEventIsLost | server/internal/modules/projection/rebuild.go:446-470 | a reachable run in which an event archived between the listings is acknowledged with nothing applied, audited, staged or recorded |
| ProjectionExamples.RecordVersionsGoBack | server/internal/modules/projection/summary_projector.go:206-213 | a reachable run, the scope at rest, in which a rebuild takes a document back to an earlier event because the record version did not increase |
| ProjectionExamples.TwoRebuildsSwitch | server/internal/modules/projection/read_pointer.go:35-110 | two rebuilds of a workspace do switch, for whatever mappings |
| ProjectionExamples.RejectedIsArchived | server/internal/modules/projection/summary_projector.go:163-186 | a reachable world in which a message its mapping rejects is in the archive and not in the inbox |
| ProjectionSwitch.StaleDeliveryIsAcknowledged | server/internal/modules/projection/store.go:189-197 | a delivery at or below the checkpoint is acknowledged and its row marked applied, with nothing else changed but its archive entry |
| ProjectionSwitch.ReachedIsNotApplied | server/internal/modules/projection/store.go:296-308 | in every run, rebuilds included, a version the checkpoint has reached is not applied again and no checkpoint goes back |
| ProjectionSwitch.AtMostTwoSwitches | server/internal/modules/projection/read_pointer.go:35-110 | in every run a table is switched at most twice, and a switch passes the unique index exactly when each of its tables was switched less than twice |
| ProjectionSwitch.ThirdRebuildIsRefused | server/internal/modules/projection/catalog_generation.go:84-104 | every rebuild names the summary tables, so after two of them no rebuild of the workspace switches anything |
| ProjectionReplay.CheckpointsStay | server/internal/modules/projection/read_pointer.go:111-133 | at quiescence the replayed checkpoints advance nothing |
| ProjectionReplay.CheckpointsStayIff | server/internal/modules/projection/read_pointer.go:111-133 | the checkpoints of a switch advance nothing exactly when the live ones had reached every listed entry |
| ProjectionDatabase.Database.Claim | server/internal/modules/projection/inbox.go:110-129 | a new row is inserted as processing with the message and what came with it, a duplicate returns the stored row, and another payload under the same key is a conflict that changes nothing |
| ProjectionDatabase.Database.ArchiveEvent | server/internal/modules/projection/archive.go:94-118 | append-only: a new message is stored with what came with it, and a repeated key is accepted exactly when the stored message is identical, and nothing stored changes |
| ProjectionDatabase.Database.Apply | server/internal/modules/projection/store.go:149-248 | applied exactly for the next version of a waiting row with a collection to write to, stale, early or repeated exactly by row and version; an application writes the record of the event field by field, moves the checkpoint, marks the row and appends the audit entry, and nothing else; stale marks the row, early flags the checkpoint, an error changes nothing |
| ProjectionDatabase.Database.ApplyStaging | server/internal/modules/projection/store.go:250-268 | the record of the event, field by field, is staged exactly when none is there or its record version is smaller; no other record changes |
| ProjectionDatabase.Database.ActivateManyWithCheckpoints | server/internal/modules/projection/read_pointer.go:70-138 | all distinct non-blank tables read the new pointer, the old ones are retired, checkpoints advance exactly where they are missing or behind, or nothing happens; exact condition for success |
| ProjectionDatabase.SwitchAll | server/internal/modules/projection/read_pointer.go:93-110 | the loop over the tables gives the simultaneous switch, and fails exactly when some table has both an active and a retired pointer |
| ProjectionDatabase.SwitchOneMore | server/internal/modules/projection/read_pointer.go:93-110 | switching tables one at a time is switching them together, and whether one may switch does not depend on the others |
| ProjectionDatabase.UniqueTables | server/internal/modules/projection/read_pointer.go:74-90 | blank and repeated table identifiers are dropped and no other |
| ProjectionDatabase.Handle | server/internal/modules/projection/summary_projector.go:125-267 | fails for good exactly when the message is ill-formed, has no consumer or mapping, or is archived and rejected; succeeds exactly when it was applied before, or is next or late and the answer arrives; the next event is applied and shown, a late one only marked, and an early one waits with nothing written |
| ProjectionDatabase.HandledIsRun | server/internal/modules/projection/summary_projector.go:125-267 | what the handler does is what the machine's three steps do to a worker that is alone |
| ProjectionDatabase.SuccessMeansApplied | server/internal/modules/projection/summary_projector.go:231-266 | a handler that returns without error has left the message's inbox row applied |
| ProjectionRunner.PullRunner.RunBatch | server/internal/modules/projection/nats.go:319-376 | a batch is settled message by message until a settlement fails, which is exactly when the runner reconnects: each is acknowledged, given up to the dead letters and terminated, or handed back, exactly by what it meets in the store and its attempts |
| ProjectionRunner.PullRunner.RunOne | server/internal/modules/projection/nats.go:341-376 | how one message is settled, from what it meets in the store; an event that comes early and is not at its last attempt is handed back, nothing is written, acknowledged, dead-lettered or terminated, and its message waits |
| ProjectionRunner.PullRunner.RetryMessage | server/internal/modules/projection/nats.go:391-422 | a message is terminated exactly when it is hopeless or out of attempts and its dead letter was published; otherwise it is handed back with the delay of its attempt, the last delay of the list or the fixed one, or left unsettled |
| ProjectionRunner.PullRunner.Acknowledge | server/internal/modules/projection/nats.go:360-372 | only a message whose inbox row is applied is acknowledged |
| ProjectionRunner.PullRunner.SettledIsSafe | server/internal/modules/projection/nats.go:258-389 | between messages everything acknowledged is applied and everything terminated has a dead letter |
| ProjectionRunner.HandlingIsAlone | server/internal/modules/projection/nats.go:319-340 | handling a message of the batch is a run of the projection machine, whatever was settled before |
| RebuildLifecycle.RebuildFollowsLifecycle | server/internal/modules/projection/rebuild.go:304-399 | every run walks ACCEPTED, RUNNING, then SUCCEEDED, FAILED or CANCEL_REQUESTED, or is cancelled; revisions count the saves, times match the status, and success follows a completed replay and a pointer switch |
| RebuildLifecycle.TerminalAbsorbs | server/internal/modules/projection/rebuild.go:689-710 | a finished operation is never saved again |
| RebuildLifecycle.SuccessNeedsNoLateCancel | server/internal/modules/projection/rebuild.go:388-398 | after activation success is saved exactly when nothing was saved since the staged version |
| RebuildLifecycle.CancelCanFollowSwitch | server/internal/modules/projection/rebuild.go:374-398 | a cancel after the last check ends the operation as cancelled although the pointers were switched |
| RebuildLifecycle.CancelledAfterSwitch | server/internal/modules/projection/rebuild.go:374-398 | such a world is reached from the start |
| RebuildLifecycle.FailedAfterSwitch | server/internal/modules/projection/rebuild.go:374-398 | a world is reached in which an operation whose pointers were switched is saved as failed, by a retry after a crash before the save of success |
| RebuildLifecycle.SwitchedAgain | server/internal/modules/projection/rebuild.go:374-398 | a world is reached in which one operation has switched its pointers twice |
| RebuildLifecycle.CancelRequestIsFinished | server/internal/modules/projection/rebuild.go:492-506 | an idle worker that picks a requested cancellation finishes it |
| RebuildLifecycle.NextKeepsInv | server/internal/modules/projection/rebuild.go:226-399 | every step of the worker, of a crash and of any caller keeps the lifecycle invariant |
| RebuildServices.RebuildService.Process | server/internal/modules/projection/rebuild.go:304-399 | with cancels allowed at every yield point it is a behaviour of the lifecycle; undisturbed it ends as the verdict on build, listings, entries, pointers and checkpoints says, and a failure names the first of these that went wrong; a wired success has staged its whole listing and switched its tables, any other attempt has staged a prefix or was cancelled after the switch |
| RebuildServices.RebuildService.Cancel | server/internal/modules/projection/rebuild.go:226-282 | an accepted operation is cancelled and finished, a running one is asked to stop, saved by the caller at the time and otherwise as it was; anything else is left alone |
| RebuildServices.RebuildService.Replay | server/internal/modules/projection/rebuild.go:401-444 | the loop over the archive, with a look for cancellation before each event: whatever stops it, the collection has taken in exactly the entries before; undisturbed it completes exactly when every entry is taken in |
| RebuildServices.StoppedCanResume | server/internal/modules/projection/rebuild.go:401-444 | what a stopped attempt leaves in the collection is the replay of the entries it got through, on top of what was there |
| RebuildServices.RebuildService.SwitchPointers | server/internal/modules/projection/rebuild.go:377-386 | the pointers switch to the collection with the checkpoints of the second listing exactly when listing, unique index and checkpoints allow it; otherwise the operation fails and the database is unchanged |
| RebuildServices.TargetTableIds | server/internal/modules/projection/catalog_generation.go:84-104 | the distinct target tables of the mappings and the three summary tables, and no other |
| RebuildServices.CompletedIsServed | server/internal/modules/projection/rebuild.go:304-470 | after a completed rebuild every target table reads the collection by a pointer that names collection, operation and generation, the collection holds the replay of exactly the listed events, also when earlier attempts had staged some, and checkpoints advance to the newest entries listed again |
| RebuildServices.CompletedKeepsView | server/internal/modules/projection/rebuild.go:304-470 | a completed rebuild of a scope at rest, also a retry whose collection readers use, changes no visible document, checkpoint, inbox row or audit entry, and leaves the live documents in the collection |
| RebuildServices.CompletedIsActions | server/internal/modules/projection/rebuild.go:401-470 | what a completed rebuild does to the database is a listing, stagings and a switch of the interleaved machine |
| RebuildServices.ThirdRebuildFails | server/internal/modules/projection/rebuild.go:377-386 | once two rebuilds of a workspace have switched its pointers every further attempt that nobody cancels ends as failed |
| RebuildServices.RefusedEntryFailsRebuilds | server/internal/modules/projection/rebuild.go:425-442 | after whatever further steps, an attempt nobody cancels ends as failed if some archived event of the scope, archived at any time, is not accepted by the generation and the listing is complete |
| RebuildServices.RebuildService.Fail | server/internal/modules/projection/rebuild.go:508-527 | a running operation is saved by the worker as failed with the reason and the time, a requested cancellation is finished instead |
| RebuildServices.RebuildService.FinishCancelled | server/internal/modules/projection/rebuild.go:492-506 | a requested cancellation that is still current is saved by the worker as cancelled and finished, its work otherwise as it was |
| RebuildServices.RebuildService.Finish | server/internal/modules/projection/rebuild.go:388-398 | success, with generation and time and the rest of the work as it was, exactly when nothing was saved since the staged version |
| RebuildServices.RebuildService.SaveCAS | server/internal/modules/projection/rebuild.go:689-710 | saves and counts up exactly when the operation validates and the stored revision is the expected one |
| CommandProtocol.NextKeepsInv | server/internal/modules/commands/service.go:103-254 | every step of gateway and owner, with stale copies and crashes, keeps the invariant that spans both sides |
| CommandProtocol.SavedResultKeepsInv | server/internal/modules/commands/service.go:215-254 | storing a result from the stream, from whatever copy, keeps gateway and owner in agreement |
| CommandGuarantees.StatusOnlyMovesForward | server/internal/modules/commands/service.go:173-254 | an operation's saved states number their revisions and move only ACCEPTED, DISPATCHED, terminal, so at most three are ever saved |
| CommandGuarantees.TerminalAbsorbs | server/internal/modules/commands/repository.go:85-108 | once a result is stored nothing that follows changes the operation: no late dispatch, no other result |
| CommandGuarantees.OneOperationPerIdempotencyKey | server/internal/modules/commands/service.go:134-163 | at most one operation per tenant, workspace, policy and key, and all successful answers for the key name it and its payload |
| CommandGuarantees.CallbackRunsAtMostOnce | server/internal/modules/commands/inbox.go:217-269 | across redelivery, racing workers and crashes the owner's callback runs at most once per operation, and exactly once if a result is committed |
| CommandGuarantees.CommittedResultIsFinal | server/internal/modules/commands/inbox.go:167-195 | a committed entry and its result never change, and the callback does not run for it again |
| CommandGuarantees.EndsAgree | server/internal/modules/commands/service.go:215-254 | a terminal gateway operation was executed exactly once, for the request submitted, and its status, event, hash, version and error are each those of the committed result |
| CommandGuarantees.ClaimNeedsItsWorker | server/internal/modules/commands/inbox.go:137-165 | a claimed command can still be committed exactly when the worker that claimed it is still at work |
| CommandServices.OperationStore.FindByIdempotency | server/internal/modules/commands/repository.go:116-123 | finds a stored operation with the key, or there is none |
| CommandServices.OperationStore.Create | server/internal/modules/commands/repository.go:133-146 | created exactly when neither the key nor the idempotency key is taken; both stay unique |
| CommandServices.OperationStore.SaveCAS | server/internal/modules/commands/repository.go:148-158 | replaced exactly when the stored revision is the expected one |
| CommandServices.InboxStore.Claim | server/internal/modules/commands/inbox.go:137-165 | a new command is claimed at revision one; otherwise conflict, replay or already claimed, by owner, action, payload and status of the entry, which stays |
| CommandServices.InboxStore.Commit | server/internal/modules/commands/inbox.go:167-195 | a claim standing at its revision is committed with the result, a commit of the same event is repeated, anything else changes nothing |
| CommandServices.Service.Submit | server/internal/modules/commands/service.go:103-171 | is the protocol's submit, create, publish and dispatch steps; refused exactly on another payload for the key or a taken operation key; a new operation is stored as requested, dispatched exactly if its command could be published |
| CommandServices.Service.Dispatch | server/internal/modules/commands/service.go:173-189 | is the protocol's publish and save steps: once published and not overtaken the operation is stored as dispatched and otherwise as it was, or it is returned as it was |
| CommandServices.Service.ApplyResult | server/internal/modules/commands/service.go:215-254 | for any message: applied exactly to an open operation it answers, with the status, event, hash, version and error of the message each in its place; recognised exactly when a finished operation carries the same; a message of the stream is a protocol step |
| CommandServices.InboxService.Process | server/internal/modules/commands/inbox.go:217-269 | is the protocol's claim, execute and commit steps; the callback runs exactly when the command is new; a new command is answered exactly if its callback failed or gave a final result that names nothing else, with the committed result: a failure that says no more, or the given one with its blanks filled in from the command |
| RecordFeeds.RecordFeed.Publish | server/internal/modules/records/feed.go:129-174 | malformed changes are refused, a retained dedup key is ignored, and any other change is the next event of the log: every registered subscriber of its scope has it last in its buffer, or had a full buffer and is dropped and closed; all others are left alone |
| RecordFeeds.RecordFeed.Subscribe | server/internal/modules/records/feed.go:195-236 | refused exactly for a blank scope or a cursor that is too old (by TooOldIffEvicted: an event after it was evicted); the replay is the log after the cursor, in scope; the capacity is the asked or default one within its bounds |
| RecordFeeds.RecordFeed.FanOut | server/internal/modules/records/feed.go:160-172 | every registered subscriber of the scope with room gets the event, one without is dropped and closed, the others are untouched, no send hits a closed channel, and the drops are counted |
| RecordFeeds.RecordFeed.Receive | server/internal/modules/records/feed.go:69-74 | a client reads its channel in order, also after it was closed |
| RecordFeeds.RecordFeed.Close | server/internal/modules/records/feed.go:226-234 | the subscription is unregistered and closed once; what was sent stays readable |
| RecordFeeds.RecordFeed.constructor | server/internal/modules/records/feed.go:119-127 | limits that are not positive get their defaults, and the empty feed is valid |
| RecordFeeds.RecordFeed.SubscriptionIsExact | server/internal/modules/records/feed.go:195-236 | replay and everything ever sent are exactly the in-scope events after the cursor, ascending, up to now, the close, or the first event that did not fit, at which the channel of a slow consumer was full |
| RecordFeeds.RecordFeed.AlwaysHolds | server/internal/modules/records/feed.go:76-236 | retained events are contiguous and end at the last number, within the limit; the dedup map is exactly their keys; registered means open; each capacity lies between the replay plus one and the bound of the feed |
| RecordFeeds.ResumingLosesNothing | server/internal/modules/records/feed.go:204-216 | reading part of a subscription and resuming from the last event read misses and repeats nothing |
| RecordFeeds.TooOldIffEvicted | server/internal/modules/records/feed.go:204-206 | the cursor test is true exactly when an event after the cursor has been evicted |
| RecordFeeds.RegisteredAreOpen | server/internal/modules/records/feed.go:76-87 | subscribers are registered exactly while their channels are open |
| RecordFeeds.RetainedKeysAreDistinct | server/internal/modules/records/feed.go:143-159 | no two retained events share a dedup key |
| RecordFeeds.DedupSlides | server/internal/modules/records/feed.go:143-159 | eviction and insertion keep the dedup map exactly the keys of the retained events |
| Associations.VersionsMeanDeliveries | server/internal/modules/projection/association.go:205-330 | with one payload per version the source version is the greatest k with 1..k a subsequence of the deliveries, the observed version is the greatest delivered, GAP exactly when they differ, and the content is event k's field by field, a withdrawn project application being shown as cancelled; before version one it is the first delivery's |
| Associations.VariantsAgree | server/internal/modules/projection/tender_association.go:142-221 | project, tender and settlement variants show the same versions, state and content for the same deliveries |
| Associations.ProjectConflictIsForEver | server/internal/modules/projection/association.go:296-330 | in the project variant a conflict freezes versions and content and stays, whatever is delivered |
| Associations.ProjectConflictIff | server/internal/modules/projection/association.go:296-330 | a project association is in conflict exactly when some delivery contradicted what was shown at the time |
| Associations.OtherConflictsAreLeftIff | server/internal/modules/projection/settlement_association.go:199-232 | tender and settlement conflicts are left by exactly the next version or one beyond all observed |
| Associations.StaleWriteLosesConflictIff | server/internal/modules/projection/association.go:246-253 | the guard covers the source version alone, so a stale writer loses a conflict exactly when its event moves past what was read |
| Associations.AssociationRepository.Apply | server/internal/modules/projection/association.go:205-254 | by the version of a valid event the stored document is inserted, moved to the next version, marked as gap or conflict, or left as it is, field by field; an invalid event changes nothing and a refused one no document |
| Associations.AssociationRepository.DocumentsMean | server/internal/modules/projection/association.go:205-254 | whatever was applied in whatever order, a stored document means what was delivered for its key, as VersionsMeanDeliveries says |
| FixturePath.DecodeUndoesEncode | server/internal/modules/projection/catalog_fixture.go:182-187 | decoding with ~1 then ~0 undoes encoding with ~ then /, for every segment |
| FixturePath.TwoPassesAreOne | server/internal/modules/projection/catalog_fixture.go:182-187 | on every text, malformed or not, the two passes decode as one pass from the left |
| FixturePath.PointersResolve | server/internal/modules/projection/catalog_fixture.go:170-213 | a pointer made from any segments resolves to what the segments lead to, as in sections 3 and 4 of RFC 6901 |
| FixturePath.DottedPathsResolve | server/internal/modules/projection/catalog_fixture.go:170-181 | a dotted payload path resolves to what its segments lead to in the payload |
| FixturePath.ElementsAreReached | server/internal/modules/projection/catalog_fixture.go:202-206 | the decimal number i leads to element i of an array, also with a plus sign; a number beyond the array or a negative one leads nowhere |
| FixturePath.ZerosAreIgnored | server/internal/modules/projection/catalog_fixture.go:202-206 | leading zeros of an array position do not matter |
| FixturePath.SplitUndoesJoin | server/internal/modules/projection/catalog_fixture.go:180-184 | splitting undoes joining |
| FixturePath.JoinUndoesSplit | server/internal/modules/projection/catalog_fixture.go:215-217 | joining undoes splitting, so different target paths have different segments |
| FixturePath.Traverse | server/internal/modules/projection/catalog_fixture.go:192-213 | the loop through fields and array positions finds exactly what the recursive definition leads to |
| FixturePath.Resolve | server/internal/modules/projection/catalog_fixture.go:170-190 | dotted payload paths and pointers resolve, nothing else does |
| MappedObject.SetGrowsTree | server/internal/modules/projection/catalog_fixture.go:215-240 | setting an unrelated path in the tree of some targets gives the tree of one more target |
| MappedObject.IndependentEntriesBuild | server/internal/modules/projection/catalog_fixture.go:215-240 | independent entries build the tree that is defined from their set alone |
| MappedObject.EveryOrderBuildsTheSame | server/internal/modules/projection/catalog_fixture.go:118-128 | independent entries build the same object in every order |
| MappedObject.EveryOrderBuildsIffIndependent | server/internal/modules/projection/catalog_fixture.go:118-128 | building succeeds in every order exactly when no target is another or leads through another |
| MappedObject.Map | server/internal/modules/projection/catalog_generation.go:187-201 | the loop resolves and sets in order, and an absent source or failed set ends it |
| MappedObject.MappingIsExact | server/internal/modules/projection/catalog_generation.go:187-201 | with resolvable sources and independent targets each target reads back its source, and every other path leads to an object on the way or into a target's value |
| MappingGeneration.Build | server/internal/modules/projection/catalog_generation.go:227-257 | built exactly when within the limit, compiled and free of repeated keys; entries and index are complete |
| MappingGeneration.Search | server/internal/modules/projection/catalog_generation.go:140-154 | the search through the event index gives the answer of a scan of all entries |
| MappingGeneration.ScanDecides | server/internal/modules/projection/catalog_generation.go:134-155 | the scan has one answer: found for exactly one match, not found for none, ambiguous for two or more |
| MappingGeneration.Registry.Resolve | server/internal/modules/projection/catalog_generation.go:134-155 | trimmed arguments are answered as a scan of the active generation would |
| MappingGeneration.OneFieldIsUnambiguous | server/internal/modules/projection/catalog_generation.go:157-172 | candidates that all read their workspace from one metadata field, such as workspaceId, are never ambiguous |
| MappingGeneration.AmbiguousIffAllowlistsOverlap | server/internal/modules/projection/catalog_generation.go:134-172 | for registered mappings some event of a kind is ambiguous exactly when a candidate that allows its own scope stands beside another such candidate or a metadata one |
| MappingGeneration.EventIsAmbiguousIff | server/internal/modules/projection/catalog_generation.go:134-172 | a given event is ambiguous exactly when a candidate that allows its own scope stands beside an overlapping one that matches the event |
| MappingGeneration.TwoAllowlistsAreAmbiguous | server/internal/modules/projection/catalog_generation.go:157-172 | two registered mappings whose allowlists name their own scopes match every event of the kind together |
| IssuerKeys.VerifiableIffOverlapCovers | tools/workload-issuer/main.go:228-268 | the signing key is published until its token expires, in every run, exactly when the overlap covers lifetime and issue delay |
| IssuerKeys.KeysStayInOrder | tools/workload-issuer/main.go:228-268 | only the head has no retirement time and retirement times do not increase along the list |
| IssuerKeys.NextKeepsInv | tools/workload-issuer/main.go:228-402 | rotations, prunes, signer reads and signatures keep every live token's key listed until the token expires |
| IssuerKeys.IssuerServer.Reload | tools/workload-issuer/main.go:228-258 | a new key signs from now on and the old head retires after the overlap; without a key, or with rotation off, nothing changes |
| IssuerKeys.IssuerServer.Keys | tools/workload-issuer/main.go:347-356 | what is published verifies every token still good, if the overlap covers lifetime and delay |
| IssuerKeys.IssuerServer.IssueToken | tools/workload-issuer/main.go:358-402 | the token, and no other, is issued: signed by the key read first, expiring a lifetime after the clock read later, in whole seconds |
| IssuerKeys.IssuerServer.Prune | tools/workload-issuer/main.go:260-268 | the loop keeps exactly the keys not yet retired, in order |
| RateLimiting.IntervalAdmitsFewerThanTwice | server/internal/observability/ratelimit.go:30-45 | any half-open interval as long as the window admits at most twice the limit less one |
| RateLimiting.BoundIsMet | server/internal/observability/ratelimit.go:30-45 | that bound is reached, for every limit |
| RateLimiting.WindowAdmitsLimit | server/internal/observability/ratelimit.go:30-45 | each fixed window admits at most the limit |
| RateLimiting.FirstCallAfterWaitIsAdmitted | server/internal/observability/ratelimit.go:39-44 | after a refusal the first call at or after the returned wait is admitted, whatever came between |
| RateLimiting.CallBeforeWaitIsRefused | server/internal/observability/ratelimit.go:39-44 | after a refusal every call before the wait is over is refused |
| RateLimiting.RateLimiter.Allow | server/internal/observability/ratelimit.go:30-45 | admission and wait are those of the trace of calls so far; unless the clock ran backwards the wait is positive and no longer than a window |
| RateLimiting.AllowThrough | server/internal/observability/ratelimit.go:30-33 | no limiter admits everything without a wait |
| RateLimiting.NewRateLimiter | server/internal/observability/ratelimit.go:23-28 | no limiter exactly for a limit below one or a window that is not positive |
| PrincipalRotations.HistoryIsReachable | server/internal/modules/identity/rotation.go:165-246 | every committed rotation is in one of the four kinds of states, keeps its principals, scope and audience, and its revision is its place in the history |
| PrincipalRotations.ReachableStatesAreReached | server/internal/modules/identity/rotation.go:185-246 | each of those states, with either flag and any count in flight, ends some history of legal transitions, and nothing else of the rotation has changed |
| PrincipalRotations.NewActiveOnlyWhenDrained | server/internal/modules/identity/rotation.go:222-236 | the new principal becomes active only by revoking a draining, dually accepted old one with nothing in flight |
| PrincipalRotations.RevokedIsFinal | server/internal/modules/identity/rotation.go:185-246 | no transition is accepted exactly when the old principal is revoked |
| PrincipalRotations.AuditRevisionsIncrease | server/internal/modules/identity/rotation.go:284-296 | the audit revisions of an owner strictly increase |
| PrincipalRotations.AuditedLifecycle | server/internal/modules/identity/rotation.go:165-296 | after any operations an owner's audit entries are exactly those of its committed transitions, in order, with increasing revisions |
| PrincipalRotations.PrincipalRotationService.Create | server/internal/modules/identity/rotation.go:165-183 | created exactly for a valid request, an owner without rotation and an audit entry that is written, with the requested principals, scope and audience; otherwise nothing changes |
| PrincipalRotations.PrincipalRotationService.Transition | server/internal/modules/identity/rotation.go:261-282 | a transition allowed in the state it finds moves the states as its name says and commits with its audit entry, or changes nothing; refused for work in flight exactly when only that holds up the revocation |
| PrincipalRotations.PrincipalRotationService.SetInFlight | server/internal/modules/identity/rotation.go:205-220 | the count changes and the revision advances without an audit entry |

## Left out

- HTTP handlers, cookies, OIDC, token verification, the web console, export encoding and metrics: transport, UI and library calls.
- Validators of field shapes (patterns, lengths, allowed statuses) and authorisation: single-branch facts; what they protect is assumed where it is used, and version, identifier and hash checks that decide a branch are modelled.
- The internals of MongoDB, NATS and JSON Schema, hashing, JWT signing and randomness: replaced by maps, sets, atomic steps and given values.
- ProjectionRunner.PullRunner.RunBatch: does not model connecting, fetching and waiting between batches, drain timeouts and metrics; reconnection is its result, and a message that is not settled may be delivered again at any time.
- ProjectionDatabase.Handle: does not model the association writers that run between claim and apply, nor feed publication after the commit; associations and feed are modelled on their own. The mapping look-up is given as the routing.
- RebuildServices.RebuildService.Cancel: does not model receipts and audit of a cancellation, nor its idempotency, because the request hash contains the current revision.
- RebuildServices.RebuildService.Process: does not model the in-memory activation of the mapping generation, which cannot fail for a generation that was built, nor read pointers wired without an archive, nor live steps between its own; these are interleaved in ProjectionRebuild.RebuildsAreInvisible.
- RebuildServices.RebuildService.Replay: takes the listings and the failing database calls as given; the handler of the staging projector is its routing and the staged write.
- CommandServices.InboxStore.Claim: is the Mongo store, whose find and insert under the unique index are one step here; the in-memory store also has the owner in its key.
- CommandServices.Service.Submit: does not model policies, authorisation and payload limits, which come before the steps modelled; the audit of a result is not modelled.
- Associations.StaleWriteLosesConflictIff: is about two writers of one document; the results over whole delivery sequences are for one delivery at a time.
- MappedObject.Map: does not model the decoding of the envelope before the loop and the schema validation of the object after it.
- MappedObject.SetGrowsTree: is on values; the source updates nested maps in place and shares source objects with the result, which is visible only when a target leads through another target's value.
- MappingGeneration.Build: does not model compilation of a registration (hash, source, schema and validator checks); a registration is given as compiled or broken. The generation identifier is a digest and is left out.
- IssuerKeys.IssuerServer.Reload: does not model the clients file; `keyCount` prunes as `keys` does.
- RecordFeeds.RecordFeed.Publish: the event number does not wrap at 2^64, the time stamp is left out, and a subscriber's channel is a bounded sequence.
- PrincipalRotations.PrincipalRotationService.Transition: takes the action as a parameter where the source has one method per action; owners are compared as given, so an owner text with surrounding blanks is another owner, as in the source.
- Connector onboarding, tag validation, snapshot binding and the catalog publish flow: repeats of compare-and-swap lifecycles and idempotent creation already covered.
