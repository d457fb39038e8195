# Verified models of the noXa desktop client's state machines

The Go backend of the noXa desktop client is built from small state machines: maps and counters behind a
lock, epochs that outdate late callbacks, and files rewritten so that a crash between two operations does no
harm. This project models the ones whose correctness rests on many steps together, and proves what they
promise over whole runs.

Each state machine is given in two layers. A class (or a loop) follows the source's critical sections one by
one, and every method is proved equal to a function on values. Around those functions a transition system
adds what surrounds them: other threads, the server, timers, failing writes, crashes. The main results are
about every reachable state of that system.

| module | what it models |
|---|---|
| `ConnManager`, `RequestMatching`, `RequestRuns`, `RequestOutcomes`, `StrayFrames` | the control connection's request table; matching replies without request IDs; what holds of every run; what calls, drains and transfers come to; frames that answer nothing |
| `Tombstones`, `IdentityDeletion`, `DeletionFence` | deleting an identity's local data, its crash recovery, and the fence against concurrent writers |
| `Outbox`, `OutboxRuns`, `OutboxDelivery` | the sealed outbox and its pump; its runs; what becomes of each entry |
| `ContactPins` | contact pins on first use, with the confirmation dialog outside the lock |
| `PeerKeyCache`, `KeyUses`, `PeerKeyFetches` | the peer-key cache; its eviction told by uses; single-flight fetches |
| `DmChanges`, `DmHistory`, `DmArrivals` | edits and deletions of direct messages; the log they apply to; what it says of what arrived |
| `ScopeKeys`, `ScopePulls`, `PullOutcomes` | chat key generations; events waiting for a missing generation; what becomes of each |
| `SealedFile` | the chunked sealed-file format and content-derived storage names |
| `HistoryPacking` | packing a message history into chunks |
| `DownloadStream`, `Download` | receiving a file, resuming, and publishing it |
| `PowerEvents`, `CapturePower` | the backend's power word; leases on the display-capture power request |
| `AttachmentToken` | printing and parsing attachment references |
| `HistoryPager` | paging a history backwards |

## Assumptions

- Request matching: the server answers each awaited request at most once; a request type is not 0 and has one
  reply type; a connection is installed only while none is, and is a new one.
- Only the matching invariant and `FramesAnswerTheirWaiter` also assume that no frame that answers nothing, read
  on the installed connection, matches a slot. A server that pushes only frames of types nobody awaits meets
  this (`StrayFrames.PoliteRunsAreQuiet`). It is needed: `client/devices.go` (lines 471 and 494) sends requests
  whose replies nobody awaits, and `StrayFrames` shows what such a frame can do.
- A key that is put into the peer-key cache names somebody: it comes from a verified key record
  (client/e2e.go, lines 1005-1009), and `internal/e2ee/key_record.go` refuses a record without a user ID.
- The power word counts modulo 2^63; runs of `CapturePower` have fewer power events than that.
- Ciphers and digests are function parameters. Where a theorem needs it, a cipher opens what it sealed with a
  fixed overhead, and a digest is collision-free. Nothing is assumed globally.
- Time is a parameter of each step and does not run backwards where a theorem says so.
- Local-data deletion: one process works on the directory, and whether a single path exists is reported
  truthfully. Listing the directory may fail.
- Downloads: no other program writes into the partial file or into the file being copied.

## What turned out not to hold

Each is stated with the exact condition under which the promise is kept.

- `StrayFrames.StrayFrameLeadsAstrayIff`: a frame that answers nothing can lead to a misdelivery, at once or
  later, exactly when some slot matches it, abandoned or not.
- `IdentityDeletion.LocalData.Sweep` and `FinishDeletion`: a directory that cannot be listed reads as empty, so
  completion and leave to import are reported; they mean what they say exactly if the listing succeeded or
  there was nothing to find. `Tombstones.UnguardedRunReturnsData` is a run in which deleted data returns.
- `OutboxRuns.KeptInFlightRequeuedIff`: an entry marked uncertain while it is being sent returns to the queue
  exactly when the pump reports that nothing was sent and its load and save succeed.
- `DmHistory.OvertakingShowsUnless`: a change that overtakes a record of the newer protocol is applied to it,
  one that follows it is not, although the comment in the source says such a record is never touched. The
  orders agree exactly for legacy records, for changes by others, and for changes without effect.
- `DmHistory.FailedAppendForgets`: a log write that fails has already consumed the waiting changes.
- `CapturePower.RenewedLateIff`: a lease is renewed after its deadline exactly when the deadline passes between
  the two readings of the clock; `CapturePower.RenewedLateAfterAll` is such a renewal.
- `SealedFile.TruncatedOpensIff`: a file cut at the end of a record opens as a shorter file; content-derived
  names rule that out (`SealedFile.TruncationRefused`).
- `AttachmentToken.TokenReadsBackIff`: a token with metadata and an empty key does not read back. The printer
  admits one; its only caller (client/chat_attachments.go, line 154) passes the base64 of 32 bytes.
- `Download.TearsExactlyIfCopying`: going on from a failed link can leave a beginning of the file under the
  destination's name exactly if the name is free and there is anything to copy, with or without a crash.
- `Download.SharedPartialKeptIff`: an attempt on a partial that is still linked to a published file keeps that
  file's content exactly if no byte is written.
- `Download.SelectedIsReplacedUnlessMeddled`: the file that a rename replaces is the selected one exactly without
  meddling after the check, or if the last of it moved that file back.

## Model

| member | source | states |
|---|---|---|
| `ConnManager.Manager.RegisterRequest` | client/conn.go:1024-1082 | a request takes its reply type's slot on the expected installed connection, or changes nothing |
| `ConnManager.Manager.DetachLocked` | client/conn.go:755-805 | detaching clears connection, slots and transfers, moves both epochs, and hands back exactly the waiters and transfers there were |
| `ConnManager.Manager.TerminateConn` | client/conn.go:837-849 | only the exact active connection is detached; a stale loop changes nothing |
| `ConnManager.Manager.InstallConn` | client/conn.go:638-682 | installing sets the connection, moves both epochs and accepts transfers again |
| `ConnManager.Manager.AbandonRequest` | client/conn.go:1095-1125 | a timed-out drainable request leaves its own slot marked, and no other |
| `ConnManager.Manager.DrainTimer` | client/conn.go:1095-1125 | the drain timer detaches only while the abandoned slot it was set for is still there on the same connection |
| `ConnManager.Manager.CleanupRequest` | client/conn.go:1024-1082 | clean-up removes the request's own unabandoned slot only |
| `ConnManager.Manager.DispatchAccepted` | client/conn.go:1185-1267 | a frame of a current read loop claims one matching slot, whatever the map order, and nothing else changes |
| `ConnManager.Manager.TrackTransferAt` | client/files.go:492-516 | a transfer is registered only for the current transfer epoch of an installed connection |
| `ConnManager.Manager.Cancel` | client/files.go:518-531 | cancelling removes and returns every transfer of that frontend ID |
| `RequestMatching.OnlyOwnSlotMatches` | client/conn.go:1185-1267 | on the installed connection only a request's own slot can match its answer, replies and errors alike |
| `RequestMatching.StepKeepsInv` | client/conn.go:1024-1267 | every step of callers, wire, server, timers and connections but a stray frame that matches a slot keeps the matching invariant |
| `RequestMatching.RunsKeepInv` | client/conn.go:1024-1267 | the invariant holds in every state of every run in which no stray frame matches a slot |
| `RequestMatching.FramesAnswerTheirWaiter` | client/conn.go:1024-1122 | in every run in which no stray frame matches a slot, any frame handed to a waiter answers that waiter's own request, through timeouts, abandoned slots, drains, disconnects, reconnects and stale loops |
| `RequestRuns.StepKeepsOrder` | client/conn.go:1024-1267 | every step, whatever frames arrive, keeps gates, slots and calls in order |
| `RequestRuns.RunsKeepOrder` | client/conn.go:1024-1267 | and so does every run |
| `RequestRuns.StepKeepsLedger` | client/conn.go:638-858 | every step, whatever frames arrive, keeps transfers and the connections' history right |
| `RequestRuns.RunsKeepLedger` | client/conn.go:638-858 | and so does every run |
| `RequestRuns.OneResultPerWaiter` | client/conn.go:851-860 | in every run a waiter with a result keeps it, and no other is ever under way to it |
| `RequestRuns.CleanupSparesOthers` | client/conn.go:1024-1122 | clean-up and abandonment leave every other request's slot |
| `RequestRuns.StillPendingMeansDraining` | client/conn.go:1127-1139 | in every run whoever holds a gate finds the slot taken only by an abandoned request |
| `RequestRuns.ConnectionsEndOnce` | client/conn.go:755-858 | in every run each connection that was installed and is no longer has been detached exactly once, with at most one "disconnected" event |
| `RequestRuns.TeardownIsComplete` | client/conn.go:808-849 | whatever ends a connection drops every transfer and moves the transfer epoch; only a local disconnect is silent |
| `RequestRuns.TransfersAreCurrent` | client/files.go:492-542 | in every run each registered transfer carries the current transfer epoch of an installed connection |
| `RequestOutcomes.RegisteredIff` | client/conn.go:1024-1050 | a call is registered exactly if a connection is installed, it is the expected one, and nobody's slot is in the way; otherwise it is over and only its gate is released |
| `RequestOutcomes.RegisteredWhereExpected` | client/conn.go:1031-1034 | in every run a call that expects a connection and is registered is on that one, for good |
| `RequestOutcomes.NobodyWaitsForNothing` | client/conn.go:1024-1082 | in every run, whatever frames arrive, a call that is not over has its own slot on the installed connection, or its result is there or on its way |
| `RequestOutcomes.EveryWaiterIsTold` | client/conn.go:755-849 | whatever ends a connection, everybody with a slot on it is told that it closed |
| `RequestOutcomes.FailureEndsItsOwn` | client/conn.go:1054-1082 | a failed write, or the timeout of a request that must not linger, ends that call's own connection and no other |
| `RequestOutcomes.AnswerReachesItsWaiter` | client/conn.go:1185-1267 | in every quiet run the answer of a call that still waits goes to that call, a late answer frees its slot and goes to nobody, and a stale loop changes nothing |
| `RequestOutcomes.EpochsMarkConnections` | client/conn.go:638-849 | both epochs move by one with every change of the installed connection and never otherwise |
| `RequestOutcomes.TransfersExactly` | client/files.go:492-531 | in every run which transfers each tracking, ending and cancelling leaves; one is admitted exactly if a connection is installed and its epoch is the current one |
| `StrayFrames.PoliteRunsAreQuiet` | client/conn.go:1185-1267 | where only frames of types nobody awaits are pushed, no pushed frame matches a slot |
| `StrayFrames.StrayFrameLeadsAstrayIff` | client/conn.go:1185-1267 | a frame that answers nothing can lead astray, now or in a continuation, exactly when some slot matches it, abandoned or not |
| `StrayFrames.UnawaitedFrameBreaksMatching` | client/devices.go:471-494 | a run from the start in which a waiter receives a frame that is not its own |
| `Tombstones.StepKeepsRecoverable` | client/identity_local_data.go:194-227 | no disk operation but the commit loses a recoverable file |
| `Tombstones.CommitKeepsOthers` | client/ratchet_tombstone.go:77-223 | the commit gives up only what the deleted identity's own tombstones hold |
| `Tombstones.CarefulSpares` | client/identity_local_data.go:194-497 | the operations of deletion and recovery themselves spare every file |
| `Tombstones.TracesKeepRecoverable` | client/identity_local_data.go:194-525 | through any sequence of all disk operations, commits of other identities, guarded imports and writes elsewhere included, a file is at its path or under a listed tombstone name until it is written or removed or the identity whose tombstone holds it is deleted |
| `Tombstones.RunsKeepSound` | client/identity_local_data.go:449-525 | what a committed deletion holds stays held by tombstones that cannot be restored |
| `Tombstones.DeletedDataNeverReturns` | client/identity_local_data.go:499-525 | deleted data is never at any path again, re-imports of the key included, as long as each import finds the deletion finished |
| `Tombstones.UnguardedImportReturnsData` | client/identity_local_data.go:429-433 | otherwise every file that lingers can return to its path |
| `Tombstones.UnguardedRunReturnsData` | client/identity_local_data.go:429-433 | a run from a first file to its return after deletion and import |
| `Tombstones.MovesKeepLookup` | client/identity_local_data.go:382-420 | moving a file in or back leaves what a restore would give |
| `Tombstones.FindExtends` | client/identity_local_data.go:194-227 | listing further files still in place changes nothing a restore would give |
| `IdentityDeletion.LocalData.Move` | client/identity_local_data.go:194-227 | a move, interrupted anywhere, can be restored to exactly the files found; success takes every path away and comes whenever no disk operation fails |
| `IdentityDeletion.LocalData.ListBatch` | client/identity_local_data.go:194-227 | tombstone and manifest come before any rename, and neither changes what a restore would give |
| `IdentityDeletion.LocalData.MoveOne` | client/identity_local_data.go:194-227 | one rename takes its path away and leaves what a restore would give |
| `IdentityDeletion.LocalData.MoveBatch` | client/identity_local_data.go:194-227 | the renames of one batch, after its manifest, cut short anywhere, can be restored |
| `IdentityDeletion.LocalData.RemoveAll` | client/ratchet_tombstone.go:280-297 | a tombstone's files go one by one in any order; success leaves nothing of it |
| `IdentityDeletion.LocalData.EraseTomb` | client/ratchet_tombstone.go:280-297 | erasing a committed tombstone touches no file outside it, marks it first where that works, and succeeds whenever no operation fails |
| `IdentityDeletion.LocalData.PutBack` | client/identity_local_data.go:382-420 | unless a rename fails, exactly the files whose path was recreated stay in the tombstone |
| `IdentityDeletion.LocalData.RestoreTomb` | client/identity_local_data.go:382-420 | a conflict-free restore reproduces the original files; otherwise exactly the conflicting ones are kept aside; it succeeds whenever no operation fails |
| `IdentityDeletion.LocalData.Sweep` | client/identity_local_data.go:429-497 | completion means that only settled tombstones remain exactly if the listing succeeded or there were no others; without failures it is reached exactly if no tombstone's identity is in doubt; lone tombstones of live identities keep what a restore gives, and with completion are restored |
| `IdentityDeletion.LocalData.FinishDeletion` | client/identity_local_data.go:499-525 | success means that no tombstone is left that the key would bring back exactly if the listing succeeded or there was none; with full knowledge no tombstone of the key is left, other keys' stay, and only a failing operation prevents it; unknown liveness changes nothing and refuses exactly if such a tombstone is there |
| `IdentityDeletion.LocalData.MoveKinds` | client/identity_local_data.go:283-354 | the moves of all kinds of files, each restorable |
| `IdentityDeletion.LocalData.DeleteIdentity` | client/ratchet_tombstone.go:77-223 | a deletion that did not commit rolls back to exactly the files there were unless the rollback itself fails; one that committed has every file of the identity off its path; no other file or tombstone changes, and without failures it commits and leaves nothing |
| `IdentityDeletion.CrashesKeepRecoverable` | client/identity_local_data.go:194-525 | a crash anywhere in these methods, and then anything that spares the file, keeps it recoverable |
| `IdentityDeletion.CrashThenSweepRestores` | client/identity_local_data.go:449-497 | what an interrupted move leaves and what a completed sweep makes of it together undo the deletion |
| `IdentityDeletion.LocalData.InterruptThenSweep` | client/identity_local_data.go:194-497 | moving all kinds of files, cut short anywhere, then a sweep that lists the directory and completes: every file is as it was and the tombstone is gone |
| `DeletionFence.StepKeepsInv` | client/identity_local_data.go:230-246 | every step of writers and deletions keeps the fence invariant |
| `DeletionFence.RunsKeepInv` | client/identity_local_data.go:283-354 | and so does every run |
| `DeletionFence.MovedStaysGone` | client/identity_local_data.go:283-354 | once a kind was moved under its lock, no writer of any kind recreates a moved file until the fence is lifted |
| `DeletionFence.LockCloses` | client/dm_identity_trust.go:213-231 | when the deletion has a kind's lock no writer of that kind is past its check for a file of the key |
| `DeletionFence.NothingNewAppears` | client/dm_identity_trust.go:213-231 | from then on no file of that kind and key that was not there appears, in any interleaving, until the fence is lifted, the deletion puts it back, or a crash |
| `DeletionFence.WriterWritesIff` | client/dm_identity_trust.go:213-231 | a writer that gets its lock writes exactly if its own key is not fenced, whatever else is being deleted |
| `Outbox.Candidate` | client/chat_outbox.go:322-415 | the entry picked is the first ready one with none being sent before it |
| `Outbox.ChatOutbox.Load` | client/chat_outbox.go:123-148 | a "sending" entry that nobody sends reads as "uncertain" |
| `Outbox.ChatOutbox.StageEntry` | client/chat_outbox.go:189-243 | staging within the cap |
| `Outbox.ChatOutbox.CancelEntry` | client/chat_outbox.go:244-297 | cancelling what is not being sent |
| `Outbox.ChatOutbox.AskEntry` | client/chat_outbox.go:244-297 | an explicit send or retry queues an entry that is not being sent |
| `Outbox.ChatOutbox.KeepOperation` | client/chat_outbox.go:509-533 | keeping an uncertain operation |
| `Outbox.ChatOutbox.ForgetOperation` | client/chat_outbox.go:535-551 | forgetting it |
| `Outbox.ChatOutbox.BeginPump` | client/chat_outbox.go:322-415 | sending starts only after the durable mark |
| `Outbox.ChatOutbox.EndPump` | client/chat_outbox.go:322-415 | what each outcome writes back |
| `OutboxRuns.StepKeepsInv` | client/chat_outbox.go:189-415 | every step of pumps, user actions, failed saves and crashes keeps the outbox invariant |
| `OutboxRuns.RunsKeepInv` | client/chat_outbox.go:189-415 | and so does every run |
| `OutboxRuns.NeverTwiceInFlight` | client/chat_outbox.go:322-415 | no entry is in flight twice at once |
| `OutboxRuns.AttemptsOnlyGrow` | client/chat_outbox.go:322-415 | between two attempts without an intervening event the count of unasked attempts rises |
| `OutboxRuns.SeparatedOverRuns` | client/chat_outbox.go:244-415 | two attempts of the pump at an entry are separated by an explicit retry or by a report that nothing was sent |
| `OutboxRuns.MessagesNeverChange` | client/chat_outbox.go:189-415 | no step changes the text or destination of an entry |
| `OutboxRuns.MessagesNeverChangeOverRuns` | client/chat_outbox.go:189-415 | from staging to removal an entry is one message |
| `OutboxRuns.EntriesStayUntilSentOrRemoved` | client/chat_outbox.go:189-415 | a step takes an entry out of the file only when it is reported sent, or removed by the user while not being sent |
| `OutboxRuns.NoMessageIsLost` | client/chat_outbox.go:189-415 | in every run, through failed saves and crashes, an entry stays in the file until such a step |
| `OutboxRuns.InterruptedReadsUncertain` | client/chat_outbox.go:123-148 | an entry being sent at a crash reads "uncertain", and nobody sends it, in every later state until the user asks for it |
| `OutboxRuns.KeptInFlightRequeuedIff` | client/chat_outbox.go:322-415 | when an entry marked uncertain in flight returns to the queue |
| `OutboxRuns.KeptInFlightRequeuedFromTheStart` | client/chat_outbox.go:322-415 | a run from the empty outbox in which it does |
| `OutboxDelivery.EachEntryHasItsFate` | client/chat_outbox.go:123-551 | what the user sees after any step: the entries shown before, each changed or gone by its own fate and in the old order, then what the step adds within the caps of 100 and 200 |
| `OutboxDelivery.SentLeavesTheFile` | client/chat_outbox.go:398-413 | once a sent entry's report is saved it is out of the file and no longer being sent; the others are shown as before |
| `OutboxDelivery.SentStaysOut` | client/chat_outbox.go:322-415 | in every run it stays out until that very operation is kept again |
| `OutboxDelivery.GoneStaysGone` | client/chat_outbox.go:189-551 | no step but keeping an operation of that ID brings back an entry that is gone |
| `OutboxDelivery.LeavesExactly` | client/chat_outbox.go:189-551 | an entry leaves the file exactly by being reported sent or by the user's removal while not being sent |
| `OutboxDelivery.SendsTheFirstDue` | client/chat_outbox.go:358-388 | a pump starts exactly if its save succeeds and there is a first entry that is due, waiting, free to go and behind none being sent; it sends that one as it stands in the file |
| `OutboxDelivery.NothingIsSentEarly` | client/chat_outbox.go:322-415 | in every run what an attempt sends was held or queued, was due, was not a direct message while those wait, and was being sent by nobody |
| `ContactPins.PinFile.VerifyBegin` | client/dm_identity_trust.go:242-316 | the check before the dialog: pin on first use, accept the pinned, record a change as pending |
| `ContactPins.PinFile.VerifyConfirm` | client/dm_identity_trust.go:242-316 | a confirmation takes effect only if the pin is still the one that was shown |
| `ContactPins.PinFile.ClearRatchetReset` | client/dm_identity_trust.go:382-395 | a reset is cleared only by its own token |
| `ContactPins.RetireKeeps` | client/dm_identity_trust.go:242-316 | retiring adds exactly the replaced fingerprint, without duplicates |
| `ContactPins.StepKeepsInv` | client/dm_identity_trust.go:242-395 | every step of verifications and dialog answers keeps the pin invariant |
| `ContactPins.RunsKeepInv` | client/dm_identity_trust.go:242-395 | replaced fingerprints are retired once, at most 128; a reset token is the pinned fingerprint |
| `ContactPins.AcceptedMeansPinned` | client/dm_identity_trust.go:242-361 | a key is accepted only if its fingerprint is then pinned with nothing pending |
| `ContactPins.PinChangesOnlyByItsConfirmation` | client/dm_identity_trust.go:242-316 | the pin changes only by a confirmation of exactly that old and new pair |
| `ContactPins.StepKeepsBlock` | client/dm_identity_trust.go:242-361 | while a change is pending no step but its confirmation or the loss of the file accepts any record or moves the pin |
| `ContactPins.PendingStays` | client/dm_identity_trust.go:242-316 | in every run a change stays pending against the same pin until the record then pending is trusted or the file is lost |
| `ContactPins.PendingBlocks` | client/dm_identity_trust.go:242-361 | until then no verification accepts any record and no cached key of either identity is trusted |
| `ContactPins.ChangeBecomesPending` | client/dm_identity_trust.go:267-285 | verifying another identity than the pinned one leaves exactly that record pending against the same pin, asks about that pair where it may, and accepts nothing |
| `ContactPins.OtherwiseNothingChanges` | client/dm_identity_trust.go:249-270 | any other verification writes nothing but a first pin and asks nobody |
| `ContactPins.AcceptedIff` | client/dm_identity_trust.go:242-316 | exactly which records a verification or an answer accepts |
| `ContactPins.AnswerTakesEffect` | client/dm_identity_trust.go:286-316 | an accepted confirmation pins the new identity, retires the old one and asks for the reset; any other answer leaves the pin |
| `ContactPins.ChangeBlocksFromThenOn` | client/dm_identity_trust.go:242-361 | in every run: from a verification that met a changed identity on, no key of either identity is accepted or trusted until a confirmation or the loss of the file |
| `ContactPins.ConfirmedOnce` | client/dm_identity_trust.go:242-316 | of several dialogs for one change at most one takes effect |
| `ContactPins.RetiredForGood` | client/dm_identity_trust.go:242-316 | while the file is there no retired fingerprint is forgotten |
| `ContactPins.PinnedAgainOnlyByConfirmation` | client/dm_identity_trust.go:242-316 | in every run a fingerprint that is not pinned becomes so only by its own confirmation |
| `ContactPins.RetiredStaysOut` | client/dm_identity_trust.go:242-316 | in every run a retired identity is accepted again only after the user confirmed that very identity |
| `PeerKeyCache.FirstIsOldest` | client/e2e.go:291-305 | the head of the recency list is the entry with the smallest use counter |
| `PeerKeyCache.RemoveRefines` | client/e2e.go:245-274 | removing an entry refines removing it from the recency list |
| `PeerKeyCache.StoreRefines` | client/e2e.go:291-305 | storing refines moving to the most recent end |
| `KeyUses.RunsKeepInv` | client/e2e.go:245-305 | in every run of lookups, stores, rejections and clears the recency list is the order of last uses, with at most 1024 entries |
| `KeyUses.AnsweredIff` | client/e2e.go:245-258 | a key is answered exactly while it is cached and not expired, and exactly then counts as used |
| `KeyUses.LeastRecentlyUsedGoes` | client/e2e.go:291-305 | in every run, what a store leaves of the others: the unexpired ones, without the one whose last use came first if 1024 are live and the user is new |
| `KeyUses.StoredIsThere` | client/e2e.go:291-305 | the stored key is there for 15 minutes, as the user's only one |
| `KeyUses.HitOutlastsOlder` | client/e2e.go:254-301 | a key that was hit is not given up while a live one was last used before it |
| `KeyUses.ForgottenIff` | client/e2e.go:266-274 | a rejection removes the entry that still has the rejected key and nothing else |
| `PeerKeyFetches.ScanExactlyWhen` | client/e2e.go:291-305 | the eviction scan finds the least recently used entry in every map order exactly if that is not named "" or is alone: why the cache must never hold the empty name |
| `PeerKeyFetches.Cache.Get` | client/e2e.go:245-258 | a hit is the list's hit and becomes most recent; an expired entry is dropped |
| `PeerKeyFetches.Cache.EvictExpired` | client/e2e.go:307-314 | exactly the expired entries go |
| `PeerKeyFetches.Cache.Put` | client/e2e.go:291-305 | storing is the recency list's store: expired entries go, then the least recently used if 1024 are left and this user is not among them |
| `PeerKeyFetches.Cache.ForgetKey` | client/e2e.go:266-274 | a rejected key is forgotten unless a newer one replaced it |
| `PeerKeyFetches.Cache.PutAt` | client/e2e.go:276-289 | a fetched key is stored likewise, and only in the epoch it was fetched in |
| `PeerKeyFetches.Cache.GetOrClaimFetch` | client/e2e.go:316-328 | a miss joins the fetch under way or leads a new one |
| `PeerKeyFetches.Cache.FinishFetch` | client/e2e.go:330-340 | finishing removes only a fetch of its own epoch |
| `PeerKeyFetches.Cache.ClearAll` | client/e2e.go:342-352 | clearing empties cache and fetches, and hands back every channel |
| `PeerKeyFetches.StepKeepsInv` | client/e2e.go:276-352 | every interleaving of claim, store, finish, forget and clear keeps channels accounted for |
| `PeerKeyFetches.RunsKeepInv` | client/e2e.go:276-352 | in every state of every run |
| `PeerKeyFetches.ChannelsCloseOnce` | client/e2e.go:330-352 | each channel is closed exactly once and none is lost |
| `PeerKeyFetches.LeadersFinishTheirOwn` | client/e2e.go:330-340 | a leader closes no channel but its own |
| `PeerKeyFetches.ClearedFetchStoresNothing` | client/e2e.go:276-289 | a fetch begun before a clear never populates the cache afterwards |
| `PeerKeyFetches.OneFetchPerUser` | client/e2e.go:316-328 | in every run there is one fetch of a user's key at a time |
| `PeerKeyFetches.LeadsExactlyIf` | client/e2e.go:316-328 | a lookup starts a fetch exactly if it is no hit and nobody is fetching that key |
| `PeerKeyFetches.CurrentFetchDelivers` | client/e2e.go:276-340 | a fetch of the current epoch stores its key, and when it is over its own channel is to be closed |
| `PeerKeyFetches.ClearingWakesAll` | client/e2e.go:342-352 | clearing empties the cache, orphans every fetch and hands over every channel under way |
| `DmChanges.NormalizedReadsBack` | client/chat_dm_history.go:495-527 | a stored encryption marker reads back as stored, verified only if it was stored as end-to-end |
| `DmChanges.FoldEvolves` | client/dm_changes.go:114-126 | changes keep a record's identity and never undo a deletion |
| `DmChanges.DeletionWins` | client/dm_changes.go:114-126 | after a deletion by the sender the record stays deleted and blank |
| `DmChanges.DeletedIff` | client/dm_changes.go:114-126 | a record ends up deleted exactly if it was or its sender deleted it |
| `DmChanges.LastEditShows` | client/dm_changes.go:114-126 | of a record not deleted the sender's last edit shows, as a verified body |
| `DmChanges.OthersChangeNothing` | client/chat_dm_history.go:340-345 | changes by anyone else do nothing |
| `DmChanges.AddedSize` | client/dm_changes.go:61-75 | adding keeps the table at 256 or fewer |
| `DmChanges.PendingChanges.Prune` | client/dm_changes.go:95-110 | pruning keeps exactly the unexpired changes, and the counter right |
| `DmChanges.PendingChanges.Add` | client/dm_changes.go:61-75 | the counter equals the stored changes; a full table is pruned, then emptied |
| `DmChanges.PendingChanges.Take` | client/dm_changes.go:78-93 | taking removes all changes for a message and returns the unexpired ones in order |
| `DmHistory.DirectHistory.AppendEntry` | client/chat_dm_history.go:302-350 | appending numbers, dates, drops redeliveries and applies what waited; a failed write loses it |
| `DmHistory.DirectHistory.ApplyChange` | client/dm_changes.go:131-163 | a change goes to the first legacy record of its sender, is dropped for another's, or waits |
| `DmHistory.HistoryDescends` | client/dm_changes.go:114-163 | over any arrivals no record is lost but by trimming, and no deletion is undone |
| `DmHistory.LogIsCanonical` | client/dm_changes.go:131-163 | the log is the messages in order, each with all its sender's changes in order, wherever they arrived and however often messages are redelivered |
| `DmHistory.Confluence` | client/dm_changes.go:131-163 | two arrivals of the same messages and, message by message, the same changes give the same log |
| `DmHistory.OvertakingShowsUnless` | client/chat_dm_history.go:340-345 | whatever else waits, the two orders agree exactly for legacy records, other people's changes and changes without effect |
| `DmHistory.FailedAppendForgets` | client/chat_dm_history.go:338-350 | a repeated append after a failed write differs exactly if a waiting change mattered |
| `DmArrivals.ArrivesAsSent` | client/chat_dm_history.go:302-350 | a message that is no redelivery and that no change waits for becomes the last record as it arrived, numbered and dated where it came without; nothing else changes but the trimming at 5000 |
| `DmArrivals.RedeliveryIsDropped` | client/chat_dm_history.go:329-337 | a message with the ID, direction and protocol of a stored one changes nothing |
| `DmArrivals.ChangesTheFirstOwn` | client/dm_changes.go:131-163 | a change rewrites the first legacy record of its author under that ID, and no other |
| `DmArrivals.ChangesNothingYet` | client/dm_changes.go:131-163 | where there is none it waits ten minutes, or is dropped if the ID is somebody else's |
| `DmArrivals.WhatAddingCosts` | client/dm_changes.go:61-75 | a waiting change is lost to another exactly if the table is full and it has expired or nothing has |
| `DmArrivals.EveryBodyWasSent` | client/chat_dm_history.go:302-350 | over any history every stored record is a message that arrived, with its own body, that of one of its author's edits, or blank by its author's deletion |
| `DmArrivals.EachRecordShows` | client/dm_changes.go:114-163 | in an ordinary history each record shows its author's last edit, wherever that arrived, or its own body, and is blank exactly if its author deleted it |
| `ScopeKeys.ScopeKeyStore.PutGen` | client/e2e.go:408-422 | an archival generation joins what the store is the outcome of |
| `ScopeKeys.ScopeKeyStore.PutCurrent` | client/e2e.go:396-404 | so does a pushed one |
| `ScopeKeys.ScopeKeyStore.Refuse` | client/e2e.go:456-472 | and a refusal, which skips generations already held |
| `ScopeKeys.ScopeKeyStore.Current` | client/e2e.go:443-452 | after any arrivals: something exactly if anything was pushed, and then the largest pushed generation under a key that arrived for it |
| `ScopeKeys.HeldAndRefused` | client/e2e.go:396-472 | held: everything ever installed; refused: everything refused and never installed |
| `ScopeKeys.HeldKey` | client/e2e.go:416-422 | a held key is one that was installed for that generation |
| `ScopeKeys.LatestIsLargest` | client/e2e.go:396-404 | the send generation is the largest ever pushed and its key is held |
| `ScopeKeys.Converges` | client/e2e.go:396-472 | any orders and repetitions of the same arrivals leave the same store |
| `ScopePulls.PullQueue.QueuePull` | client/e2e.go:515-528 | an event leads exactly if its generation is not in flight, and is turned away exactly if it is and 64 wait |
| `ScopePulls.PullQueue.FinishQueuedPull` | client/e2e.go:532-541 | finishing frees the generation and hands back its followers in order |
| `ScopePulls.StepKeepsInv` | client/e2e.go:1334-1360 | every step keeps each submitted event in exactly one place |
| `ScopePulls.RunsKeepInv` | client/e2e.go:1334-1360 | in every state of every run |
| `ScopePulls.ShownAtMostOnce` | client/e2e.go:1334-1360 | no event is shown twice, nor anything but its own text or the placeholder |
| `ScopePulls.NoneLost` | client/e2e.go:1334-1360 | once all is quiet every submitted event has been shown |
| `ScopePulls.PlaceholderOnlyIfGivenUp` | client/e2e.go:1334-1360 | the placeholder is shown only for an event turned away from a full queue or whose pull got no worker |
| `ScopePulls.SomeStepToTake` | client/e2e.go:1334-1360 | while an event is not shown there is a step to take |
| `ScopePulls.StepLowers` | client/e2e.go:1334-1360 | every step but a submission leaves less to do |
| `ScopePulls.EveryEventIsShown` | client/e2e.go:1334-1360 | whichever steps are taken, they come to an end with every event shown |
| `ScopePulls.OnePullPerGeneration` | client/e2e.go:515-541 | one pull per generation, at most 64 followers, none without a leader |
| `PullOutcomes.WhereASubmittedEventGoes` | client/e2e.go:510-528 | in every run a submitted event leads if nobody does, is turned away exactly if somebody leads and 64 events wait, and waits otherwise |
| `PullOutcomes.PlaceholderExactlyIfGivenUp` | client/e2e.go:1334-1360 | in every run an event is shown as the placeholder exactly if it met 64 waiting events or its pull got no worker; otherwise its own text is shown |
| `PullOutcomes.FollowersShownInOrder` | client/e2e.go:1334-1360 | in every run the followers of a pull are shown in the order of their submission |
| `SealedFile.SealFile` | client/e2e.go:624-651 | the loop writes the header and one record per chunk, or fails with the cipher |
| `SealedFile.OpenFileLimited` | client/e2e.go:675-717 | the loop reads records until the end, and otherwise the legacy form |
| `SealedFile.RoundTrip` | client/e2e.go:624-717 | opening gives back what was sealed exactly when the limit admits it |
| `SealedFile.SealedLengthIsExact` | client/e2e.go:611-619 | the sealed length is the predicted one |
| `SealedFile.SizeOrdersPlaintexts` | client/e2e.go:611-619 | bounding the sealed length bounds the plaintext and no more |
| `SealedFile.OpenIsBounded` | client/e2e.go:675-717 | no successful bounded open of any blob exceeds the limit |
| `SealedFile.TruncatedOpensIff` | client/e2e.go:675-703 | a cut file opens exactly at record ends, as that much of the original |
| `SealedFile.NameAdmitsOneFile` | client/chat_attachments.go:28-59 | a content-derived name admits its file and no other |
| `SealedFile.TruncationRefused` | client/chat_attachments.go:42-50 | under such a name no truncated file is accepted |
| `HistoryPacking.BuildChunks` | client/dm_history_copy.go:138-200 | the chunks are the greedy packing of the newest messages, and the count is the largest within the limits |
| `HistoryPacking.ChunksCarryThePrefix` | client/dm_history_copy.go:138-200 | chunk, count and byte bounds hold, and the chunks in order are the reverse of the kept prefix |
| `HistoryPacking.GreedyIsBest` | client/dm_history_copy.go:158-177 | no other consecutive packing of the same messages uses fewer chunks |
| `HistoryPacking.StoppingKeepsMost` | client/dm_history_copy.go:158-177 | no packing within the limits carries more of the newest messages |
| `HistoryPacking.NoPackingCarriesMore` | client/dm_history_copy.go:138-200 | no division of the newest eligible messages into at most 256 chunks within their bounds and 50 MiB carries more of them than the packer's |
| `HistoryPacking.EligibleExactly` | client/dm_history_copy.go:138-200 | left out for its size is exactly a message that no chunk can hold; the others keep their order |
| `HistoryPacking.ListedIsWrittenLength` | client/dm_history_copy.go:138-200 | the length that the limits count is that of the records written out between brackets with commas |
| `DownloadStream.ReceiveFile` | client/file_transfer_transport.go:213-273 | the loop over frames |
| `DownloadStream.CompleteIffVerified` | client/file_transfer_transport.go:213-273 | a stream completes exactly when all was written within the limit and the digest is that of the whole file |
| `DownloadStream.EndIff` | client/file_transfer_transport.go:213-273 | exactly which frames end a stream in a mismatch and which in a rejection |
| `DownloadStream.FileExtends` | client/file_transfer_transport.go:213-273 | the file is what it was and exactly the bytes taken, ahead of the hash only after a failed write |
| `Download.StepKeepsInv` | client/files.go:1010-1078 | attempts, publication steps, crashes and meddling keep the download invariant |
| `Download.RunsKeepInv` | client/files.go:1010-1078 | in every state of every run |
| `Download.VouchedWasSent` | client/files.go:976-1078 | for every accepted content some attempt received its digest and an "ok" |
| `Download.TornIsUnfinished` | client/file_grants.go:270-298 | only a copy that was not finished is torn, so where linking works nothing is |
| `Download.RegrownWasOverwritten` | client/files.go:976-1008 | a published file changes only by an attempt that resumes from it and writes a byte |
| `Download.PublishedIsVerified` | client/file_grants.go:261-301 | in every run a published file is whole and of a digest the server sent, unless its copy was not finished or an attempt wrote to it |
| `Download.PublishedIsRelated` | client/file_grants.go:261-301 | in every run whatever it is a beginning of such a content, or that and more |
| `Download.UnselectedNeverReplaced` | client/file_grants.go:241-301 | in every run a file at the destination that was not put there by us, is not the partial and is not selected keeps name and content, meddling aside |
| `Download.DiscardedIff` | client/files.go:1055-1066 | the partial goes exactly when it is stale and its removal is reached and works; otherwise it keeps all bytes taken |
| `Download.AttemptComesTo` | client/files.go:1010-1078 | told by the frames alone: which attempts go on to publish, which to discard, and what the partial then holds |
| `Download.VerifiedIsPublished` | client/file_grants.go:261-301 | a verified download ends whole at the destination with no partial left, by rename, link or copy, when nothing fails |
| `Download.PartialIsKept` | client/files.go:1055-1078 | through every failure and crash the partial stays until it is published or due for removal |
| `Download.FailedCopyIsUndone` | client/file_grants.go:283-292 | a failed copy leaves the destination free again if it is still ours, and never touches another file there |
| `Download.CopyCutShortIff` | client/file_grants.go:270-298 | a copy cut by a crash, or by an error whose clean-up fails, leaves exactly that beginning, which blocks a retry |
| `Download.TearsExactlyIfCopying` | client/file_grants.go:270-298 | a torn file can be left exactly if the name is free and there is something to copy |
| `Download.SelectedIsReplacedUnlessMeddled` | client/file_grants.go:261-268 | after any meddling the replaced file is the selected one exactly if there was none or the last moved it back |
| `Download.SharedPartialKeptIff` | client/files.go:976-1053 | whatever an attempt on such a partial receives, the published content is kept exactly if no byte is written |
| `Download.SharedPartialCanBeSelected` | client/file_grants.go:269-301 | after a crash between link and removal such an attempt can come about |
| `CapturePower.DisplayCapturePower.CloseHandleLocked` | client/display_capture_power.go:65-74 | the handle is given up and closed once |
| `CapturePower.DisplayCapturePower.ExpireLocked` | client/display_capture_power.go:76-86 | exactly the expired leases go, and with the last one the handle |
| `CapturePower.DisplayCapturePower.ArmLocked` | client/display_capture_power.go:88-119 | one timer for the earliest deadline |
| `CapturePower.DisplayCapturePower.SynchronizeLocked` | client/display_capture_power.go:123-138 | a new power epoch, or none to be had, drops every lease |
| `CapturePower.DisplayCapturePower.AcquireLease` | client/display_capture_power.go:139-184 | acquiring, with every way it can fail |
| `CapturePower.DisplayCapturePower.RefreshLease` | client/display_capture_power.go:186-204 | renewing |
| `CapturePower.DisplayCapturePower.ReleaseLease` | client/display_capture_power.go:206-217 | releasing |
| `CapturePower.DisplayCapturePower.ShutDown` | client/display_capture_power.go:219-237 | shutting down |
| `CapturePower.DisplayCapturePower.TimerFires` | client/display_capture_power.go:109-118 | a timer of an earlier arming does nothing |
| `CapturePower.HeldForNobodyIff` | client/display_capture_power.go:139-184 | what an acquisition relies on: it leaves the request held without a lease exactly if the two looks report one epoch, first open and then blocked |
| `PowerEvents.GenerationCounts` | client/display_capture_power_windows.go:84-100 | the word's generation is the number of power events so far, modulo 2^63 |
| `PowerEvents.SameGenerationIff` | client/display_capture_power_windows.go:84-133 | two readings show one generation exactly if the number of events between them is a multiple of 2^63 |
| `PowerEvents.OneReportPerGeneration` | client/display_capture_power_windows.go:84-133 | short of that many events a generation is always reported as blocked or never |
| `PowerEvents.ReadsAreSteady` | client/display_capture_power_windows.go:102-133 | so no two looks report one epoch, first open and then blocked |
| `PowerEvents.BlockedUntilTheUserReturns` | client/display_capture_power_windows.go:84-133 | the power is reported as blocked exactly if the last power event was a suspend or an automatic resume |
| `CapturePower.StepKeepsInv` | client/display_capture_power.go:65-237 | request held iff leases; handles accounted for; leases of the current epoch; one right timer |
| `CapturePower.RunsKeepInv` | client/display_capture_power.go:65-237 | in every state of every run |
| `CapturePower.ShutdownClosesAll` | client/display_capture_power.go:219-237 | after shutdown every handle ever made has been closed exactly once |
| `CapturePower.GrantedInOneEpoch` | client/display_capture_power.go:139-184 | a lease is granted only if the epoch was the same before and after |
| `CapturePower.GrantedIff` | client/display_capture_power.go:139-184 | exactly when a lease is granted, and which leases there are then |
| `CapturePower.RefusalSparesLeases` | client/display_capture_power.go:139-184 | an acquisition that grants nothing costs no live lease, unless a look fails or reports another epoch |
| `CapturePower.LeasesAfterRenewal` | client/display_capture_power.go:186-204 | what a failed renewal leaves of the leases |
| `CapturePower.ClosedStays` | client/display_capture_power.go:219-237 | stopping closes the manager with no lease, handle or timer left, for good; nothing else closes it |
| `CapturePower.RenewedIff` | client/display_capture_power.go:186-204 | exactly when a lease is renewed, and to which deadline |
| `CapturePower.RenewedLateIff` | client/display_capture_power.go:186-204 | a lease is renewed after its deadline exactly if it is of the reported epoch and the deadline passes during the look, and then by less than the look takes |
| `CapturePower.RenewedLateAfterAll` | client/display_capture_power.go:186-204 | a late renewal |
| `CapturePower.ReleasedAlone` | client/display_capture_power.go:206-217 | a release ends that lease and no other live one, and the request exactly with the last |
| `CapturePower.FiringExpires` | client/display_capture_power.go:109-118 | the current timer ends exactly the leases whose time has come, and at least one |
| `AttachmentToken.EncodeMeta` | client/chat_attachment_meta.go:57-72 | the builder prints the in-range fields |
| `AttachmentToken.ParseMeta` | client/chat_attachment_meta.go:76-99 | the loop over fields |
| `AttachmentToken.SegmentReadsBack` | client/chat_attachment_meta.go:57-99 | a printed segment reads back as the in-range fields |
| `AttachmentToken.DecimalReadsBack` | client/chat_attachment_meta.go:57-99 | decimal printing and reading are inverse |
| `AttachmentToken.SegmentLacks` | client/chat_attachment_meta.go:57-72 | a segment holds neither '#' nor ']' |
| `AttachmentToken.SafeName` | client/chat_attachments.go:63-65 | display names lose '#' and ']' and nothing else |
| `AttachmentToken.OldSplitAgrees` | client/chat_attachments.go:78-89 | the older three-field split gets storage and key of every token |
| `AttachmentToken.TokenReadsBackIff` | client/chat_attachment_meta.go:103-123 | a token reads back exactly unless it has metadata and no key |
| `AttachmentToken.TokenSays` | client/chat_attachment_meta.go:57-123 | a token with a key gives back each field that is in its range and nothing for the others |
| `AttachmentToken.ParsedIsInRange` | client/chat_attachment_meta.go:76-99 | whoever printed a segment, no field is read out of its range |
| `AttachmentToken.FieldsAreRead` | client/chat_attachment_meta.go:76-99 | a segment of any well-formed fields in any order is read field by field |
| `AttachmentToken.UnknownFieldIgnored` | client/chat_attachment_meta.go:10-31 | a field of a later version changes nothing, wherever it stands |
| `AttachmentToken.OnlyLastBracket` | client/chat_attachment_meta.go:103-109 | the only ']' is the last character exactly if storage and key have none |
| `HistoryPager.ScanWith` | client/chat_search.go:38-75 | the pager ends on any answers, within the maximum |
| `HistoryPager.ScanReadsTheNewest` | client/chat_search.go:38-75 | against a faultless server it visits the newest min(max, total) entries once each, newest first, and is complete iff total < max |
| `HistoryPager.ScanIsHonestAboutGaps` | client/chat_search.go:38-75 | with errors it visits a newest part and never wrongly claims completeness |
| `HistoryPager.ErrorKeepsThePagesBefore` | client/chat_search.go:38-75 | an error in the middle keeps exactly the pages before it, is no failure and is not taken for the end |
| `HistoryPager.FailedIff` | client/chat_search.go:43-50 | an error is reported exactly if the first page could not be had |
| `HistoryPager.CompleteMeansRoomLeft` | client/chat_search.go:38-75 | whatever a server answers, the end is claimed only where more would still have been read |

## Left out

- TLS, sockets, deadlines, dialogs, events and native calls: only their outcome enters a step.
- JSON encoding and the at-rest sealing of logs and the outbox: records are values; packing keeps encoded lengths.
- Outbox: one store; the cancel pre-check outside the lock is not modelled, so cancelling is checked under the lock only.
- OutboxRuns.SeparatedOverRuns: counts the pump's attempts; sends from the composer under the same operation ID (client/app.go, lines 684-715) are not events of the log, only what they leave in the outbox is.
- Contact pins: the 16384-byte limit on a pin file and the registry of open dialogs.
- Direct-message history: a restart, which empties the table of waiting changes, and `peerOf`, which finds the conversation of a replayed own change.
- Scope keys: the wake-up channel and the epoch-less pull claims that nothing uses.
- Display capture: the backend's own shutdown error and the text of errors; the compare-and-swap loop of a power event is one atomic step.
- Downloads: destinations that are not regular files are refused by the check and not modelled; uploads are not modelled.
- DmHistory.LogIsCanonical: speaks of runs in which no change has to wait in a full table (256), none waits for the first delivery of its message longer than ten minutes, no record is trimmed (5000), and the messages that are changed are legacy ones.
- Grant tables, wrappers per tab, voice, overlay, camera, notifications and log rotation: they would only add easier members.
