# Models of AlienAI's sync, browser, update, teaching, wire and migration logic

This project models the parts of the repository that keep state or do arithmetic, and proves
what they promise over all inputs, all runs and all interleavings.

- **Drive sync** (`drive_*.dfy`). Three parties, the local tree, the server's rows and the
  manifest with its cursor, and the engine that reconciles them: the path predicates, the
  directory walk, the server's row table, the delta pull, the push and the propagation of
  deletions, first as functions, then as a state machine in which users, other devices and
  failing requests act between any two entries, then as the class `SyncEngine` with the
  source's loops.
- **Browser engine** (`tabs.dfy`, `downloads.dfy`). Requests run interleaved from one `await`
  to the next; each stretch is one step.
- **Updates** (`ota.dfy`). Download under a lock, staging, ready marker, automatic apply with
  a backoff that outlives the process. Every file operation is a step and the process may die
  at any of them.
- **Teaching** (`teach.dfy`, `tape.dfy`, `task_report.dfy`). The recorder, the replay, and the
  decisions from dispatch to the one report.
- **Wire formats and RPC** (`frames.dfy`, `screen_chunks.dfy`, `rpc_table.dfy`).
- **Migration** (`copy_text.dfy`, `copy_bytea.dfy`, `snowflake.dfy`). PostgreSQL's COPY text
  format, bytea text forms, and the id generators.

Where the source changes state, a method or class has the source's fields and loops and is
proved equal to a function; the theorems are about that function and its runs.

## Hypotheses

- Content hashes are injective (`Digest`); the update and frame modules take any hash, archive
  reader and JSON codec, the codec being one whose text decodes to the message.
- Server rows have strictly increasing times in microseconds and at most one live row per path,
  as uploads and deletes keep them. Cursors are milliseconds, rounded half up as PostgreSQL
  rounds `numeric` to `bigint`. Theorems that need it ask for changes more than half a
  millisecond apart (`Apart`, `Spaced`), and others show what happens without.
- `at(p, stamp)`: a positive (size, mtime) stamp determines the content at a path. A zero mtime,
  as legacy manifest entries have, never matches.
- In an undisturbed cycle and a replayed pull, stats and unlinks succeed (`Lucky`, `Silent`); in
  runs both may fail. `Tracks` says which steps lose track of a path; each does so exactly
  (`CoveredExactlyIfRecorded`, `NewestCursorCovers`). Every failure the source turns into an
  error is modelled.
- One pulled, pushed or pruned entry is one step. Strings are ASCII.
- A bundle brings no file under staging's own names (`Clean`); a ready marker is written or not.

## What the code does that its design does not say

The code is modelled as it is; these are theorems about it.

- A cycle's own uploads lie past the cursor, so the next pull undoes edits and deletions the
  user made to them meanwhile (`ChangeAfterCycle`).
- The cursor is a rounded time. Rounded down, the newest row comes again and undoes an edit
  (`RoundedCursorUndoesAnEdit`); rounded up, it can pass a row for good
  (`RowInRoundedMillisecondIsLost`); a full page within half a millisecond repeats without end
  (`CrowdedPageNeverEnds`), and nothing else does (`EndsExactly`, `AlwaysEndsExactly`).
- Between an empty first page and the first cursor a foreign upload can be skipped for good
  (`FirstCursorSkipsAFile`); the 404 fallback saves its manifest and then overwrites it with the
  older one (`FallbackForgets`, `DeletionAfterFallbackIsLost`).
- A file that could not be unlinked for a remote delete is uploaded again
  (`FailedUnlinkResurrects`).
- A failed push forgets the watcher's pending paths until the next full scan (`PushLocal`).
- The Enter flag of a typed step is not replayed, a password step replays its caption, and text
  buffered before a password field gets the focus is dropped (`TeachThenReplay`,
  `BufferBeforePasswordIsDropped`). A pause in a password field exposes what is keyed after it
  (`PauseExposesTheRest`).
- A repair does not keep its patch count, so the breaker never trips by it
  (`OwnRepairsNeverTrip`).
- A timed-out call removes whatever waiter sits at its id (`OlderTimeoutDropsNewerWaiter`). An id
  may be reused only when no unfinished call holds it, even an answered one (`NoReplyIsLost`).
- Two overlapping applies both pass the backoff check and both launch, a mark that is not written
  or is emptied again holds nothing back, and a release under the running build but required by
  the floor has no backoff at all (`OverlappingLaunchesAreNotSpaced`, `EmptiedMarkIsNotSeen`,
  `UnwrittenMarkRepeats`, `BelowFloorReleaseHasNoBackoff`). `LaunchedAgainExactly` says when a
  launch can follow with none of this cleared.
- A prune that stops halfway can leave a ready marker beside an incomplete bundle
  (`RestartTears`).
- A shutdown during a launch can leave an engine without tabs, or one with tabs that refuses new
  ones (`ClearDuringLaunchEmptiesTheTable`, `DropAfterLaunchRefusesNewTabs`).
- Workers 1024 and 1025 do not fit ten bits and halve the clock's resolution (`SameIdSameSlot`).
- A NULL in the last column adds an empty field; a field that is the text backslash-N reads as
  NULL; `\b`, `\f` and `\v` lose their meaning (`RoundTripExactly`).

## Model

| member | source | states |
|---|---|---|
| DrivePaths.InternalIsInherited | remotes/c_remote_drive/src/vfs.rs:32-41 | everything below an internal directory, and everything below a directory called `.directory`, is internal, so a walk that stays out of internal directories misses no file |
| DrivePaths.OneWayPaths | remotes/c_remote_drive/src/vfs.rs:27-55 | a path is pushed but never pulled exactly if it is `.directory`, and pulled but never pushed exactly if it has a dotted and no reserved component |
| DrivePaths.NormalFormsAgree | remotes/c_remote_drive/src/sync_wake.rs:19-28 | the watcher's and the engine's normal form of a path agree if and only if no backslash follows the leading slashes |
| DrivePaths.NormalizeServerPath | remotes/c_remote_drive/src/sync.rs:628-630 | the client reads a server path back as the joined components |
| DrivePaths.JoinInjective | remotes/c_remote_drive/src/sync.rs:628-630 | two lists of plain names with the same joined form are equal |
| DriveWalk.WalkFiles | remotes/c_remote_drive/src/sync.rs:466-486 | the explicit-stack walk ends and reports each file that is not internal once and nothing else, for every tree |
| DriveWalk.ListFolder | remotes/c_remote_drive/src/sync.rs:474-484 | one directory: what was still to be reached is what it reports plus what it pushes |
| DriveWalk.ReachedExactly | remotes/c_remote_drive/src/sync.rs:426-454 | pruning internal directories on the way down reaches exactly the files whose own path is not internal, with multiplicity |
| DriveWalk.FilesByLookup | remotes/c_remote_drive/src/sync.rs:466-486 | the files of a tree are exactly the paths whose lookup finds a file |
| DriveModel.PutEffect | servers/crates/mod_drive/src/store.rs:198-298 | an upload makes its row the latest of its path, newer than everything, keeps tombstones and every other path's latest row |
| DriveModel.DeleteEffect | servers/crates/mod_drive/src/store.rs:320-355 | a delete leaves a newer tombstone if the path was live, and nothing else changes |
| DriveModel.SinceLatest | servers/crates/mod_drive/src/store.rs:118-169 | a path's last row in the change feed is its latest row if that is past the cursor, else there is none |
| DriveModel.SinceRounded | servers/crates/mod_drive/src/store.rs:118-169 | between rows more than half a millisecond apart, the feed from the rounded cursor of a row is what follows that row, with the row once more exactly if its time rounds down |
| DriveModel.RoundedCursor | servers/crates/mod_drive/src/store.rs:128-149 | a cursor made of a row delivers that row again exactly if its microseconds are 1 to 499, and skips a later row exactly if they are 500 or more and the later row is within that millisecond |
| DriveReplay.PullEffect | remotes/c_remote_drive/src/sync.rs:241-300 | the outcome of a pull for a path depends only on the last row that names it: content, manifest hash, or absence |
| DriveRestart.ReplayAfterFailure | remotes/c_remote_drive/src/sync.rs:196-300 | whatever page and entry an aborted pull stopped at, and whatever a failing write left of one file, pulling again from the saved cursor with the server unchanged ends in the files, manifest hashes and cursor of an uninterrupted pull (rows apart) |
| DriveReplay.ApplyTwice | remotes/c_remote_drive/src/sync.rs:241-300 | applying the same rows a second time changes no file and no manifest hash |
| DrivePaging.PagingCoversFeed | remotes/c_remote_drive/src/sync.rs:196-214 | for every page size above one, between rows that are apart, the page loop delivers every row past the cursor in order, the last row of a page perhaps twice in a row and nothing else twice, and its cursor is the rounded time of the last row |
| DrivePaging.PagingEnds | remotes/c_remote_drive/src/sync.rs:202-214 | between rows that are apart, with pages larger than one, it ends after at most one page per row and one more |
| DrivePaging.CrowdedPageNeverEnds | remotes/c_remote_drive/src/sync.rs:202-214 | once the next page is a full one whose last row rounds back to the cursor, it is answered again and again: the loop never ends |
| DrivePaging.EndsExactly | remotes/c_remote_drive/src/sync.rs:202-214 | whatever the page size and the rows, the loop from a cursor ends if and only if it never comes to such a crowded page |
| DrivePaging.AlwaysEndsExactly | remotes/c_remote_drive/src/sync.rs:202-214 | it ends from every cursor if and only if no cursor has a crowded page, that is, if the table has no page of rows strictly inside the first half of one millisecond |
| DrivePaging.DeliveredLatest | remotes/c_remote_drive/src/sync.rs:196-214 | in what a finished pull delivered, the last row of a path is its last row past the cursor, or none |
| DriveReplay.PushShortcut | remotes/c_remote_drive/src/sync.rs:488-519 | with true manifest entries, trusting a matching stamp and always hashing give the same remote and manifest |
| DriveReplay.PullShortcut | remotes/c_remote_drive/src/sync.rs:370-414 | the same for the pull of a listed file |
| DriveReplay.FalseEntryHidesAnEdit | remotes/c_remote_drive/src/sync.rs:319-351 | a concrete false entry makes the shortcut skip a file that hashing uploads, so the hypothesis is needed |
| DriveShortcut.PushLoopRefinesHashing | remotes/c_remote_drive/src/sync.rs:488-519 | the whole push loop with the shortcut equals the loop that hashes every file, even against a stale listing, and keeps entries true |
| DriveShortcut.PullTreeRefinesHashing | remotes/c_remote_drive/src/sync.rs:359-421 | the whole tree pull with the shortcut equals the one that hashes, and keeps entries true |
| DriveShortcut.PullTreeContent | remotes/c_remote_drive/src/sync.rs:359-421 | after a tree pull every listed pullable path has the listed content locally and in the manifest |
| DriveConverge.PulledContent | remotes/c_remote_drive/src/sync.rs:196-300 | after a pull a path has the remote's content if its last row is past the cursor, else what it had (rows apart) |
| DriveConverge.PassedPathUntouched | remotes/c_remote_drive/src/sync.rs:196-300 | however close together the rows are, a pull leaves a path alone whose last row the cursor has passed |
| DriveConverge.PushEffect | remotes/c_remote_drive/src/sync.rs:459-526 | the push uploads exactly the scanned files the listing does not show and records every scanned file |
| DriveConverge.DeleteAllEffect | remotes/c_remote_drive/src/sync.rs:528-543 | propagation tombstones exactly the manifest paths that are absent locally and listed |
| DriveConverge.CycleReconciles | remotes/c_remote_drive/src/sync.rs:171-184 | with changes more than half a millisecond apart a full cycle is a three-way merge for every syncable path; the remote ends equal to the local tree if and only if the path is not live, passed by the cursor, and absent from both the local tree and the manifest |
| DriveConverge.CycleConverges | remotes/c_remote_drive/src/sync.rs:171-184 | with such changes, one undisturbed full cycle leaves every path that is not live, not passed by the cursor or in the manifest with the same hash on both sides or on neither |
| DriveConverge.PulledCursor | remotes/c_remote_drive/src/sync.rs:208-236 | a pull ends with the rounded time of the newest row, or with its own cursor if that is later |
| DriveConverge.ChangeAfterCycle | remotes/c_remote_drive/src/sync.rs:196-300 | a user's later edit or deletion of a path survives the next cycle exactly if the cycle did not upload the path and its row is not the newest one with a time that rounds down; otherwise it is undone |
| DriveConverge.RoundedCursorUndoesAnEdit | remotes/c_remote_drive/src/sync.rs:241-300 | at a row of 1000.4 ms: the pull leaves the cursor at 1000, and the next pull puts the row's content back over any edit |
| DriveRuns.ApplyKeepsCovered | remotes/c_remote_drive/src/sync.rs:241-300 | applying one row of a page moves the covered mark of each path past it, unless a failing stat meets that path's file with the row's content already in place and no record of it |
| DriveRuns.CoveredExactlyIfRecorded | remotes/c_remote_drive/src/sync.rs:263-277 | a pulled live row leaves its path covered if and only if the path was recorded before or no failing stat meets a file that already has the content |
| DriveRuns.RunKeepsInv | remotes/c_remote_drive/src/sync.rs:171-543 | with changes apart: true entries, the page in hand and the coverage of a path are invariant over every interleaving of engine steps, fallbacks, users, other devices, failing requests, stats and unlinks that does not lose track of the path: no such failing stat, and no cursor moved to the newest row that leaves the path out |
| DriveRuns.EveryRunConverges | remotes/c_remote_drive/src/sync.rs:171-184 | with changes apart: from every state any run can reach, the next undisturbed full cycle converges as the three-way rule says, for every path the run did not lose track of |
| DriveRuns.NewestCursorCovers | remotes/c_remote_drive/src/sync.rs:215-236 | a cursor fetched from the server covers a path if and only if the path is not live, is recorded, or has the newest row and that rounds down |
| DriveRuns.LostForGood | remotes/c_remote_drive/src/sync.rs:171-184 | a live file the cursor has passed, with neither copy nor record here, stays on the server and never comes, however many full cycles follow in which nobody touches it |
| DriveRuns.FirstCursorSkipsAFile | remotes/c_remote_drive/src/sync.rs:232-236 | a file uploaded between a new device's empty first page and its cursor request is lost in that way |
| DriveRuns.RowInRoundedMillisecondIsLost | servers/crates/mod_drive/src/store.rs:128-149 | so is a file uploaded before the millisecond is over to which a pulled row's time was rounded up |
| DriveRuns.FailedUnlinkResurrects | remotes/c_remote_drive/src/sync.rs:252-258 | a file whose tombstone was pulled but which could not be unlinked survives unrecorded, and a later full cycle uploads it again |
| DriveRuns.FallbackForgets | remotes/c_remote_drive/src/sync.rs:215-224 | after the 404 fallback a path is covered if and only if it is not live, was already in the manifest the caller loaded before, or has the newest row and that rounds down |
| DriveRuns.DeletionAfterFallbackIsLost | remotes/c_remote_drive/src/sync.rs:215-224 | deleting locally any other file the fallback just pulled is not propagated by any number of full cycles, and the file does not come back |
| DriveRuns.DeletionsAreJustified | remotes/c_remote_drive/src/sync.rs:252-258 | in every run a local file disappears only by its user, a pulled tombstone, or a prune that finds it in the manifest and not in the listing; a remote one only by another device or by the propagation of a recorded, locally absent path |
| DriveRuns.UnrecordedFilesSurvive | remotes/c_remote_drive/src/sync.rs:423-457 | a local file the engine never recorded survives every prune unchanged |
| DriveRuns.CursorNeverDecreases | remotes/c_remote_drive/src/sync.rs:208-210 | no step of any run, the fallback included, moves the saved cursor back, and it is never past the newest row's |
| DriveEngine.SyncEngine.ApplyRemoteChange | remotes/c_remote_drive/src/sync.rs:241-300 | one entry with its failing requests: on success the effect of the row, on failure nothing changed but perhaps the file being written |
| DriveEngine.SyncEngine.ApplyPage | remotes/c_remote_drive/src/sync.rs:205-207 | a page is applied in order up to the first failure |
| DriveEngine.SyncEngine.PullPages | remotes/c_remote_drive/src/sync.rs:196-214 | the page loop ends either with everything delivered applied, or as the aborted pull `ReplayAfterFailure` restarts |
| DriveEngine.SyncEngine.PullListing | remotes/c_remote_drive/src/sync.rs:359-421 | the loop over the listing stops at the first failure and stores the manifest only after the last file |
| DriveEngine.SyncEngine.PruneLocalOrphans | remotes/c_remote_drive/src/sync.rs:423-457 | exactly the visited files that are recorded and not listed are removed, up to a failure |
| DriveEngine.SyncEngine.PullRemoteChanges | remotes/c_remote_drive/src/sync.rs:359-421 | tree pull, then prune, under a cursor that does not move: on success the whole listing is pulled and exactly the orphans are gone, and the saved paths are those of before or of the tree pull, with or without the pruned ones |
| DriveEngine.SyncEngine.PushLocal | remotes/c_remote_drive/src/sync.rs:174-180 | the pending paths are drained and pushed, or every so often all files are scanned; a prefix of the targets is pushed, all on success, and the manifest stored or not |
| DriveEngine.SyncEngine.Propagate | remotes/c_remote_drive/src/sync.rs:181-182 | one listing and the propagation over a prefix of all recorded paths, all on success |
| DriveEngine.SyncEngine.FallBack | remotes/c_remote_drive/src/sync.rs:215-224 | the 404 branch: tree pull, prune, then the manifest of before is saved under the newest cursor; if it is not, the saved paths are those the tree pull or the prune stored, or the old ones |
| DriveEngine.SyncEngine.PullRemoteDelta | remotes/c_remote_drive/src/sync.rs:196-239 | the pull is the whole feed, an aborted pull, or saved pages followed by the fallback |
| DriveEngine.RestoredFallbackForgets | remotes/c_remote_drive/src/sync.rs:215-224 | after the fallback a path is covered if and only if it is not live, was recorded before, or has the newest row and that rounds down |
| DriveEngine.ScanTree | remotes/c_remote_drive/src/sync.rs:466-486 | walking a directory whose files are the local tree gives the scan a full cycle pushes |
| DriveEngine.SyncEngine.Push | remotes/c_remote_drive/src/sync.rs:302-357 | the push loop pushes a prefix of its paths; the manifest is stored only after the whole loop |
| DriveEngine.SyncEngine.PropagateLocalDeletions | remotes/c_remote_drive/src/sync.rs:528-543 | the same for deletions |
| DriveEngine.SyncEngine.PendingPush | remotes/c_remote_drive/src/sync_wake.rs:19-28 | a watcher path joins the pending set in its normal form, the root does not |
| DrivePaths.WatchedPath | remotes/c_remote_drive/src/sync_wake.rs:19-28 | whichever separator the watcher uses, the recorded form names the file it saw |
| DriveEngine.SyncEngine.ShouldFullPushScan | remotes/c_remote_drive/src/sync_wake.rs:34-41 | one cycle in every so many scans |
| DriveEngine.SyncEngine.SyncCycle | remotes/c_remote_drive/src/sync.rs:171-184 | every way a cycle can go: how its pull ended, the fallback included, and from there which targets were pushed, which deletions propagated and which manifest writes went through; a successful one did all of it, and with a scan and both writes it is the full cycle of the convergence theorems; once the pull has succeeded the pending set is emptied, even if its push then fails |
| Frames.Le32RoundTrip | remotes/browser_engine/protocol.ts:68-89 | a 32-bit little-endian length reads back, whatever follows |
| Frames.EncodeThenParse | remotes/browser_engine/protocol.ts:68-89 | encode then parse gives the message and the untouched rest; the encoder refuses exactly the bodies over 16 MiB |
| Frames.CutFrameWaits | remotes/browser_engine/protocol.ts:78-89 | a frame cut anywhere is neither a message nor an error |
| Frames.DrainInPortions | remotes/browser_engine/worker.ts:82-89 | draining in two portions is draining once |
| Frames.Receiver.OnData | remotes/browser_engine/worker.ts:82-89 | one data event delivers and keeps what draining the buffer and the chunk gives |
| Frames.ChunkingIsIrrelevant | remotes/browser_engine/worker.ts:82-89 | where the chunk boundaries fall changes nothing that is delivered |
| Frames.CompleteIsLongest | remotes/browser_engine/worker.ts:82-89 | the count used below is the longest prefix of messages whose frames fit |
| Frames.StreamFraming | remotes/browser_engine/worker.ts:82-89 | for every message list and every split of any prefix of its frames, exactly the complete messages are delivered in order and exactly the unread tail is kept |
| RpcTable.SuccessHasItsOwnReply | remotes/c_remote_browser_core/src/extension_ipc.rs:256-280 | in every run, whatever the ids, a call succeeds only with a reply that carries its id, said ok, came after the call, and went to no other call |
| RpcTable.CompletesOnce | remotes/c_remote_browser_core/src/extension_ipc.rs:256-280 | the outcome of a call and the reply it got never change again |
| RpcTable.RegistrationEndangers | remotes/c_remote_browser_core/src/extension_ipc.rs:151-165 | where no course of events can lose a waiting call's reply, a registration makes such a loss possible if and only if an unfinished call, answered or not, holds its id |
| RpcTable.NoReplyIsLost | remotes/c_remote_browser_core/src/extension_ipc.rs:256-280 | in a whole run no waiting call's reply can be lost if and only if no call registers under an id that an unfinished call holds |
| RpcTable.StrayNeverSucceeds | remotes/c_remote_browser_core/src/extension_ipc.rs:159-165 | a waiting call whose entry is gone never hears a reply again and never succeeds, whatever follows |
| RpcTable.KeysAreTheOpenCalls | remotes/c_remote_browser_core/src/extension_ipc.rs:151-165 | with distinct ids the keys are the ids of the outstanding unanswered calls and of the unanswered calls whose send failed |
| RpcTable.ReplyReachesItsCall | remotes/c_remote_browser_core/src/extension_ipc.rs:159-165 | where no reply can be lost, a reply reaches the waiting call with its id and no other, and the call completes with it |
| RpcTable.OlderTimeoutDropsNewerWaiter | remotes/c_remote_browser_core/src/extension_ipc.rs:269-274 | two calls with one id: the older one's timeout removes the newer one's waiter and a good reply is lost |
| RpcTable.Bridge.RegisterCall | remotes/c_remote_browser_core/src/extension_ipc.rs:151-157 | registering replaces the entry at the id |
| RpcTable.Bridge.Complete | remotes/c_remote_browser_core/src/extension_ipc.rs:159-165 | a reply removes the entry at its id and fills that call's channel, or is ignored |
| RpcTable.Bridge.Settle | remotes/c_remote_browser_core/src/extension_ipc.rs:262-279 | what the waiting side does with a reply, a hang-up or its deadline |
| RpcTable.Hub.Publish | remotes/c_remote_browser_core/src/extension_ipc.rs:213-232 | the command goes to the native host alone, else once to every live channel with room; success if and only if somebody took it |
| ScreenChunks.MakeScreenChunks | remotes/c_remote_linux/src/screen_capture.rs:181-205 | the loop builds the chunks of the picture |
| ScreenChunks.DatagramsFit | remotes/c_remote_linux/src/screen_capture.rs:268-286 | no datagram exceeds 60000 bytes, for every picture |
| ScreenChunks.HeaderIsTrue | remotes/c_remote_linux/src/screen_capture.rs:181-205 | the count in the header is true if and only if there are at most 65535 chunks; then the indices are true too |
| ScreenChunks.ReadChunkInverts | remotes/c_remote_browser_core/src/browser_stream.rs:24-40 | a chunk read back gives its frame, index, count, size, time and payload |
| ScreenChunks.PacketInverts | remotes/c_remote_browser_core/src/browser_stream.rs:14-22 | a single packet gives back its picture and is never taken for a chunk, nor a chunk for a packet |
| ScreenChunks.ReassemblyIsExact | remotes/c_remote_browser_core/src/browser_stream.rs:61-75 | any order and duplication of one frame's chunks gives the frame number, size, time and exact bytes if all are there, and nothing otherwise |
| Teach.Recorder.CommitTyping | remotes/c_remote_core/src/skill_teach.rs:362-403 | committing the buffered burst |
| Teach.Recorder.TeachStart | remotes/c_remote_core/src/skill_teach.rs:114-130 | starting; a blank title is refused |
| Teach.Recorder.TeachStop | remotes/c_remote_core/src/skill_teach.rs:132-147 | stopping commits, hands out the steps and freezes them |
| Teach.Recorder.RecordClickKind | remotes/c_remote_core/src/skill_teach.rs:261-295 | a click of another kind |
| Teach.Recorder.KeyEvent | remotes/c_remote_core/src/skill_teach.rs:297-346 | one key |
| Teach.Recorder.FocusField | remotes/c_remote_core/src/skill_teach.rs:348-360 | a field gets the focus |
| Teach.Recorder.FlushTypingIfIdle | remotes/c_remote_core/src/skill_teach.rs:405-417 | the idle flush |
| Teach.RunKeepsInv | remotes/c_remote_core/src/skill_teach.rs:227-417 | ordinals are 1..n, and outside a recording nothing is buffered and no password flag is set, after every run of events |
| Teach.StoppedIsFrozen | remotes/c_remote_core/src/skill_teach.rs:132-160 | after a stop no event but a start or a discard changes anything |
| Teach.SecretsAreErased | remotes/c_remote_core/src/skill_teach.rs:297-346 | two runs that differ only in the characters keyed while the password flag is set end in the same state: steps, labels, tapes and overlay |
| Teach.ExactlyClearTextIsRecorded | remotes/c_remote_core/src/skill_teach.rs:362-417 | for every run, with password fields or without, the texts in the steps are exactly the characters keyed with the flag clear and committed with the flag clear |
| Teach.BurstText | remotes/c_remote_core/src/skill_teach.rs:297-417 | when a burst ends, whatever ends it, its step holds every character keyed in it and not erased if no password field had the focus at any time in it, and no character otherwise |
| Teach.PauseExposesTheRest | remotes/c_remote_core/src/skill_teach.rs:348-417 | every commit clears the flag: after a pause of half a second in a password field the rest is recorded in clear |
| Teach.RecordedTextIsTypedText | remotes/c_remote_core/src/skill_teach.rs:362-417 | without password fields the committed texts and the buffer are the text an editor would hold, backspace reaching only into the uncommitted burst |
| Teach.BufferBeforePasswordIsDropped | remotes/c_remote_core/src/skill_teach.rs:348-403 | typing still buffered when a password field gets the focus is committed without its text |
| Tape.Play | remotes/c_remote_core/src/skill_tape.rs:6-58 | the replay loop stops at the first failing step |
| Tape.FailureIsFinal | remotes/c_remote_core/src/skill_tape.rs:6-48 | no input follows a failed step |
| Tape.TaughtTapePlays | remotes/c_remote_core/src/skill_tape.rs:116-175 | every tape the recorder can make plays to its end, whatever the shell does |
| Tape.TeachThenReplay | remotes/c_remote_core/src/skill_tape.rs:6-175 | after any recording the tape plays to its end and injects exactly the clicks and texts the events meant, in order (a password burst types the step's caption, an Enter is not replayed) |
| Tape.ReplayTypesTheText | remotes/c_remote_core/src/skill_tape.rs:6-175 | without password fields playing a finished recording succeeds and types exactly the text typed |
| TaskReport.HealRetryOnly | remotes/c_remote_core/src/skill_heal.rs:96-129 | the retry loop: at most three replays, then one report |
| TaskReport.ExactlyOneReport | remotes/c_remote_core/src/skill_dispatch.rs:12-149 | for every outcome of store, catalog, install, replays, heal mode, breaker and exploration the run reports once, last, and ok exactly if the last attempt made succeeded |
| TaskReport.ExploreEndsTruly | remotes/c_remote_core/src/skill_explore.rs:8-111 | exploring makes one attempt and one report |
| TaskReport.HealEndsTruly | remotes/c_remote_core/src/skill_heal.rs:7-94 | healing after a failed replay ends in one true report |
| TaskReport.BreakerTripsExactly | remotes/c_remote_core/src/skill_heal.rs:24-38 | the breaker trips exactly with three patches of which the last is less than 24 hours and a second old |
| TaskReport.RepairForgetsThePatch | remotes/c_remote_core/src/skill_explore.rs:47-73 | a skill saved by a repair has patch count 0 and no time of a last patch, although the repair counted one |
| TaskReport.OwnRepairsNeverTrip | remotes/c_remote_core/src/skill_heal.rs:7-94 | in every series of runs the breaker never trips by the agent's own repairs, only by a skill from elsewhere that already had three patches |
| TaskReport.BrowserTasks.TaskDone | remotes/c_remote_core/src/skill_api.rs:132-157 | a terminal report is handed to the network once and never answers with an error, delivered or not |
| TaskReport.BrowserTasks.HandleAct | remotes/c_remote_browser_core/src/browser_task.rs:11-53 | a prompt that is no JSON becomes one navigation; a failing engine is an error without a report, a result is reported as done |
| TaskReport.BrowserTasks.Handle | remotes/c_remote_browser_core/src/browser_task.rs:55-78 | the registered handler makes exactly one report, true to how the engine's run ended |
| Tabs.CloseEffect | remotes/browser_engine/browser.ts:430-449 | closing removes that tab alone and activates the oldest if it was active; the last tab stays |
| Tabs.StepKeepsInv | remotes/browser_engine/browser.ts:332-350 | every stretch between two awaits keeps the table's invariant |
| Tabs.InterleavedTabs | remotes/browser_engine/browser.ts:403-449 | for every interleaving the active tab is live or none, ids are 1, 2, 3, … across launches, and after a launch until a clear there is a tab and one is active |
| Tabs.EmptyExactly | remotes/browser_engine/browser.ts:332-350 | after each step the table is empty if and only if the step was a clear, or it was empty and the step registered nothing |
| Tabs.ClearDuringLaunchEmptiesTheTable | remotes/browser_engine/browser.ts:729-750 | a run from the start in which a shutdown in the middle of a launch leaves a launched engine without a tab |
| Tabs.DropAfterLaunchRefusesNewTabs | remotes/browser_engine/browser.ts:729-750 | a run in which a shutdown drops the context after a launch: tabs are there and one is active, and every new tab is refused |
| Tabs.NewTabRefusedExactly | remotes/browser_engine/browser.ts:415-416 | a new tab is refused if and only if there is no browser context, whatever the table holds |
| Tabs.BatchTabStaysLive | remotes/browser_engine/steps.ts:21-45 | in a batch run alone the tab its steps chose is live after every step until one throws |
| Tabs.CallersTabMayBeDead | remotes/browser_engine/steps.ts:27-52 | a tab the caller names may be dead, and then the step fails |
| Tabs.ThrowEndsBatch | remotes/browser_engine/steps.ts:27-82 | nothing runs after a step that throws |
| Tabs.BrowserEngine.AdoptPages | remotes/browser_engine/browser.ts:332-350 | an uninterrupted launch registers every page under a fresh id and activates the last |
| Tabs.BrowserEngine.TabActivate | remotes/browser_engine/browser.ts:403-413 | activating a live tab, refusing another |
| Tabs.BrowserEngine.TabNew | remotes/browser_engine/browser.ts:415-428 | a new tab under a fresh id becomes the active one, and stays so even if the screencast then fails its request |
| Tabs.BrowserEngine.TabClose | remotes/browser_engine/browser.ts:430-449 | closing a tab; a screencast that fails afterwards fails the request and not the closing |
| Tabs.BrowserEngine.Shutdown | remotes/browser_engine/browser.ts:729-750 | the table is cleared, the counter is not |
| Tabs.BrowserEngine.RunSteps | remotes/browser_engine/steps.ts:21-84 | the batch loop, step by step |
| Downloads.StepKeepsInv | remotes/browser_engine/browser.ts:451-463 | only the slot's waiter has a timer; every waiter is in the slot, being saved or settled, and only one of these |
| Downloads.WaitersSettleOnce | remotes/browser_engine/browser.ts:451-463 | in every run no waiter settles twice, none is lost, and no timer clears a newer waiter |
| Downloads.ShutdownLeavesNoWaiter | remotes/browser_engine/browser.ts:729-734 | after a shutdown all waiters are settled but those being saved |
| Downloads.Waiters.DownloadWait | remotes/browser_engine/browser.ts:451-463 | a new waiter supersedes the one in the slot |
| Downloads.Waiters.OnDownload | remotes/browser_engine/browser.ts:700-713 | a download takes the slot's waiter and its timer |
| Ota.StagingIsSound | remotes/c_remote_core/src/update.rs:345-383 | for every interleaving, failure and restart in which no prune tears the build: if ready it has every file of a bundle whose hash was the published one, and its backoff mark implies ready; and an apply under way is of a ready build in every run |
| Ota.RestartTears | remotes/c_remote_core/src/update.rs:286-302 | a restart leaves a sound build sound if and only if its prune does not stop with the ready marker outliving a file of the bundle, or the mark outliving the ready marker |
| Ota.ReadyBuildsAreFrozen | remotes/c_remote_core/src/update.rs:318-383 | a ready build stays ready and its files stay as unpacked until a prune; only the renamed copy of the program may be added |
| Ota.LaunchesAreSpaced | remotes/c_remote_core/src/update.rs:252-279 | two automatic launches of one build are 30 minutes apart by the recorded clock, across restarts, if the earlier one's mark was written, the later one checked after it, and no attempt that had not seen it emptied the file meanwhile; unless forced or pruned |
| Ota.EveryLaunchHasItsMark | remotes/c_remote_core/src/update.rs:588-630 | each launch in a run is a new one, with an attempt at a mark for the same build just before |
| Ota.UnwrittenMarkRepeats | remotes/c_remote_core/src/update.rs:269-279 | if the mark cannot be written, the same build is launched again after the restart in the same millisecond, and so on |
| Ota.LaunchedAgainExactly | remotes/c_remote_core/src/update.rs:464-630 | while the clock stands, the process runs, the user does not force the build and no download of it finishes, a build can be launched if and only if an apply of it is past its check and has its program, or the build is ready with its program and not held back by its mark |
| Ota.EmptiedMarkIsNotSeen | remotes/c_remote_core/src/update.rs:269-279 | one task marks and launches, another that had checked before leaves the mark file empty, and a third checks after both and launches at once |
| Ota.OverlappingLaunchesAreNotSpaced | remotes/c_remote_core/src/update.rs:464-480 | if both check first, two tasks mark and launch in the same millisecond, from any state in which a build may be applied |
| Ota.MarkOutlivesRestart | remotes/c_remote_core/src/update.rs:286-302 | a restart keeps a mark if and only if the build is above the starting one or the removal fails to remove the mark |
| Ota.BelowFloorReleaseHasNoBackoff | remotes/c_remote_core/src/update.rs:144-146 | a release not above the running build but required by the floor loses its mark at every start, and from any state the next start can lead to its download and launch without the clock moving |
| Ota.SoundStep | remotes/c_remote_core/src/update.rs:318-383 | each single step that does not tear a build keeps it sound |
| Ota.Staging.ExtractZip | remotes/c_remote_core/src/update.rs:385-409 | the unpacking loop leaves the files of the entries before the first refused or failed one, later entries winning |
| Ota.Staging.Stage | remotes/c_remote_core/src/update.rs:375-382 | save, unpack, drop the archive, mark ready |
| Ota.Staging.DownloadOnce | remotes/c_remote_core/src/update.rs:345-383 | one attempt: success means size and hash were right and the files are the bundle's; otherwise the build is not ready |
| Ota.Staging.Download | remotes/c_remote_core/src/update.rs:318-343 | three attempts; a build already ready is taken whatever the release's hash, otherwise success means one received body had the published hash |
| Ota.Staging.StagedVersion | remotes/c_remote_core/src/update.rs:411-430 | the greatest ready build above the running one |
| Ota.Staging.Prune | remotes/c_remote_core/src/update.rs:286-302 | the builds not above the running one go, but for what failing removals leave |
| Ota.Staging.AutoApply | remotes/c_remote_core/src/update.rs:464-630 | an apply launches if and only if applies are on, no recent mark stands and the program is staged; the mark it tries to write before may be missing or empty |
| CopyText.ParseTsv | _/scripts/migrate/import_from_backup.py:63-103 | the character loop computes the recursive reading of the line |
| CopyText.ParseEncodedRow | _/scripts/migrate/migrate_csa_passwords.py:48-88 | parsing any encoded row gives every field as the parser sees it, and one extra empty field exactly if the last column is NULL |
| CopyText.RoundTripExactly | _/scripts/migrate/import_from_backup.py:63-103 | the row comes back if and only if no field has a backspace, form feed or vertical tab or is the two characters backslash and N |
| CopyBytea.DecodeBytea | _/scripts/migrate/import_from_backup.py:106-140 | the decoding loop computes the recursive reading, with Python's reading of three characters as an octal number |
| CopyBytea.DecodeBackslash | _/scripts/migrate/import_from_backup.py:122-136 | the branch for a backslash |
| CopyBytea.TakeHex | _/scripts/migrate/import_from_backup.py:122-127 | the inner loop takes the longest run of hex digits |
| CopyBytea.DecodeInverts | _/scripts/migrate/import_from_backup.py:106-140 | hex and escape form both decode to the original non-empty bytes; the empty value survives only in hex form |
| CopyBytea.ByteaSurvivesTheDump | _/scripts/migrate/import_from_backup.py:63-140 | a bytea value in any column of a dumped row is what parsing and decoding give back |
| Snowflake.OrIsBitwise | _/scripts/migrate/migrate_csa_passwords.py:28-33 | the bitwise-or operator used below is bitwise or on unbounded two's complement integers |
| Snowflake.IdFields | _/scripts/migrate/migrate_csa_google.py:32-41 | worker 1023 leaves the time alone; workers 1024 and 1025 set its lowest bit and store 0 and 1 as worker |
| Snowflake.SameIdSameSlot | _/scripts/migrate/migrate_csa_google.py:32-41 | ids are equal if and only if sequence and time agree, the time halved for workers 1024 and 1025 |
| Snowflake.ScriptsNeverCollide | _/scripts/migrate/backfill_identity_contact_meta.py:19-28 | ids of two different scripts are never equal |
| Snowflake.DistinctExactly | _/scripts/migrate/migrate_csa_passwords.py:28-33 | with a clock that does not go back the ids of a run are distinct if and only if every 4096 draws move the kept time on |
| Snowflake.DistinctAtFullRate | _/scripts/migrate/backfill_identity_contact_meta.py:19-28 | so 4096 draws per millisecond (worker 1023) or per two milliseconds (1024, 1025) are safe |
| Snowflake.OneMillisecondIsNotEnough | _/scripts/migrate/migrate_csa_google.py:32-41 | with workers 1024 and 1025 the same sequence one millisecond after an even time gives the same id |
| Snowflake.Generator.Draw | _/scripts/migrate/migrate_csa_passwords.py:28-33 | drawing advances the sequence and answers the run's next id |

## Left out

- DriveRestart.ReplayAfterFailure: speaks of files and manifest hashes; the recorded stamps may differ, since the disk hands out new ones.
- DriveRuns.EveryRunConverges: is for paths that are both pulled and pushed and that the run did not lose track of; what becomes of the others is in `LostForGood`, `FirstCursorSkipsAFile`, `FallbackForgets` and `CycleReconciles`.
- DriveEngine.SyncEngine.SyncCycle: leaves out the count of changes, which only sets the sleep.
- DriveEngine.SyncEngine.PruneLocalOrphans: goes over the files the walk finds; the walk with its stack is `DriveWalk.WalkFiles`, and so for the push.
- DriveEngine.SyncEngine.PullPages: asks an unchanged server, which answers a bounded number of requests; a server that changes between pages is modelled in `DriveRuns`.
- DriveEngine.ScanTree: ties the walk to the scan for a directory that mirrors the local tree; the cycle's methods enumerate the local map itself.
- Tape.TeachThenReplay: takes the clicks and texts in the events' own terms; the Enter flag is left out and a password burst counts as its caption, as in the code.
- Ota.LaunchesAreSpaced: measures by the clock read for the mark just before each launch, with a clock that does not go back and is past 1970.
- Snowflake.DistinctExactly: is about one run of a script; a script run again restarts its sequence.
- Interference inside one entry of the sync, between its read, hash, write and stat.
- Name clashes between files and directories, symbolic links, and several server rows in one microsecond.
- Server quotas, locks and refused empty uploads: requests that fail.
- The sync loop's sleep intervals, the updater's poll intervals, the idle counters and notifications.
- Push, watcher and manifest file formats, legacy manifest migration.
- The Android installer and the install script itself.
- Absolute names in update archives.
- `read_framed_json` under read timeouts, where bytes already read are lost.
- The meaning of the worker's messages; page operations, favicons, screencast and captcha.
- The choice between packet and chunks from the encoder's quality and size steps beyond the size limit itself.
- Skill matching, catalog submission, titles and the exploration's shell command: their outcomes are inputs.
- Finding the tables in a dump file, COPY's backspace, form feed and vertical tab escapes beyond the round trip's exact condition, non-ASCII text.
- Wrap-around of 32-bit counters (ordinals, cycles, frame numbers) after four thousand million steps.
- HTTP, WebSocket, database, Win32 and file system calls: steps with any allowed result.
