# Verification of the transfer server

A Dafny model of the protocols at the core of the file-transfer server, with machine-checked proofs of what they
promise. `dafny verify dfyconfig.toml` checks everything.

## What is modelled

**Resumable uploads** (`Grid`, `UploadRows`, `ChunkFiles`, `ChunkStorage`, `UploadRepository`, `Publication`,
`PublicationSafety`, `UploadService`, `Leftovers`, `Expiry`). `UploadRows` gives every transaction on an upload's row
as a function. `UploadRepository` and `ChunkStorage` are classes that do the same in place, with the same loops.
`Publication` is one upload as a state machine over its row, its files and its requests in flight; every transaction,
rename, unlink and link is one step, a crash is a step, and outside damage to the storage is a step.
`PublicationSafety` proves that every step keeps the invariant. `UploadService` is a class over the repository and the
storage whose methods follow the service's methods; each returns the list of durable states it passed through (its
trail), each one step after the last, so that a crash inside it is a beginning of that list. Two kinds of statement
follow: safety over every trail, and the exact outcome of a call that nothing interrupts. `Leftovers` says which files
failed publications leave behind, and `Expiry` when an upload may expire.

**The whole server** (`World`, `Capacity`). All uploads with the message, file and reservation tables, under the
per-key serialization of the endpoints: request ids are never shared, finalization never violates a unique
constraint, and the capacity ledger bounds what is lost of the reserve.

**Events** (`EventLog`, `Delivery`, `EventStream`, `ClientCursor`, `EndToEnd`). The trimmed log; the connection with
its replay, its 200-entry buffer and its backfill, as a class and as functions; the state machine of one connection
among commits, trims and broadcasts that come late, out of order, twice or never; the browser's queue, socket
generations and cursor; and both ends joined by the frames on their way.

**Smaller protocols** (`Purge`, `LockPool`, `Pagination`, `Limiter`, `AuditTail`).

Abstractions used throughout: one transaction, and one section holding a lock, is one atomic step. SHA-256 is an
arbitrary fixed function; it is assumed to be free of collisions only where equality of contents is concluded, and then
the assumption stands in the lemma (`CollisionFree`). Freshly generated identifiers are new. Clock readings and the
results of file operations are parameters. The assumption flags of an upload's history (`damaged`, `foreign`,
`faulted`, `crowded`) record what the code cannot see, and each conclusion names the flags it needs.

## Findings

Where the code does not do what one might expect, the model follows the code, and a lemma says exactly when the
property holds.

- Free space can fall below the reserve (`app/upload_service.py:310-339`, `app/upload_service.py:186-201`): a cancelled
  upload leaves the ledger at once while its requests in flight go on writing. The loss is bounded by an overdraft that
  starts at zero with every admission, grows by what is written for cancelled uploads and shrinks by what is swept; it
  never exceeds what cancelled uploads have on disk (`Capacity.ReserveIsKept`). `Capacity.OverdraftExactly` says which
  steps add to it, and `Capacity.CancelledWorkOverdraws` is a run that loses reserve. The capacity check of `complete`
  loses as much: `Capacity.CompletionFits` carries the same term, and `Capacity.CancelledWorkBlocksCompletion` is a run
  on which it refuses an admitted, fully confirmed upload. While no cancelled upload has
  anything on disk, neither can happen (`Capacity.SweptServerCompletes`).
- `next_before` can be refused by the endpoint that returned it (`app/upload_repository.py:443`, `app/main.py:73-81`,
  `app/main.py:658`): messages of completed resumable uploads have 32-digit ids, the endpoint accepts 45-digit cursors
  only. On an unchanged table a client that follows the cursors gets all messages if and only if no upload's message is
  the last of a full page that is not the last page (`Pagination.ClientReachesAllMessages`); on a table that changes, a
  walk is served if and only if no page before the last ends at an upload's message
  (`Pagination.EndpointServesTheWalk`). `Pagination.UploadCursorIsRefused` is an instance. Deleting and restoring such a
  message are refused for the same reason (`app/main.py:675`, `app/main.py:692`).
- After a publication that failed on input or output, a stale `final.uploading` makes the next `complete` fail
  (`app/chunk_storage.py:227-273`, `UploadService.FullUploadCompletes`, an equivalence; `Leftovers.StaleCopyIsReachable`
  is an undamaged run that gets there). That attempt removes the file and leaves the parts and the row for the one
  after, which completes (`UploadService.StaleFileCostsOneAttempt`).
- A final file can outlive a cancelled or expired upload (`app/upload_service.py:121-142`,
  `app/upload_repository.py:496-504`). It can still be removed if and only if the publication is assembled or
  file_published (`Leftovers.EndedFinalGoesExactly`); otherwise no request, recovery or expiry ever does. Without
  damage that takes a failed publication first (`Leftovers.NoneKeptWithoutFault`), and then a cancellation while the
  upload is assembled again, or a cancellation or expiry after the recovery has reset that assembly
  (`Leftovers.CancelledAssemblyLeavesItsFinal`, `Leftovers.CancelledAfterResetLeavesItsFinal`,
  `Leftovers.ExpiredAfterResetLeavesItsFinal` are the runs).
- A live connection whose buffer is full can lose the very event it waits for (`app/events.py:274-277`): behind a gap
  of 200 buffered events the missing one is itself the oldest when it arrives, and is dropped. A connection that can
  fetch gets it back from the log at once, if the log still has it. The broadcast of the next event sends it if and
  only if the buffer has room, or the connection fetches and the log reaches back to its cursor
  (`EventStream.NextEventIsSent`).
- The branch of `complete` for an integrity error without a part index cannot be reached
  (`app/upload_service.py:409-417`, `PublicationSafety.StartedPlanIsStructured`, `ChunkFiles.StructureCannotFail`).
- `read_audit_events` returns the last `limit` lines for every limit from 1; with limit 0 it returns lines of any
  non-empty file (`app/main.py:541-546`, `AuditTail.ReadLastLines`). The application only uses 200.

## Model

| member | source | states |
|---|---|---|
| Grid.GridTheorem | app/upload_repository.py:359-369 | for confirmed parts: contiguity scan succeeds, confirmed bytes equal the size, and the indexes are exactly 0 to ceil(size/chunk)-1, are equivalent |
| Grid.ServerAcceptsExactlyTheSlot | app/upload_service.py:59-78 | Content-Range (section 14.4 of RFC 9110): a written header is accepted if and only if it names the size and the slot of its index, and then that slot is returned |
| Grid.AcceptedRangeIsTheSlot | app/upload_service.py:59-78 | any accepted header, in any spelling, is the slot of its index |
| Grid.AcceptedExactly | app/upload_service.py:59-78 | a header of any spelling is accepted if and only if it spells the size and the bounds of the slot of its index, and then that slot is returned |
| Grid.HeaderGrammar | app/upload_service.py:26-78 | the pattern match is the grammar: the word bytes, a space, and three numbers in decimal digits, leading zeros allowed |
| Grid.HeaderRoundTrip | web/js/api.js:269 | the header the browser writes is read back with the same three numbers |
| Grid.ClientSliceIsAccepted | web/js/upload-coordinator.js:738-740 | the slice the browser cuts for each index of its own part count is the slot the server accepts |
| Grid.ClientSliceNamesSlot | web/js/api.js:269 | the header of that slice names the slot |
| Grid.ClientAndServerBytesAgree | web/js/upload-coordinator.js:282-285 | the client's sum over confirmed indexes equals the server's confirmed bytes |
| Grid.NextMissingPart | web/js/upload-coordinator.js:686-692 | the smallest index not confirmed, or none exactly when the upload is full |
| UploadRows.LeasedExactlyWhileOpen | app/upload_repository.py:235-257 | begin_part on a slot: lease, replay, conflict and state conflict, each exactly when |
| UploadRows.ConfirmKeeps | app/upload_repository.py:259-304 | confirming a slot keeps the row valid, adds exactly its bytes and renews the expiry, changes no confirmed part, moves queued to uploading and leaves paused paused |
| UploadRows.ConfirmedExactly | app/upload_repository.py:259-304 | a grid slot is confirmed exactly for the identical row, or for a new one while queued, uploading or paused; else conflict or state conflict, each exactly when |
| UploadRows.BeginCompletionKeeps | app/upload_repository.py:352-380 | completion starts if and only if the upload is uploading with all bytes confirmed |
| UploadRows.ControlKeeps | app/upload_repository.py:306-350 | pause, resume, cancel, expire_one, reset_assembling and finish_published keep the row valid and leave no terminal status; on such rows finish_published only clears the error of a complete one |
| UploadRows.PublicationKeeps | app/upload_repository.py:382-400 | set_publication_state succeeds exactly for the state and digest already there, or for the next state in verifying; it records the digest; the row stays lawful exactly when a digest is known from assembled on |
| UploadRows.FinalizeKeeps | app/upload_repository.py:420-475 | a row completes only from verifying and file_published with the recorded size and digest |
| UploadRows.RemovalKeeps | app/upload_repository.py:516-604 | reconcile_missing_parts and invalidate_part: exactly which parts go, sums recomputed, publication reset, terminal rows otherwise untouched; the row stays valid |
| UploadRows.FailKeeps | app/upload_repository.py:670-724 | fail is refused exactly for terminal rows; with reset the publication is gone, without it the publication stays beside failed, which is lawful exactly unless it is assembling |
| ChunkFiles.ConcatByte | app/chunk_storage.py:227-270 | byte b of the assembled file is byte (b mod chunk) of part (b div chunk) |
| ChunkFiles.ConcatOfSlices | app/chunk_storage.py:227-270 | parts that are slices of one file concatenate to it |
| ChunkFiles.StructureCannotFail | app/chunk_storage.py:199-226 | a part list that passed begin_completion passes every structural check of assemble |
| ChunkStorage.ChunkStorage.WritePart | app/chunk_storage.py:97-188 | the outcome depends only on the joined body, not on chunks or buffers; an existing part is never overwritten |
| ChunkStorage.ChunkStorage.ReadAll | app/chunk_storage.py:302-308 | buffered reading returns the whole file |
| ChunkStorage.ChunkStorage.CheckStructure | app/chunk_storage.py:199-226 | passes exactly the contiguous part lists that cover the file |
| ChunkStorage.ChunkStorage.Assemble | app/chunk_storage.py:190-286 | the verified concatenation in final.uploading, or which of the three failures and what is left |
| ChunkStorage.ChunkStorage.PendingFromSession | app/chunk_storage.py:288-326 | accepts a copy exactly with the recorded size and digest |
| UploadTables.UploadRepository.CreateOrGet | app/upload_repository.py:116-178 | a known request id is answered or refused without effect; a new one is inserted exactly when admission allows, column by column, expiring after the time-to-live |
| UploadTables.UploadRepository.SumSessions | app/upload_repository.py:138-153 | the active count and the committed bytes of the admission query |
| UploadTables.UploadRepository.FindSession | app/upload_repository.py:121-124 | the session of a request id, or that there is none |
| UploadTables.UploadRepository.ConfirmRow | app/upload_repository.py:259-304 | in place: an identical replay writes nothing, a new part adds its row, the recomputed sum and the status; refused cases write nothing |
| UploadTables.UploadRepository.ScanParts | app/upload_repository.py:359-369 | the cursor loop succeeds if and only if the parts tile the file |
| UploadTables.UploadRepository.BeginCompletionRow | app/upload_repository.py:352-380 | in place: verifying and assembling exactly for an uploading session whose parts tile the file |
| UploadTables.UploadRepository.RemoveParts | app/upload_repository.py:533-546 | parts deleted; the row of a live upload fails with recomputed bytes, a terminal one keeps its columns |
| UploadTables.UploadRepository.FinalizeRow | app/upload_repository.py:420-475 | both inserts and the row commit together, or nothing changes |
| Publication.InitialInv | app/upload_repository.py:161-171 | a created upload satisfies the invariant |
| PublicationSafety.StepKeeps | app/upload_service.py:206-600 | every step of every request, recovery, crash and damage keeps the invariant; metadata and terminal statuses stay |
| PublicationSafety.TrailKeeps | app/upload_service.py:347-600 | so does every execution, in every state at which a crash may stop it |
| PublicationSafety.TerminalForever | app/upload_repository.py:329-350 | complete, cancelled and expired are absorbing; a message id exists exactly with complete |
| PublicationSafety.CompletionIsExact | app/upload_repository.py:420-475 | at the completing step the final file has the recorded size and digest, and is the client's file |
| PublicationSafety.PartsAreNeverRewritten | app/upload_repository.py:239-247 | no step rewrites a confirmed part row or a part file |
| PublicationSafety.ReplayChangesNothing | app/upload_repository.py:239-247 | the same part again is answered without effect, a different one is refused |
| PublicationSafety.StartedPlanIsStructured | app/upload_service.py:407-417 | a started assembly always passes the structural checks |
| UploadService.ScreenedIsLease | app/upload_service.py:217-235 | a put that passes is a new slot of the grid from the source device, or a replay of a confirmed one |
| UploadService.ScreenedExactly | app/upload_service.py:217-237 | each answer of the checks exactly when, in columns: digest text, device, slot named by the header, confirmed rows, and status queued or uploading |
| UploadService.MissingPartIsLetThrough | app/upload_service.py:217-237 | the client's header for any part that is not confirmed is let through on every queued or uploading upload |
| UploadService.MissingPartIsAccepted | app/upload_service.py:206-289 | on undamaged storage the client's slice of any unconfirmed part is stored and confirmed, whatever broken-off requests left behind |
| UploadService.UploadService.CreateUpload | app/upload_service.py:162-204 | replay or conflict before all limits; else the first limit that refuses, in the source's order, decides the error, and without one the upload is created, and can expire exactly from now + ttl on |
| UploadService.UploadService.ControlUpload | app/upload_service.py:291-308 | pause and resume succeed exactly for the source device in the two statuses each; another device is a conflict, another status a state conflict |
| UploadService.UploadService.BeginPut | app/upload_service.py:217-237 | the first locked section: replay, refusal, or one more writer, each exactly when, in the columns of the row |
| UploadService.UploadService.StorePart | app/upload_service.py:239-241 | the part is stored exactly when the body matches and no other content is there |
| UploadService.UploadService.ConfirmPut | app/upload_service.py:243-268 | the stored part is confirmed, or dropped when the upload was cancelled or expired |
| UploadService.UploadService.FinishPut | app/upload_service.py:271-289 | the last writer out of a cancelled upload sweeps its directory |
| UploadService.UploadService.PutPart | app/upload_service.py:206-289 | one uninterrupted put, in the columns of the row: each refusal exactly when and without effect; a confirmed part replayed; else accepted exactly when the body matches, and then stored and confirmed and nothing else changed |
| UploadService.UploadService.CancelLocked | app/upload_service.py:310-339 | succeeds exactly unless complete or expired; the row and the files in every case: the unpublished final file goes, the directory unless a writer is in flight, and what cannot be removed stays |
| UploadService.UploadService.SecureFinal | app/upload_service.py:507-512 | a verified copy ends at the final path exactly when one exists and can be read and moved |
| UploadService.UploadService.PublishAssembled | app/upload_service.py:507-520 | the assembled branch: file_published with the verified copy at the final path; without such a copy nothing changes, and a row that is not verifying stays as it is beside it |
| UploadService.UploadService.FinishPublication | app/upload_service.py:521-528 | the file_published branch: completes exactly with a verified final file and free unique keys |
| UploadService.UploadService.DrivePublication | app/upload_service.py:507-528 | both branches in sequence, as one exact case distinction over row and files for each refusal and for success |
| UploadService.UploadService.ContinuePublication | app/upload_service.py:491-529 | assembling is discarded and restarted; otherwise the publication is driven on |
| UploadService.UploadService.RecoverLocked | app/upload_service.py:531-600 | nothing with requests in flight; else missing parts reconciled, leftovers cleaned, assembling restarted, and a publication completed, reset, kept as failed or refused, each exactly when, with row and files |
| UploadService.UploadService.ExpireLocked | app/upload_service.py:663-694 | nothing unless due, active and quiet; then an upload that is not verifying expires and loses its files, and a verifying one is recovered first and may complete instead |
| UploadService.UploadService.AssembleParts | app/upload_service.py:105-119 | assembly outside the lock: verified copy, named bad part, or refusal of a stale file |
| UploadService.UploadService.InvalidateBroken | app/upload_service.py:409-434 | the bad part's file and row are removed |
| UploadService.UploadService.FinishComplete | app/upload_service.py:435-481 | the last locked section: publishes, unless the upload is no longer assembling |
| UploadService.UploadService.BeginComplete | app/upload_service.py:360-402 | the first locked section of complete in all its branches |
| UploadService.UploadService.CompleteUpload | app/upload_service.py:347-481 | one uninterrupted complete in all its outcomes: each refusal with the row, the files and the bad part as it leaves them; it succeeds if and only if the upload is completable, and then is complete with a verified file |
| UploadService.RetryCompletes | app/upload_service.py:368-402 | from every reachable verifying state on undamaged storage a retried complete completes |
| UploadService.FullUploadCompletes | app/upload_service.py:347-481 | a fully confirmed upload completes if and only if no final.uploading is left |
| UploadService.StaleFileCostsOneAttempt | app/chunk_storage.py:227-273 | with a stale final.uploading the first complete fails, removes it and leaves the parts and an assembling row; the second one completes |
| UploadService.RecoveryCompletes | app/upload_service.py:531-600 | after recovery no upload is verifying: assembling restarts, anything later completes |
| UploadService.RecoveryFindsMissingParts | app/upload_repository.py:516-558 | while no verified copy is recorded, recovery keeps exactly the part rows whose files exist; a live upload fails if and only if one was missing |
| Expiry.RenewsExactly | app/upload_repository.py:259-400 | which steps of an upload set its expiry to their time plus the time-to-live; no other step changes it |
| Expiry.ExpirableExactly | app/upload_service.py:663-694 | over every timed run: an upload can be expired if and only if it is active, has no request in flight, and a time-to-live has passed since the last renewing step, or since its creation |
| Expiry.NotBeforeTheTimeToLive | app/upload_service.py:663-694 | with clocks that do not go back, never before the end of the time-to-live of any renewing step |
| Expiry.NotBeforeTheFirstTimeToLive | app/upload_repository.py:161-171 | nor before the end of the time-to-live of its creation |
| Leftovers.EndedFinalGoesExactly | app/upload_service.py:121-142 | the final file of a cancelled or expired upload can still go, damage aside, if and only if its publication is assembled or file_published; otherwise it stays over every continuation |
| Leftovers.NoneKeptWithoutFault | app/upload_service.py:121-142 | no such file stays for good unless storage was damaged or a publication failed on input or output |
| Leftovers.CancelledAssemblyLeavesItsFinal | app/upload_service.py:310-339 | an undamaged run that ends with a final file nobody removes, cancelled in assembling |
| Leftovers.CancelledAfterResetLeavesItsFinal | app/upload_repository.py:477-514 | the same for an upload cancelled after reset_assembling |
| Leftovers.ExpiredAfterResetLeavesItsFinal | app/upload_service.py:663-694 | the same for one that expired |
| Leftovers.StaleCopyIsReachable | app/upload_service.py:570-600 | an undamaged run to a fully confirmed upload whose next complete request is refused because of a stale final.uploading |
| World.FinalizationIsNeverRefused | app/upload_repository.py:444-454 | request-id exclusivity: the inserts of finalize_publication never violate uniqueness |
| World.MessageMeansComplete | app/upload_repository.py:444-456 | a message with an upload's request id is its own, and the upload is complete |
| World.OnlyFinalizationCompletes | app/upload_repository.py:420-475 | no other step completes an upload |
| World.WorldStepKeeps | app/repository.py:213-258 | create, text messages, whole-file uploads, reservations and upload steps keep the tables consistent |
| World.RunIsSafe | app/upload_service.py:347-600 | over every run: complete exactly with one message and one files row, which has the client's size and digest; cancelled and expired never get one |
| World.EveryCompletionIsExact | app/upload_repository.py:420-475 | at every finalization of every run the message and the files row are new, and the final file has the recorded size and digest and is the client's file |
| World.TextIsServed | app/repository.py:213-258 | a text message is taken whenever its request id belongs to no upload, with a repetition answered by the one that is there |
| World.WholeFileIsServed | app/repository.py:530-728 | a whole file under a free request id is reserved, published with its message and released |
| World.LeftReservationEnds | app/repository.py:564-620 | a reservation nobody works on is published with its message unless that exists, or dropped, and nothing else changes |
| Capacity.CommitmentCovers | app/upload_repository.py:138-158 | an active upload's commitment plus its bytes on disk is at least twice its size |
| Capacity.CommitmentExactly | app/upload_repository.py:138-153 | for an upload at rest on undamaged storage, what admission counts beside its bytes on disk is exactly what it may still use: twice its size, or with a verified copy nothing more |
| Capacity.AdmissionExactly | app/upload_repository.py:126-160 | on a quiet undamaged server a new request is admitted if and only if its id and a slot are free and twice its size fits beside what the uploads may use and the reserve; each refusal exactly when |
| Capacity.ActiveFits | app/upload_repository.py:138-158 | an active upload never uses more than twice its size |
| Capacity.OverdraftExactly | app/upload_service.py:310-339 | an ended upload grows if and only if it was cancelled and a request in flight writes |
| Capacity.ReserveIsKept | app/upload_service.py:186-201 | over every clean run free space stays at the reserve less the overdraft: what ended uploads have grown by since the last admission, less what was swept, and no more than cancelled uploads have on disk |
| Capacity.CompletionFits | app/upload_service.py:388-394 | the capacity check of complete has room for the whole file of an admitted upload, less the overdraft |
| Capacity.AdmittedUploadCompletes | app/upload_service.py:347-481 | without overdraft an admitted, fully confirmed upload completes on its first complete |
| Capacity.SweptServerCompletes | app/upload_service.py:347-481 | so it does, with the reserve free, whenever no cancelled upload has anything on disk, whatever was written before |
| Capacity.ActiveUploadsAreBounded | app/upload_repository.py:138-144 | never more active uploads than configured |
| Capacity.CancelledWorkOverdraws | app/upload_service.py:310-339 | a clean run on which free space falls below the reserve |
| Capacity.CancelledWorkBlocksCompletion | app/upload_service.py:388-394 | a clean run on which complete is refused for an admitted, fully confirmed upload because one byte was written for a cancelled one |
| EventLog.EventStore.Append | app/event_store.py:14-35 | the next number; the table is the history's newest rows, one more up to the retention |
| EventLog.EventStore.Trim | app/event_store.py:37-47 | exactly the rows beyond the newest `retention` are deleted |
| EventLog.EventStore.EventWindowAfter | app/repository.py:155-179 | the bounds and the next events of the history |
| Delivery.EventConnection.SendReplay | app/events.py:259-266 | an event beyond the cursor is sent and leaves the buffer, any other is ignored: Replayed, which ReplayKeeps shows gap-free |
| Delivery.EventConnection.QueueLive | app/events.py:268-284 | an event beyond the cursor is buffered, the oldest beyond 200 are dropped and during replay remembered, and a live connection backfills: QueuedLive, whose effect LiveEventsAreAnswered states |
| Delivery.EventConnection.FinishReplay | app/events.py:286-307 | the replay ends in one resync after an overflow, else in the buffered run, and then in a ready frame: FinishedReplay, whose frames FinishFrames states |
| Delivery.EventConnection.RequireResync | app/events.py:315-331 | the cursor jumps to the target and only later events stay buffered: Resynced |
| Delivery.EventConnection.BackfillAndFlush | app/events.py:333-353 | asked only when the next event is missing: a resync when the log was trimmed past the cursor, else the fetched events join the buffer, then the run is sent: Backfilled, whose effect BackfillDrains states |
| Delivery.EventConnection.FlushPending | app/events.py:355-359 | the loop sends the consecutive run: Flushed, characterised by FlushLeaves |
| Delivery.EventConnection.DropOldest | app/events.py:274-277 | the oldest entries are dropped down to the limit |
| Delivery.NothingSkipped | app/events.py:243-359 | gap-free frames leave no event up to their end unsent, unknown and not covered by a resync |
| Delivery.NeverTwice | app/events.py:259-266 | gap-free frames send no event twice between cursor resets |
| EventStream.FlushLeaves | app/events.py:355-359 | flushing takes exactly the consecutive run and stops at a missing event |
| EventStream.BackfillDrains | app/events.py:333-353 | a backfill ends at the log's head with nothing pending, or advances by a page |
| EventStream.LiveEventsAreAnswered | app/events.py:268-359 | over every run, what a broadcast beyond the cursor makes a live connection send: the next event with the run behind it, or for a gap the log up to its head or by a page, or a resync exactly when the log no longer reaches back; nothing that could be sent next stays |
| EventStream.NextEventIsSent | app/events.py:268-359 | the broadcast of the next event sends it if and only if the buffer has room, or the connection can fetch it from the log |
| EventStream.TurnKeeps | app/main.py:1344-1358 | a replay turn has a page or demands a resync; the loop never falls through with events left out |
| EventStream.FinishKeeps | app/events.py:286-307 | taking the maximum skips nothing; after an overflow one resync covers everything buffered or dropped |
| EventStream.ReplayFrames | app/main.py:1344-1361 | a turn of the replay sends nothing, or a resync exactly when the log no longer reaches back to the cursor; within a page exactly the next event of the history is sent |
| EventStream.FinishFrames | app/events.py:286-307 | without an overflow the end of the replay sends exactly the run that waited and no resync; with one, a single resync at the furthest event seen |
| EventStream.HeardDuringReplay | app/events.py:268-307 | over every run an event broadcast while the log is replayed is sent, waits, or is covered by the resync to come, until the connection is live |
| EventStream.ReplayAdvances | app/main.py:1335-1361 | over every run the replay can always go on and comes nearer to its end with each of its steps, at most two for every event and two more |
| EventStream.ReplayIsNotDelayed | app/main.py:1335-1361 | commits, trims and broadcasts do not put that end off |
| EventStream.StreamStepKeeps | app/main.py:1335-1368 | every interleaved step keeps the connection's invariant |
| EventStream.DeliveryIsGapFree | app/events.py:243-359 | gap-free delivery over all interleavings of commits, trims, replay pages and broadcasts, with a bounded buffer |
| EventStream.ReplayLog | app/main.py:1335-1362 | the replay loop sends every event after the client's cursor and nothing else, or one resync when the log does not reach back or the cursor lies beyond it, then a ready frame at the log's head |
| ClientCursor.EventSubscription.Open | web/js/api.js:39-45 | a new socket becomes the current one |
| ClientCursor.EventSubscription.StartNext | web/js/api.js:52-56 | messages of stale or failed sockets are skipped |
| ClientCursor.EventSubscription.Settle | web/js/api.js:56-74 | the cursor moves only for an applied message of the current socket; a failure marks the socket |
| ClientCursor.EventSubscription.OnClose | web/js/api.js:75-91 | only the current socket's first close schedules a reconnect, and never after an expired session |
| ClientCursor.SystemStepKeeps | web/js/api.js:30-100 | every client step keeps the coverage of the cursor |
| ClientCursor.NoEventIsSkipped | web/js/api.js:30-100 | at least once: the cursor passes an event only after it was applied or a snapshot at or beyond it was reconciled |
| ClientCursor.CaughtUp | web/js/api.js:53-74 | with an empty queue the cursor is where the server's frames end |
| EndToEnd.ArriveKeeps | app/main.py:1335-1368 | the frames that reach the page are gap-free because the server's end sends them so; server and page together keep their invariant |
| EndToEnd.EveryEventReachesThePage | web/js/api.js:30-100 | at least once from the log to the page, over every interleaving of commits, trims, broadcasts, replays, arrivals, failed handlers and new sockets |
| EndToEnd.DrainedPageHasEverything | web/js/api.js:30-100 | with the connection at the log's head and its frames handled, the page has every committed event |
| Purge.PurgeStepKeeps | app/repository.py:260-471 | every transaction, unlink and disappearance keeps the purge invariant |
| Purge.LiveMessagesKeepTheirFile | app/repository.py:284-471 | an undeleted message has its file; a pending unlink means claimed or purged; at most one file.purged event |
| Purge.LostTokensStayLost | app/repository.py:408-471 | fencing: one takeover winner, old tokens neither finalize nor release |
| Purge.PurgedForever | app/repository.py:431-451 | purged is terminal |
| Purge.UndoWindow | app/repository.py:284-332 | over every run with a clock: a deleted file is active, on disk and restorable before deletion + undo, and not restorable from then on |
| Purge.DeletedOnce | app/repository.py:260-315 | deleting again does not move the window, only a restore ends it |
| Purge.TakenOverExactly | app/repository.py:408-429 | a claim passes on exactly when it is the named one and older than the lease |
| Purge.FinalizedExactly | app/repository.py:431-451 | a claim that still holds its token is purged with its one event, and the file is gone; any other finalization does nothing |
| Purge.ReleasedExactly | app/repository.py:453-471 | a claim that still holds its token is given back with the file on disk and nobody at work on it; any other release does nothing |
| Purge.FreshClaimIsKept | app/repository.py:365-429 | over every run with a clock no claim within its lease is taken over |
| Purge.PassIsARun | app/repository.py:334-363 | what a pass makes of a due file is a run of the protocol's steps: purged, or as it was |
| Purge.RecoveryIsARun | app/repository.py:365-406 | what a recovery makes of a stale claim is one too: purged, or renewed |
| Purge.PurgeRepository.RestoreRow | app/repository.py:284-315 | refused exactly for a message deleted at or before now - undo, or whose file is claimed or purged; else the deletion is gone |
| Purge.PurgeRepository.PurgeExpiredFiles | app/repository.py:317-363 | an undisturbed pass purges exactly the active files deleted at or before the cutoff whose unlink works, releases those whose unlink fails, and touches no other |
| Purge.PurgeRepository.RecoverPurgeClaims | app/repository.py:365-406 | an undisturbed recovery purges exactly the claims older than the lease whose unlink works, renews those whose unlink fails, and touches no other |
| LockPool.KeyedLockPool.MutualExclusion | app/main.py:133-176 | at most one lease holds a key |
| LockPool.KeyedLockPool.EntriesAreInUse | app/main.py:165-183 | an entry exists exactly while the key has users, never more than the capacity |
| LockPool.KeyedLockPool.Reserve | app/main.py:165-177 | the shared entry, a new one, or refusal exactly when a new one would exceed the capacity |
| LockPool.KeyedLockPool.Acquire | app/main.py:137-139 | the lease holds the key |
| LockPool.KeyedLockPool.Unlock | app/main.py:140-143 | the key is free again |
| LockPool.KeyedLockPool.Exit | app/main.py:177-183 | the last user removes the entry |
| Pagination.PageIsASlice | app/repository.py:1126-1146 | a page is exactly the undeleted messages between its end and the cursor, ascending |
| Pagination.PageInColumns | app/repository.py:1126-1146 | in columns: at most the limit, undeleted, before the cursor by time and id, oldest first; a next cursor is given exactly when something is left out, which is older than it, and it is the page's first message |
| Pagination.EveryMessageExactlyOnce | app/repository.py:1126-1146 | a finished walk returns every message that stayed undeleted exactly once, whatever changed meanwhile |
| Pagination.WalkTerminates | app/repository.py:1126-1146 | the pages of a walk that are not the last hold no more than the messages of the first table and those that later appeared below the cursor of their moment |
| Pagination.NewerMessagesDoNotProlong | app/repository.py:1126-1146 | messages that appear above the cursor never prolong a walk: it ends within the first table's messages |
| Pagination.EndpointServesTheWalk | app/main.py:73-81 | on changing tables the endpoint serves a walk if and only if no page before the last ends at an upload's message |
| Pagination.ClientReachesAllMessages | app/main.py:73-81 | on a table a client gets every undeleted message if and only if no upload's message is the last of a full page that is not the last page |
| Pagination.UploadCursorIsRefused | app/upload_repository.py:443 | a page that ends at an upload's message cannot be followed: of two messages only that one is reached |
| Limiter.WindowHoldsAtMost | app/auth.py:51-62 | any window of the configured length holds at most the permitted failures |
| Limiter.CountsExactly | app/auth.py:34-44 | a failure counts, as often as it was recorded, exactly while it lies after the cutoff |
| Limiter.LoginRateLimiter.AtMostTheLimit | app/auth.py:19-66 | the same for the limiter's whole record of a client |
| Limiter.LoginRateLimiter.PopExpired | app/auth.py:35-38 | popping from the front equals filtering |
| Limiter.LoginRateLimiter.Prune | app/auth.py:34-44 | the queue is the filtered record; the client moves to the end of the order or out |
| Limiter.LoginRateLimiter.IsLimited | app/auth.py:46-49 | limited exactly when the filtered record reaches the limit |
| Limiter.LoginRateLimiter.RecordFailure | app/auth.py:51-62 | refused exactly when limited; else recorded, and only the least recently used client may be forgotten |
| Limiter.LoginRateLimiter.Reset | app/auth.py:64-66 | one client is forgotten |
| AuditTail.TailSuffices | app/main.py:541-546 | a tail with more than `limit` line feeds has the file's last lines |
| AuditTail.LineComesFirst | app/main.py:541-546 | bytes.splitlines: a line and its terminator, a line feed, a carriage return or both together, come off the front as that line |
| AuditTail.UnendedLineIsLast | app/main.py:541-546 | a last line without a terminator counts, an empty one does not |
| AuditTail.ReadLastLines | app/main.py:529-546 | for any limit from 1: as many lines as the limit or the file has, and they are the end of the file's lines |

## Left out

- HTTP routing, status codes, cookies, headers, ZIP responses, static files and argument parsing: plumbing. The one
  request check that changes a protocol, the form of the page cursor, is modelled.
- A request that is cancelled while its rename runs in a worker thread (`app/upload_service.py:454`): the thread is not
  shielded and may rename after the request has left. In the model a rename belongs to a live request or to recovery.
- SQLite, asyncio and threads: transactions and locked sections are atomic steps; fairness and wake-up order of the
  locks, and the pool's binding to one event loop, are not modelled.
- Event payloads and the events that upload transactions append; the event log and its delivery are modelled with
  abstract events.
- UploadProgressPublisher: its pacing depends on real timers, eviction and late flushes.
- EventHub's loop over connections: each connection is modelled on its own, and a failed send or fetch is its end.
- Names, MIME types and extensions of stored files, `updated_at` and other columns that decide nothing; file-name
  sanitizing; the ISO text of timestamps.
- Leftover `incoming-*` files: a body being received counts as used space while its request lives; files left by a crash
  are removed by recovery before requests are served.
- Space held by files that are unlinked but still open, and space used by anything but resumable uploads.
- `app/safe_fs.py`: verified removal is one step that succeeds or leaves the object in place; a final file that fails the
  verification is moved aside by the code, and the model counts it as gone from its place.
- Whole-file uploads and reservation recovery: only their effects on the tables of `World`, not their files. Legacy
  import: its request ids begin with `legacy-import-`, a form the endpoints accept too, and it does not look for a
  session with that id; exclusivity is proved without it.
- The browser's DOM code, IndexedDB, the storage of the cursor between page loads, and the promise choreography of the
  upload coordinator beyond the grid.
- Decoding of audit lines as JSON.
- Grid.AcceptedExactly: the interpreter refuses to convert more than 4300 digits; the model converts every number.
- Capacity.ReserveIsKept: takes the measurement of free space and the admission as one step; the code measures first,
  and `stale` marks runs in which the measurement was no longer right.
- ClientCursor.NoEventIsSkipped: assumes that the server keeps its history; a server whose data was replaced by other
  data with as many events cannot be told apart by a sequence number.
- UploadService.UploadService.AssembleParts: a part that exists but cannot be read is the step Abort of
  `Publication`, not an outcome of this method.
- EndToEnd.EveryEventReachesThePage: opening a socket and its acceptance by the server are one step.
- EventStream.ReplayLog: the loop as one method without interference; with interference it is the steps Turn and SendNext.
- Pagination.EveryMessageExactlyOnce: the table is a value per page and the query a function, as the code only computes it.
- Limiter.LoginRateLimiter.RecordFailure: times are real numbers that do not decrease; rounding is not modelled.
