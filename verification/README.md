# A verified model of the upload server

This project models the core of a small file-transfer server and of the browser page it serves, and proves what they
promise. It is written in Dafny; `dafny verify dfyconfig.toml` checks all of it.

**The upload manager** (`src/upload.c`). One slot holds one upload. HTTP threads and one background writer share it
under a mutex, with three transports: a queued stream through a ring of four buffers, a direct stream written without
the mutex, and 8 MiB chunks that arrive in any order and are written in index order. `Upload.dfy` gives every region
between lock, wait and unlock as a function on the whole struct, `UploadManager.dfy` is the struct updated in place
and proved to move by those functions, and `WriteQueue.dfy` is the ring over real arrays. `UploadSystem.dfy` puts
everything that runs against the manager together as a step system: each region is one step, each `write(2)` and
`read(2)` made without the mutex is a step of its own, and the directory is a map from names to contents.
`UploadInvariant.dfy` holds the invariant, `UploadStreams.dfy` and `UploadChunks.dfy` prove that steps keep it, and
`UploadRuns.dfy`, `UploadSteps.dfy` and `UploadPublication.dfy` draw the conclusions over runs. `UploadProgress.dfy`
and `UploadCompletion.dfy` say when a chunked upload can come to its end, `UploadStreamCompletion.dfy` when a stream
can, and both show runs that do. `UploadOwners.dfy`, `UploadAnswers.dfy`, `UploadLimits.dfy` and `UploadLease.dfy` say
exactly when each call is accepted, by what was prepared and accepted before; `UploadFailures.dfy` and
`UploadLateFinish.dfy` what becomes of an upload that fails, is cancelled or is overtaken. `UploadService.dfy` is the
class of the upload functions over the struct: each method is a step of the system, and keeps what it keeps.

**The chunk client** (`uploadChunks` in `web/app.js`). `ChunkClient.dfy` has the event handlers, on values and on the
closure variables; `ChunkProtocol.dfy` runs the client against the upload system, and `ChunkStall.dfy` says when the
two come to a stall, and how it ends.

**SHA-256** (`src/sha256.c`). `Sha256.dfy` has the definition of FIPS 180-4 and the struct updated in place;
`BlockStream.dfy` is the buffering and padding for any compression function; `Sha256Constants.dfy` ties the constants
to the primes they come from.

**Names, parsers and printers**. `Utf8.dfy` and `SafePath.dfy` (`src/safe_path.c`), `Json.dfy` and `Metadata.dfy`
(the JSON of `src/upload.c` and `src/router.c`), `ContentRange.dfy`, and `ConfigText.dfy`, `Config.dfy`,
`ConfigReading.dfy`, `ConfigFiles.dfy` and `ConfigLoader.dfy` (`src/config.c`).

**PINs and sessions** (`src/auth.c`). `Auth.dfy` has the calls on the two tables and proves that they answer as the
log of all past calls says; `AuthManager.dfy` has the tables as arrays.

## What the code does not do

Some properties one might expect are false. Each is stated exactly, and a run, a step or an input shows it.

- A directory with 9999 names can defeat the search for a free name (`src/safe_path.c:61-82`), although it tries 9999
  suffixes: `SafePath.AlwaysSucceedsExactly` says for which names, `SafePath.FullNameIsDefeated` gives one.
- A chunked upload does not always get through the staging area of twelve chunks (`src/upload.c:1252-1254`). In the
  manager, it can exactly when not all slots are taken while the next chunk to write has not begun:
  `UploadCompletion.CompletesExactly`. With the page's own client, it can come to a stall exactly when the file has
  more than twelve chunks: `ChunkStall.StallsExactly`; `ChunkStall.ClientReachesFullWindow` is the run. The client then
  retries, and nothing moves until the lease runs out and the next call throws the upload away:
  `ChunkStall.StallLasts`, `ChunkStall.StallEndsWithLease`.
- A prepare that is refused as busy ends the running upload (`src/upload.c:1058-1060`), contrary to
  `tests/test_upload.c:275-283`: `UploadInvariant.RefusedPrepareClears`.
- A write that was parked when its upload was cleared goes on in the next one (`src/upload.c:1103-1124`):
  `UploadOvertaken.OvertakenWriteLandsInNextUpload`. The run up to that point is one of the system,
  `UploadOvertaken.CallIsParked` shows that a call can come to wait, and the turn after it is stated by itself, because
  the rules of the runs leave it out.
- A finish whose upload is cleared under its hash pass, by such a prepare, does harm when it comes back. That of a
  direct stream clears whatever upload is in the slot (`src/upload.c:1461-1519`): `UploadLateFinish.LateDirectFinish`,
  `UploadLateFinish.NextUploadIsCleared`. That of chunks takes away the next upload's mark of being finished
  (`src/upload.c:1623-1626`), so that its own finish is lost although it has read every byte:
  `UploadLateFinish.ComesToTwoPasses` and `UploadLateFinish.LateFinishDecides` are the runs,
  `UploadLateFinish.PassPublishesExactly` is the exact condition. An `upload_finish` that starts only after its upload
  was cleared clears the next one, too: `UploadLateFinish.OvertakenFinishClears`.
- A lockout can end before its 30 seconds (`src/auth.c:270-273`): `Auth.LockoutEndsEarlyExactly`;
  `Auth.LockoutCutShort` is a run.
- An old configuration file can name a destination that is then saved in a form that does not load
  (`src/config.c:416-445`): `ConfigFiles.LoadSaveLoad`, `ConfigFiles.LegacyBarDoesNotReload`.

## Rules of the runs

- A stream belongs to the connection whose `upload_begin` succeeded, which makes its calls one after another
  (`src/server.c:196-301`).
- A stream call that `clear_slot` overtakes while it waits or writes does not go on, and its connection makes no more
  calls.
- A call that begins with `reap_locked` and finds the lease over is taken after the two steps that clear the slot.
- `clear_slot` is two steps, its start and its end once the writer is idle; anything may happen in between.
- Other programs may change any name in the directory that is not the name of a part file. The check of the final
  name and the link or rename after it are one step.
- A random id is 32 hexadecimal digits and new, and the final name is not that of a part file, which
  `Metadata.ChosenIsNoPart` proves of the names that are chosen.

## Model

| member | source | states |
|---|---|---|
| `UploadRuns.RunKeeps` | src/upload.c:438-703 | every reachable state of manager, writer, connections, hash passes and directory satisfies the invariant, for every interleaving of the regions under the mutex |
| `UploadRuns.StepKeeps` | src/upload.c:438-1668 | each single step, of whichever thread, keeps the invariant |
| `UploadRuns.QueuedStreamConservation` | src/upload.c:504-638 | in every reachable state the bytes on disk, then the ring from its head on, then the partial tail are exactly the bytes accepted, and the hash context stands for the same string; after a write error the disk holds a prefix |
| `UploadRuns.ChunkedFileIsInOrder` | src/upload.c:554-638 | between writer jobs the part file is the accepted bytes of chunks 0 to next - 1 in index order, whatever order they arrived in, each of its full length |
| `UploadRuns.ChunkAccounting` | src/upload.c:607-619 | `received` is the sum of the progress entries, `active` and `completed` count the states they should, at most 12 buffers are held, state 3 is exactly the prefix below next, the saturating branches are dead, and all chunks completed means every byte received |
| `UploadRuns.EnqueueNeverBlocks` | src/upload.c:523-544 | bytes in the tail buffer leave room in the queue in every reachable state, so the wait for a free slot is never entered |
| `UploadRuns.WriterMemoryUntouched` | src/upload.c:575-606 | while the writer is outside the mutex no step of anyone else overwrites, moves or frees the memory it reads |
| `UploadStreams.WriterMemoryLive` | src/upload.c:575-602 | a running job always reads live memory: the head buffer at its recorded size, which is not the tail being filled, or the whole accepted bytes of a completed chunk |
| `UploadStreams.WriteTurnKeeps` | src/upload.c:1103-1135 | one turn of the copy loop, with its enqueue, keeps the invariant: bytes, hash and counters move together |
| `UploadStreams.DirectWroteKeeps` | src/upload.c:1193-1197 | one write(2) of the unlocked direct stream keeps the invariant |
| `UploadStreams.WriterWroteKeeps` | src/upload.c:504-521 | one write(2) of the writer thread, in either transport, keeps the invariant |
| `UploadStreams.WriterEndKeeps` | src/upload.c:602-632 | the end of a job, written or failed, keeps the invariant |
| `UploadChunks.ChunkBeginKeeps` | src/upload.c:1215-1277 | upload_chunk_begin keeps the invariant for every request |
| `UploadChunks.ChunkWriteKeeps` | src/upload.c:1279-1326 | upload_chunk_write keeps the invariant for every request |
| `UploadChunks.ChunkFinishKeeps` | src/upload.c:1328-1376 | upload_chunk_finish keeps the invariant, completed or released |
| `UploadChunks.ChunkAbortKeeps` | src/upload.c:1378-1413 | upload_chunk_abort keeps the invariant |
| `UploadChunks.WaitEndsFrozen` | src/upload.c:1557-1570 | when the wait of upload_finish_chunks ends without an error, the part file is the whole payload in index order and nothing can be appended |
| `UploadChunks.HashPassDigest` | src/upload.c:653-703 | a finished hash pass has the digest of exactly the bytes in the part file |
| `UploadInvariant.ConcludeKeeps` | src/upload.c:1486-1521 | hash comparison, close and publication keep the invariant: a log entry has the expected size, the declared hash if one was given, and the digest of its content |
| `UploadInvariant.RefusedPrepareClears` | src/upload.c:1058-1060 | a prepare refused as busy clears the running upload: the failure branch runs because the descriptor is open |
| `UploadPublication.StepEffect` | src/upload.c:142-180 | one step never changes or removes an existing file, and a new name appears only by publishing the whole payload of an upload without a write error, of the expected size and declared hash |
| `UploadPublication.RunPublication` | src/upload.c:142-180 | over every run: a file that no other program touched is as it was, or came into being as an entry of the publication log, whose entries have the expected size and declared hash |
| `UploadPublication.SamePayloadSamePublication` | src/upload.c:1450-1492 | queued, direct and chunked uploads of the same payload that publish at all publish the same bytes with the same digest, the digest of those bytes |
| `UploadPublication.NoAppendAfterHashBegins` | src/upload.c:653-703 | from the start of a hash pass until the slot is emptied no step changes the part file, which is the payload |
| `UploadPublication.EmptiedSlotLeavesNoPart` | src/upload.c:438-502 | a slot that is emptied leaves no part file when unlink succeeds |
| `UploadOwners.SlotIsOwned` | src/upload.c:966-1063 | over every run the upload in the slot has the id, client, authorization and size of the last accepted prepare, and has begun exactly if a begin was accepted since |
| `UploadOwners.BeginExactly` | src/upload.c:1065-1085 | over every run upload_begin is accepted exactly from the client and with the authorization of the prepare that put the upload there, with the size it announced, once; each refusal has its reason and changes nothing |
| `UploadOwners.OnlyTheOwnerDrives` | src/upload.c:722-727 | over every run a chunk begin or a completion is accepted only with the client and the authorization of that prepare; with either of the two different it is forbidden, in exactly that case, and nothing changes |
| `UploadOwners.CancelExactly` | src/upload.c:1638-1668 | an upload is cancelled exactly by its owner, and neither cancelled nor aborted while it is being finished |
| `UploadAnswers.WriteExactly` | src/upload.c:1100-1103 | upload_write takes data exactly as long as it fits what was announced |
| `UploadAnswers.DirectExactly` | src/upload.c:1171-1189 | so does upload_write_direct |
| `UploadAnswers.EnableDirectExactly` | src/upload.c:1138-1157 | the switch to the direct stream is possible exactly before the first byte |
| `UploadAnswers.ChunkBeginExactly` | src/upload.c:1225-1277 | upload_chunk_begin by the owner is accepted exactly for an extent that has not begun, with a slot and memory left, and neither a stream nor a finish under way |
| `UploadAnswers.ChunkWriteExactly` | src/upload.c:1279-1326 | upload_chunk_write is accepted exactly where the accepted bytes of a receiving chunk end, and inside it, so every cut of a chunk into pieces is, in order only |
| `UploadAnswers.ChunkFinishExactly` | src/upload.c:1328-1376 | upload_chunk_finish is accepted exactly for a receiving chunk of which every byte was accepted |
| `UploadAnswers.CompleteExactly` | src/upload.c:1544-1556 | the completion by the owner is admitted exactly once every chunk was finished, to one call at a time |
| `UploadLimits.PrepareExactly` | src/upload.c:966-1063 | upload_prepare for an empty slot is accepted exactly for a file that is not too large, in a session that has files left, if every call it makes succeeds |
| `UploadLimits.PrepareReportsFull` | src/upload.c:966-1012 | and reports a full disk exactly when the first call that fails finds one |
| `UploadLimits.IdleGivesWay` | src/upload.c:976-981 | an upload of another session that never began gives way: cleared first, the prepare is then accepted as for an empty slot |
| `UploadLimits.SessionLimit` | src/upload.c:984-987 | over every run no more than the limit of files is published for one session while no other asks to prepare one, whatever is refused, cancelled or fails in between |
| `UploadLease.StepRenews` | src/upload.c:705-713 | short of emptying the slot exactly the accepted calls renew the lease, to their own time |
| `UploadLease.LeaseOverExactly` | src/upload.c:705-713 | over every run a call finds the lease over exactly when no unlocked write and no finish is under way and the last accepted call lies a whole lease back |
| `UploadFailures.FailedUploadIsNotPublished` | src/upload.c:596-632 | after a write error, whatever anyone does, the upload is not published; until its slot is emptied the next write and the finish report that error, a full disk as such, and the writer takes no job |
| `UploadFailures.FailedFinishEnds` | src/upload.c:546-552 | the finish of a failed upload does not wait for ever: its slot is emptied, or starts to be cleared |
| `UploadFailures.ClearingFreesSlot` | src/upload.c:438-502 | from every reachable state clear_slot, once called, ends in at most four steps: the slot is free, nothing is published, and the part file goes if unlink succeeds |
| `UploadFailures.ClearingIsNotCalledOff` | src/upload.c:442-446 | while a slot is being cleared nobody gives the writer a new job or calls the clearing off |
| `UploadRing.FillAppends` | src/upload.c:1116-1126 | copying into the tail buffer appends to what the ring holds and touches no queued buffer |
| `UploadRing.EnqueueKeeps` | src/upload.c:523-544 | handing the tail buffer to the writer moves no byte |
| `UploadRing.PopDropsFront` | src/upload.c:620-626 | retiring the head drops exactly its bytes from the front |
| `UploadStaging.AdmittedExtents` | src/upload.c:1235-1245 | the checks of upload_chunk_begin admit exactly the chunk_count extents |
| `UploadStaging.EveryByteInOneExtent` | src/upload.c:640-651 | the extents are disjoint and cover the file: every byte lies in exactly one |
| `UploadStaging.ReleaseKeeps` | src/upload.c:1351-1369 | releasing a chunk keeps the counters, and the guards against underflow never fire |
| `UploadStaging.AllCompleted` | src/upload.c:1552-1553 | all chunks completed means received equals the expected size |
| `UploadProgress.NextChunkAdmitted` | src/upload.c:1252-1264 | if every chunk that holds a buffer lies within 12 of the next one to write, beginning the next one is never refused for want of a slot |
| `UploadProgress.BackpressureExactly` | src/upload.c:1235-1260 | a well-formed begin of a free chunk is refused for want of a slot exactly when twelve chunks hold one, and otherwise succeeds if there is memory |
| `UploadProgress.AbortGivesBack` | src/upload.c:1378-1413 | an abort gives back a receiving chunk: its slot and its bytes are no longer counted, no other chunk moves, and it can be begun again at once; any other chunk it leaves alone |
| `UploadProgress.ShortFinishGivesBack` | src/upload.c:1351-1369 | a finish of a chunk that is not full gives it back in the same way |
| `UploadCompletion.ForwardDecreases` | src/upload.c:565-638 | without aborts, every accepted begin, nonempty write and finish, and every step of the writer that does something without error, lowers one measure of the state |
| `UploadCompletion.NoWorkMeansWritten` | src/upload.c:612-618 | the measure of the first k chunks is zero exactly when all of them are written |
| `UploadCompletion.TurnWorks` | src/upload.c:1215-1376 | unless the upload is blocked, the step due for the next chunk can be taken and lowers the measure |
| `UploadCompletion.ReachWritten` | src/upload.c:1215-1376 | from every chunked upload that nothing stopped and that is not blocked there is a run, no longer than the measure, after which all of it is on disk, with any content that goes on from what it has |
| `UploadCompletion.CompletesExactly` | src/upload.c:1252-1254 | there is a run to the end that gives no chunk back if and only if not all slots are taken while the next chunk to write has not begun |
| `UploadCompletion.InWindowCompletes` | src/upload.c:1252-1254 | in particular if every chunk that holds a buffer lies within 12 of the next one to write |
| `UploadCompletion.BlockedStays` | src/upload.c:554-560 | an upload that is blocked stays so until a chunk is given back or the slot emptied |
| `UploadCompletion.CanBePublished` | src/upload.c:1525-1636 | and from there four more steps publish that content, by link or by rename, if the name is free and the declared hash agrees |
| `UploadCompletion.NewUploadCanBePublished` | src/upload.c:966-1063 | every accepted prepare of a file that is not empty can be followed by a run that publishes any content of that size |
| `UploadStreamCompletion.FinishCallExactly` | src/upload.c:1443-1478 | upload_finish of a connection whose lease runs goes on, to drain the queue or to read the file back, exactly when every announced byte was received, no write failed and the tail can be handed over; otherwise the slot is cleared |
| `UploadStreamCompletion.StreamCanBePublished` | src/upload.c:1087-1522 | from every healthy queued stream, however full its queue and wherever the writer is, and for every cut of the rest into upload_write calls, there is a run with exactly those calls that publishes the whole content, if the name is free and the declared hash agrees |
| `UploadStreamCompletion.DirectCanBePublished` | src/upload.c:1159-1522 | the same for the direct stream, wherever its unlocked write is |
| `UploadStreamCompletion.NewStreamCanBePublished` | src/upload.c:966-1522 | every accepted prepare, of an empty file too, can be followed by a run that streams any content of that size in any pieces, queued or direct, and publishes it |
| `UploadLateFinish.PassPublishesExactly` | src/upload.c:1573-1622 | the end of a hash pass over the whole file publishes it exactly when the upload is still marked as being finished, the hash agrees, the name is free, and sync, close and link or rename succeed |
| `UploadLateFinish.ComesToTwoPasses` | src/upload.c:1542-1570 | a run in which an upload of chunks is sent and finished, and a prepare refused as busy clears it under its hash pass |
| `UploadLateFinish.LateFinishDecides` | src/upload.c:1579-1626 | from there every accepted prepare leads to a second upload, whole and under its own pass; that pass alone publishes it, but if the late one of the first ends before, the second upload is lost |
| `UploadLateFinish.LateDirectFinish` | src/upload.c:1450-1463 | the same run for a direct stream |
| `UploadLateFinish.NextUploadIsCleared` | src/upload.c:1461-1522 | and there the late finish clears the next upload, whatever it is |
| `UploadLateFinish.OvertakenFinishClears` | src/upload.c:1443-1522 | an upload_finish that comes after its upload was cleared ends the upload that is in the slot by then |
| `UploadProgress.LaterChunksShutOutTheNext` | src/upload.h:26-27 | the window premise is needed: twelve later chunks fill it and the next one is refused |
| `UploadProgress.FullWindowIsStuck` | src/upload.c:1252-1254 | a window full of completed later chunks refuses every chunk call and gives the writer nothing to do |
| `UploadServices.UploadService.constructor` | src/upload.c:832-907 | a fresh manager over a directory is an initial state of the system |
| `UploadServices.UploadService.Begin` | src/upload.c:1065-1085 | accepted only for the client and authorization the slot is held for, and forbidden exactly to others; an accepted begin opens an empty stream, and the struct moves as the step of the system |
| `UploadServices.UploadService.WriteTurn` | src/upload.c:1103-1135 | one turn accepts the bytes it says and loses none: disk, ring and tail are the bytes accepted, and the hash stands for them |
| `UploadServices.UploadService.EnableDirect` | src/upload.c:1138-1157 | the switch to the direct stream accepts nothing and keeps everything |
| `UploadServices.UploadService.DirectStart` | src/upload.c:1171-1188 | the checks before the unlocked write |
| `UploadServices.UploadService.DirectEnd` | src/upload.c:1199-1212 | the bytes of a direct write are accepted exactly when it had no error |
| `UploadServices.UploadService.ChunkBegin` | src/upload.c:1215-1277 | accepted only for the client and authorization the slot is held for, and forbidden exactly to others; every request leaves the accepted bytes of all chunks alone |
| `UploadServices.UploadService.ChunkWrite` | src/upload.c:1279-1326 | an accepted write adds exactly its data to its chunk |
| `UploadServices.UploadService.ChunkFinish` | src/upload.c:1328-1376 | every request keeps the accounting, completed or released |
| `UploadServices.UploadService.ChunkAbort` | src/upload.c:1378-1413 | every abort keeps the accounting |
| `UploadServices.UploadService.WriterStart` | src/upload.c:575-594 | the writer takes a job |
| `UploadServices.UploadService.WriterWrote` | src/upload.c:504-521 | one write(2) of the job appends to the part file, and disk and memory still make up the accepted bytes |
| `UploadServices.UploadService.WriterEnd` | src/upload.c:602-632 | the end of a job leaves the part file alone, and disk and memory still make up the accepted bytes |
| `UploadServices.UploadService.CompleteStart` | src/upload.c:1542-1556 | admitted only for the client and authorization the slot is held for, with every byte received, and forbidden exactly to others |
| `UploadServices.UploadService.Cancel` | src/upload.c:1649-1655 | only the holder of the upload starts clearing it; another client or authorization is forbidden, and nothing changes |
| `UploadServices.UploadService.ClearEnd` | src/upload.c:447-501 | the emptied slot |
| `UploadServices.UploadService.Prepare` | src/upload.c:966-1063 | an accepted prepare is an empty upload over an empty part file; a refusal is a step of the system too |
| `UploadServices.UploadService.Supersede` | src/upload.c:976-984 | the same for an idle upload of another session, cleared first |
| `UploadOvertaken.CallIsParked` | src/upload.c:1103-1107 | from every prepared upload of more than four buffers there is a run in which upload_write comes to wait |
| `UploadOvertaken.OvertakenWriteLandsInNextUpload` | src/upload.c:1103-1124 | after a run that clears the upload of a parked write and prepares another, the next turn of that write would put its bytes into the new upload; the rule that keeps such turns out of the runs is needed |
| `UploadSteps.StepGoesOn` | src/upload.c:438-1668 | every step but the four that can empty the slot keeps the upload in it, and no chunk goes back from completed or written |
| `WriteQueues.WriteQueue.Append` | src/upload.c:1116-1126 | copying into the tail array appends to the contents of the ring, in place |
| `WriteQueues.WriteQueue.Enqueue` | src/upload.c:523-544 | the indices move, the contents stay |
| `WriteQueues.WriteQueue.Pop` | src/upload.c:620-626 | the front buffer leaves the contents |
| `WriteQueues.WriteQueue.Clear` | src/upload.c:447-465 | the ring is emptied |
| `ChunkClient.ClientSafety` | web/app.js:953-1098 | in every run at most `parallelism` chunks are outstanding, each has at most one open request or timer, the completion request is sent at most once and only after every chunk got a 2xx answer, and an unsettled client always has something outstanding |
| `ChunkClient.RefusalIsRetried` | web/app.js:1045-1060 | a refusal for want of a slot leaves the upload running, the chunk outstanding as a timer, everything else as it was and one more retry counted; the timer requests exactly that chunk again and undoes the refusal |
| `ChunkClient.SettledExactly` | web/app.js:979-1098 | over every run a launched client has settled exactly when its numbers made no sense or an event was a refusal of another kind, a cancelled one, a broken or aborted request, or the answer to the completion request |
| `ChunkClient.RefusalsOnlyDelay` | web/app.js:1045-1060 | whenever and however often chunks are refused for want of a slot, a run that nothing ends has at most two further events for each refusal |
| `ChunkClient.CompletionIsReached` | web/app.js:1004-1077 | from every client that has not settled the upload can come to its completion request, in no more events than there are to go |
| `ChunkClient.RetriesAreRefusals` | web/app.js:1047-1048 | over every run the retries of a chunk count its own refusals for want of a slot |
| `ChunkClient.RetryDelayIs` | web/app.js:1047 | the delay doubles with each of them, from 40 up to 500 milliseconds |
| `ChunkClient.HandleKeeps` | web/app.js:1038-1087 | every event handler keeps the meaning of the counters |
| `ChunkClient.ScheduleKeeps` | web/app.js:1004-1011 | after schedule() nothing that could be started was left, and completion was posted if due |
| `ChunkClient.ChunkUpload.RunSchedule` | web/app.js:1004-1011 | the loop on the closure variables |
| `ChunkClient.ChunkUpload.OnAccepted` | web/app.js:1070-1077 | the 2xx branch of onload |
| `ChunkClient.ChunkUpload.OnRefused` | web/app.js:1045-1069 | the other branches of onload: a refusal for want of a slot trades the request for a timer and counts a retry, any other ends the upload |
| `ChunkClient.ChunkUpload.OnTimer` | web/app.js:1050-1058 | the retry timer |
| `ChunkClient.ChunkUpload.OnLost` | web/app.js:1078-1087 | onerror and onabort |
| `ChunkClient.RetryDelay` | web/app.js:1047 | the delay lies between 40 and 500 milliseconds |
| `ChunkProtocol.CompletionFindsEveryChunk` | web/app.js:953-1098 | client and server together: once the completion request is sent and the upload is still in the slot, every chunk is completed there, every byte received, and the request admitted |
| `ChunkProtocol.GoKeeps` | web/app.js:953-1098 | every move of browser or server keeps the agreement: acknowledged chunks are finished, and finished chunks stay completed or written |
| `ChunkProtocol.LaunchFacts` | web/app.js:956 | the client cuts the file into exactly the extents of the server |
| `Sha256.AnySplitGivesDigest` | src/sha256.c:66-110 | for every message under 2^61 bytes and every split into updates, the final call gives the digest of FIPS 180-4, sections 5 and 6.2 |
| `Sha256.FinishIsDigest` | src/sha256.c:91-110 | closing the context of a message gives its digest, with one padding block or two |
| `Sha256.AbsorbExtends` | src/sha256.c:66-89 | an update moves the context of a message to that of the longer message |
| `BlockStream.FinishHashesPadded` | src/sha256.c:91-110 | the closing of any block hash by this scheme compresses exactly the padded message of section 5.1.1 |
| `BlockStream.AbsorbTwice` | src/sha256.c:66-89 | two updates in a row are one update with the bytes of both |
| `Sha256.Sha256Context.Transform` | src/sha256.c:9-56 | the struct state after one block is the hash computation of section 6.2.2 |
| `Sha256.Sha256Context.Update` | src/sha256.c:66-89 | the struct, its buffer updated in place, refines the update on values |
| `Sha256.Sha256Context.Final` | src/sha256.c:91-110 | the bytes written out are those of the value-level close, and the struct is zeroed |
| `Sha256.HexInjective` | src/sha256.c:112-120 | comparing digests in hexadecimal compares the digests |
| `Sha256Constants.RoundConstants` | src/sha256.c:10-26 | the 64 constants are the first 32 fractional bits of the cube roots of the first 64 primes |
| `Sha256Constants.FirstPrimes` | src/sha256.c:10-26 | those numbers are the first 64 primes, in order |
| `Sha256Constants.InitialHash` | src/sha256.c:58-64 | the initial hash words are the first 32 fractional bits of the square roots of the first eight primes |
| `Sha256Constants.CubeRootUnique` | src/sha256.c:10-26 | a number leaves no choice of these bits |
| `Utf8.WellFormedMeansEncoded` | src/safe_path.c:9-28 | the accepted texts are exactly the encodings of sequences of Unicode scalar values other than NUL, and each decodes in one way (sections 3 and 4 of RFC 3629) |
| `Utf8.LeadDecides` | src/safe_path.c:13-25 | the bit tests of one turn accept a character exactly when the grammar does |
| `Utf8.ValidUtf8` | src/safe_path.c:9-28 | the loop accepts exactly the well-formed texts and never reads past the terminator |
| `SafePath.ValidateFilename` | src/safe_path.c:30-41 | the loop accepts exactly the valid names, each one segment of a path |
| `SafePath.Join` | src/safe_path.c:43-48 | a path is made exactly for a valid name that fits the buffer, and stays inside its directory |
| `SafePath.ValidNameExactly` | src/safe_path.c:30-41 | a name is accepted exactly when it is one path segment other than . and .., well-formed, of 1 to 255 bytes, without control bytes, 0x7F, backslash and percent |
| `SafePath.JoinStaysInside` | src/safe_path.c:43-48 | cut at slashes a joined path is the segments of its directory and then the name |
| `SafePath.UniqueName` | src/safe_path.c:50-83 | the requested name if free, else the first free candidate before any that cannot be used |
| `SafePath.KeepIsLongest` | src/safe_path.c:65-71 | the kept prefix is cut between characters and is the longest that leaves room |
| `SafePath.CandidateIsValid` | src/safe_path.c:62-78 | every candidate is a valid name of at most 255 bytes that keeps the extension, so validating it again never fails |
| `SafePath.ChosenIsFree` | src/safe_path.c:50-83 | the name returned is valid, fits the path, keeps the extension and is absent from the directory |
| `SafePath.CandidatesDiffer` | src/safe_path.c:62-77 | different suffixes give different candidates, even when they leave different lengths of the stem |
| `SafePath.FailsExactly` | src/safe_path.c:61-82 | a directory with at most 9999 names defeats the search exactly when they are the 9999 candidates and the requested name is one of them |
| `SafePath.AlwaysSucceedsExactly` | src/safe_path.c:61-82 | with at most 9999 names the search always succeeds if and only if the requested name is not a full 255-byte name that already carries a suffix |
| `SafePath.OwnCandidateMeans` | src/safe_path.c:62-77 | a name is its own candidate exactly when it has 255 bytes and its stem ends in that suffix |
| `SafePath.FullNameIsDefeated` | src/safe_path.c:61-82 | such a name and such a directory exist |
| `SafePath.SucceedsWithOneFewer` | src/safe_path.c:61-82 | 9998 names never defeat the search |
| `Json.StringExactly` | src/upload.c:750-767 | json_string reads exactly a quoted text whose only escapes are quote, backslash and slash, without control bytes, whose value fits |
| `Json.ReadString` | src/upload.c:750-767 | the cursor loop computes that reading |
| `Json.EscapeString` | src/router.c:291-315 | the escaped text, exactly when it fits with its terminator |
| `Json.StringRoundTrip` | src/upload.c:750-767 | json_string gives back what json_escape_string wrote if and only if it has no control byte and fits |
| `Json.EscapeKeepsMeaning` | src/router.c:291-315 | a conforming JSON reader gets every string back, control bytes included (section 7 of RFC 8259) |
| `Json.ReadNumber` | src/upload.c:769-782 | exactly the canonical decimals below 2^64; the overflow test is exact |
| `Json.NumberRoundTrip` | src/upload.c:769-782 | a printed number is read back if and only if it is a 64-bit number |
| `Decimal.PrintRoundTrip` | src/upload.c:769-782 | reading printed digits gives the number |
| `Decimal.CanonicalIsPrinted` | src/upload.c:769-782 | a canonical text is the printed form of its value |
| `Metadata.ParseExactly` | src/upload.c:784-830 | an upload is announced exactly by the documents that write it: any order, any white space, each key once, and the final checks |
| `Metadata.OrderDoesNotMatter` | src/upload.c:784-830 | documents with the same fields announce the same upload, in whatever order and layout |
| `Metadata.ParseMetadata` | src/upload.c:784-830 | the cursor loop computes that reading |
| `Metadata.ChosenIsNoPart` | src/upload.c:84-110 | the final name of an announced upload is never the name of a part file |
| `ContentRange.ParseExactly` | src/router.c:375-394 | exactly the headers of three digit strings a <= b < t below 2^64 are read, the length never wraps and the extent lies inside the total |
| `ContentRange.HeaderRoundTrip` | src/router.c:375-394 | a printed range a-b/t is read as (a, b - a + 1, t) exactly when a <= b < t < 2^64 |
| `ContentRange.ChunkHeaderAdmitted` | web/app.js:1015-1026 | the header the client writes for a chunk is read as the extent upload_chunk_begin admits for it |
| `ContentRange.ChunkEnds` | web/app.js:1015-1017 | the end the client computes is that of the extent |
| `ContentRange.ParseContentRange` | src/router.c:375-394 | the cursor walk computes that reading |
| `ContentRange.ReadRangeNumber` | src/router.c:358-373 | a number is read exactly when digits stand at the cursor and make a 64-bit number, and the cursor then stands behind the last of them |
| `ConfigFiles.ConfigRoundTrip` | src/config.c:471-502 | loading a saved well-formed configuration restores all but the two unsaved legacy paths if and only if no target path holds the separator; otherwise the file does not load |
| `ConfigFiles.LoadedIsWellFormed` | src/config.c:364-447 | every successful load yields numbers in range, one to eight targets with distinct ids and safe, trimmed fields, and a destination among them |
| `ConfigFiles.DestinationOrFirstTarget` | src/config.c:442-445 | the destination last given is kept if it is the path of a target; otherwise the first target takes its place |
| `ConfigReading.FileExactly` | src/config.c:342-447 | the files that load are exactly those, not in UTF-16, whose lines are blank, comments or good entries, and nothing else |
| `ConfigReading.LoadsByPieces` | src/config.c:364-395 | the loop over fgets reads the pieces between newlines, without a byte order mark, and gives up on a line that does not fit and on a zero byte before the end |
| `ConfigReading.LineExactly` | src/config.c:391-424 | a line is accepted exactly if it is white space, a comment, or a known key, an equals sign and a value, with white space around each, that can be applied |
| `ConfigReading.EntriesExactly` | src/config.c:230-340 | a list of entries is accepted exactly if no key but storage_path stands twice, every value is one its key can take, and the targets are at most eight with distinct ids; every field is then what its entry says, or else its default |
| `ConfigReading.LoadedAsGiven` | src/config.c:412-447 | what is loaded: the fields as given, the two old paths from the destination of an old file that lies there, and the targets of the storage paths, or those two |
| `ConfigFiles.LoadSaveLoad` | src/config.c:364-520 | what was loaded can be saved and loaded again, exactly unless a legacy destination with a separator got in |
| `ConfigFiles.LineApplies` | src/config.c:396-424 | a written line sets its key to its value |
| `ConfigFiles.TargetSplits` | src/config.c:153-175 | the text of a target is split into its parts again |
| `ConfigText.PathSafeExactly` | src/config.c:51-89 | the safe paths are exactly the absolute paths of segments that are not empty, dot or dot-dot, without bad bytes, whose first is not dev, proc or sys |
| `ConfigText.DestinationSyntaxIsSafe` | src/config.c:51-89 | the three loops compute it |
| `ConfigText.ParseU64Exactly` | src/config.c:33-49 | on a trimmed text exactly the digit strings whose number is in range |
| `ConfigText.TrimFinds` | src/config.c:20-31 | trimming finds a trimmed text inside any white space |
| `ConfigText.TrimText` | src/config.c:20-31 | the pointer walk computes the trimmed text |
| `ConfigLoaders.ConfigLoader.AddStorageTarget` | src/config.c:153-192 | the table after one storage_path value |
| `ConfigLoaders.ConfigLoader.ApplyValue` | src/config.c:230-340 | struct and keys seen after one value, and what an error leaves |
| `ConfigLoaders.ConfigLoader.TakeLine` | src/config.c:396-424 | one line from trimming to apply_value |
| `ConfigLoaders.ConfigLoader.TakeLines` | src/config.c:364-424 | the line loop |
| `ConfigLoaders.ConfigLoader.LoadConfig` | src/config.c:342-448 | the result for every state of the file |
| `ConfigLoaders.SaveConfig` | src/config.c:471-502 | the text written, line by line |
| `ConfigFiles.LegacyBarDoesNotReload` | src/config.c:416-445 | an old file with a separator in its only destination loads, and what is then saved does not |
| `ChunkStall.ClientReachesFullWindow` | web/app.js:1004-1077 | from the start of any upload of 13 chunks or more, with any parallelism, a run of client and server leads into a full window behind chunk 0 |
| `ChunkStall.StallLasts` | src/upload.c:1252-1254 | from there, whatever anyone does, no chunk call is accepted, no completion is sent and the lease is not renewed, until something empties the slot |
| `ChunkStall.PrepareOpens` | src/upload.c:966-1063 | every accepted prepare leads to such a start |
| `ChunkStall.StallsExactly` | src/upload.c:1252-1254 | client and server can come to a stall if and only if the file has more than twelve chunks |
| `ChunkStall.ShortFilesAreNeverRefused` | src/upload.c:1252-1254 | with twelve chunks or fewer no begin of a free chunk is refused for want of a slot |
| `ChunkStall.LeaseEndsStall` | src/upload.c:705-713 | once the lease is over no chunk call is answered before the slot was cleared, and then the upload is not found |
| `ChunkStall.StallEndsWithLease` | src/upload.c:705-713 | however the run went on, one lease after the last accepted call the lease is found over; the answer makes the client give up, without having asked for completion |
| `Auth.LockoutCutShort` | src/auth.c:270-273 | a run of allowed calls in which a lockout ends early and a new challenge is handed out at once |
| `Auth.RunAnswersByItsLog` | src/auth.c:172-346 | after any run with a clock that does not go back and new ids: one challenge per address, one session, each challenge won at most once, and every further call, be it a request for a challenge, a PIN or a bearer check, answers by the log of past calls alone |
| `Auth.VerifyExactly` | src/auth.c:235-310 | a PIN is accepted exactly when it belongs to the latest challenge of its address, in time, never won, with fewer than five wrong PINs |
| `Auth.BearerExactly` | src/auth.c:320-346 | a token opens exactly the session of the last accepted PIN, for its address, until it expires |
| `Auth.VerifyAnswers` | src/auth.c:235-310 | every answer to a PIN is the one due by the log: unknown, used, expired, locked, wrong, or accepted |
| `Auth.CreateExactly` | src/auth.c:172-226 | a request for a challenge is rate-limited exactly while the lockout of that same address runs, finds no capacity exactly while eight other addresses hold a challenge in time or a running lockout, and otherwise hands out what it drew as the latest challenge of its address |
| `Auth.AnswerFollows` | src/auth.c:123-346 | every call keeps exactly the challenges that by the log were not cleared |
| `Auth.AnswerKeeps` | src/auth.c:123-346 | every call keeps the tables in agreement with the log; cleaning and dropping lose nothing that matters |
| `Auth.LockoutEndsEarlyExactly` | src/auth.c:270-273 | a running lockout ends by one call exactly when that call finds the locked challenge expired |
| `AuthManagers.ConstantTimeEqual` | src/auth.c:50-57 | the accumulated difference is zero exactly when the texts are equal |
| `AuthManagers.AuthManager.CleanupExpired` | src/auth.c:123-138 | both tables after cleaning |
| `AuthManagers.AuthManager.FindSlot` | src/auth.c:190-207 | the scan that drops, refuses or chooses a slot |
| `AuthManagers.AuthManager.CreateChallenge` | src/auth.c:172-226 | the tables and result of the request, on the arrays |
| `AuthManagers.AuthManager.VerifyChallenge` | src/auth.c:235-310 | the tables and result |
| `AuthManagers.AuthManager.ValidateBearer` | src/auth.c:320-346 | the tables and result |

## Left out

- UploadServices.UploadService.Prepare: the ring memory, the hash context and the chunk buffers are values in the struct; only WriteQueues.WriteQueue and Sha256.Sha256Context show theirs updated in place.
- UploadRuns.RunKeeps: a stream call overtaken by a clear never goes on, because past that point the source promises nothing (OvertakenWriteLandsInNextUpload).
- UploadPublication.StepEffect: another program that takes the final name between the check and a rename is not modelled, because rename(2) would replace its file.
- UploadCompletion.CanBePublished: says that a run to publication exists, not that the scheduler, the disk and the network take it.
- ChunkProtocol.CompletionFindsEveryChunk: the browser's sizes are whole numbers, as `File.size` is; that a number may be NaN is not modelled.
- ConfigLoaders.ConfigLoader.ApplyValue: the text of the error message is not modelled.
- Threads and condition variables as such: a wait is a step that is only possible when its condition holds, and wake-ups are never lost.
- Shutdown and destruction of the managers, and changing the destination directory while idle.
- The syscall fallbacks (`open_part_file`, `reserve_upload_space`, `sync_for_publication`, stale part cleanup): each is a choice between success and failure.
- Sockets, HTTP headers and status codes, asset serving and the receive loops of `src/server.c` and `src/fast_upload_server.c`.
- Timing metrics, progress displays and the `loaded` array of the client.
- Wiping of memory and the constant time of comparisons, which are not functional properties.
- How uniformly PINs are drawn; randomness is an argument.
- `auth_parse_verify_json`, whose grammar is a smaller copy of the one in `parse_metadata`.
- The temporary file and rename of `config_save_file`, and its error numbers.
