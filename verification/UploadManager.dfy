/**
  struct upload_manager, updated in place. Each method is one region of src/upload.c under the mutex and is proved
  to move the struct exactly as the function of the same name in module Upload moves its value; class UploadService
  runs them. The write queue's memory and the hash context are values here; classes WriteQueue and Sha256Context show
  both updated in place.
 */
module UploadManagers {
  import opened Bytes
  import opened U = Upload
  import opened UploadRing
  import Sha256

  /** The strings that name an upload and the session it belongs to. */
  datatype Session = Session(id: Bytes, client: Bytes, authorization: Bytes, finalName: Bytes, partName: Bytes,
                             expectedHash: Bytes)

  const NO_SESSION: Session := Session([], [], [], [], [], [])

  class UploadManager {
    const limits: Limits
    var completedFiles: nat
    var completedAuthorization: Bytes
    var occupied: bool
    var started: bool
    var fdOpen: bool
    var expected: nat
    var received: nat
    var lastActivity: nat
    var session: Session
    var sha: Sha256.Context
    var ring: Ring
    var discard: bool
    var error: nat
    var job: Job
    var direct: bool
    var chunks: Staging
    var chunkTransport: bool
    var finalizing: bool
    var activeWrites: nat

    ghost function View(): Manager
      reads this
    {
      Manager(limits, completedFiles, completedAuthorization, occupied, started, fdOpen, expected, received,
              lastActivity, session.id, session.client, session.authorization, session.finalName, session.partName,
              session.expectedHash, sha, ring, discard, error, job, direct, chunks, chunkTransport, finalizing,
              activeWrites)
    }

    /** upload_manager_create: a zeroed struct. */
    constructor (limits: Limits, memory: seq<Bytes>)
      requires |memory| == DEPTH && forall i :: 0 <= i < DEPTH ==> |memory[i]| == CAP
      ensures Shaped(View()) && !occupied && this.limits == limits && job == NoJob && error == 0
      ensures ring == Ring(0, 0, 0, [0, 0, 0, 0], memory, 0) && chunks == NO_STAGING && sha == Sha256.ZEROED
      ensures received == activeWrites == 0 && !started && !chunkTransport && !direct && !fdOpen && !discard
      ensures !finalizing && session == NO_SESSION && completedFiles == 0 && completedAuthorization == []
    {
      this.limits := limits;
      completedFiles, completedAuthorization, session := 0, [], NO_SESSION;
      occupied, started, fdOpen, discard := false, false, false, false;
      direct, chunkTransport, finalizing := false, false, false;
      expected, received, lastActivity, error, activeWrites := 0, 0, 0, 0, 0;
      sha, ring, job, chunks := Sha256.ZEROED, Ring(0, 0, 0, [0, 0, 0, 0], memory, 0), NoJob, NO_STAGING;
    }

    // ---------------------------------------------------------------- clear_slot

    method ClearBegin()
      modifies `discard
      ensures View() == U.ClearBegin(old(View()))
    {
      discard := true;
    }

    method ClearMemory()
      requires RingShape(ring)
      modifies `ring, `sha, `chunks
      ensures View() == old(View()).(ring := ClearRing(old(ring)), sha := Sha256.ZEROED, staging := NO_STAGING)
    {
      ring := ClearRing(ring);
      sha := Sha256.ZEROED;
      chunks := NO_STAGING;   // every chunk buffer is freed, then the three arrays
    }

    method ClearUpload()
      modifies `expected, `received, `lastActivity, `session
      ensures View() == old(View()).(expected := 0, received := 0, lastActivity := 0, id := [], client := [],
                                     authorization := [], finalName := [], partName := [], expectedHash := [])
    {
      expected, received, lastActivity, session := 0, 0, 0, NO_SESSION;
    }

    method ClearFlags()
      modifies `error, `fdOpen, `occupied, `started
      ensures View() == old(View()).(error := 0, fdOpen := false, occupied := false, started := false)
    {
      error, fdOpen, occupied, started := 0, false, false, false;
    }

    method ClearModes()
      modifies `chunkTransport, `finalizing, `activeWrites, `direct, `discard
      ensures View() == old(View()).(chunkTransport := false, finalizing := false, activeWrites := 0, direct := false,
                                     discard := false)
    {
      chunkTransport, finalizing, activeWrites, direct, discard := false, false, 0, false, false;
    }

    method ClearEnd()
      requires RingShape(ring)
      modifies this
      ensures View() == U.ClearEnd(old(View()))
    {
      ClearMemory();
      ClearUpload();
      ClearFlags();
      ClearModes();
    }

    // ---------------------------------------------------------------- upload_prepare

    /** The whole region, with the clear of a superseded upload, whose writer is idle because it never started. */
    method Prepare(r: Request, e: PrepareEnv, now: nat) returns (result: Result)
      requires Shaped(View())
      modifies this
      ensures
        var m := if r.size <= limits.maxFileBytes && Superseded(old(View()), r.authorization)
                 then U.ClearEnd(old(View()))
                 else old(View());
        Out(result, View()) == U.Prepare(m, r, e, now)
    {
      if r.size > limits.maxFileBytes { return TooLarge; }
      if occupied && !started && session.authorization != r.authorization { ClearEnd(); }
      result := Reserve(r, e);
      if result == Ok { result := Open(r, e, now); }
      if result != Ok && fdOpen { ClearEnd(); }
    }

    /** Up to the part path. */
    method Reserve(r: Request, e: PrepareEnv) returns (result: Result)
      modifies `completedFiles, `completedAuthorization, `session
      ensures Out(result, View()) == PrepareNames(old(View()), r, e)
    {
      if occupied { return Busy; }
      if completedAuthorization != r.authorization {
        completedFiles, completedAuthorization := 0, r.authorization;
      }
      if completedFiles >= limits.maxFiles { return LimitReached; }
      if !e.spaceOk { return StorageFull; }
      if e.unique.None? { return IoError; }
      session := session.(finalName := e.unique.value);
      if !e.joinOk || e.id.None? { return IoError; }
      session := session.(id := e.id.value);
      if !e.partFits { return IoError; }
      session := session.(partName := PartName(e.id.value));
      return Ok;
    }

    /** The assignments that put a new upload in the slot. */
    method Occupy(r: Request, count: nat, now: nat)
      modifies `occupied, `expected, `chunks, `lastActivity, `session
      ensures View() == old(View()).(occupied := true, expected := r.size, staging := FreshStaging(count),
                                     lastActivity := now,
                        client := r.client, authorization := r.authorization,
                                     expectedHash := r.hash)
    {
      occupied, expected, chunks, lastActivity := true, r.size, FreshStaging(count), now;
      session := session.(client := r.client, authorization := r.authorization, expectedHash := r.hash);
    }

    method SetOpen()
      modifies `fdOpen
      ensures View() == old(View()).(fdOpen := true)
    {
      fdOpen := true;
    }

    /** From the open of the part file on. */
    method Open(r: Request, e: PrepareEnv, now: nat) returns (result: Result)
      modifies `fdOpen, `occupied, `expected, `chunks, `lastActivity, `session
      ensures
        var m := old(View());
        Out(result, View()) ==
        if e.openError != 0 then Out(ErrorResult(e.openError), m)
        else if e.reserveError != 0 then Out(ErrorResult(e.reserveError), m.(fdOpen := true))
        else if ChunkCount(r.size) > 0 && !e.arraysOk then Out(IoError, m.(fdOpen := true))
        else Out(Ok, m.(fdOpen := true, occupied := true, expected := r.size,
                        staging := FreshStaging(ChunkCount(r.size)), lastActivity := now,
                        client := r.client, authorization := r.authorization,
                        expectedHash := r.hash))
    {
      if e.openError != 0 { return ErrorResult(e.openError); }
      SetOpen();
      if e.reserveError != 0 { return ErrorResult(e.reserveError); }
      var count := if r.size == 0 then 0 else (r.size - 1) / CHUNK + 1;
      if count > 0 && !e.arraysOk { return IoError; }
      Occupy(r, count, now);
      return Ok;
    }

    // ---------------------------------------------------------------- streams

    method Begin(id: Bytes, client: Bytes, authorization: Bytes, length: nat, now: nat) returns (result: Result)
      modifies `chunkTransport, `started, `lastActivity, `sha
      ensures Out(result, View()) == U.Begin(old(View()), id, client, authorization, length, now)
    {
      if !occupied || session.id != id { return NotFound; }
      if session.client != client || session.authorization != authorization { return Forbidden; }
      if started || chunkTransport { return Busy; }
      if length != expected { return SizeMismatch; }
      chunkTransport, started, lastActivity := false, true, now;
      sha := Sha256.ContextOf([]);
      return Ok;
    }

    method EnqueueBuffer() returns (errno: nat)
      requires RingShape(ring)
      modifies `ring
      ensures errno == U.Enqueue(old(ring), error, discard).error
      ensures View() == old(View()).(ring := U.Enqueue(old(ring), error, discard).ring)
    {
      if ring.buffered == 0 { return 0; }
      if error != 0 { return error; }
      if discard { return ECANCELED; }
      ring := ring.(sizes := ring.sizes[ring.tail := ring.buffered], tail := Wrap(ring.tail, 1),
                    queued := ring.queued + 1, buffered := 0);
      return 0;
    }

    /** The memcpy and the hash update of upload_write, and its counters. */
    method Take(piece: Bytes, now: nat)
      requires Shaped(View()) && ring.buffered + |piece| <= CAP
      modifies `ring, `sha, `received, `lastActivity
      ensures View() == Taken(old(View()), piece, now)
    {
      ring := FillTail(ring, piece);
      sha := Sha256.Absorb(sha, piece);
      received, lastActivity := received + |piece|, now;
    }

    /** One turn of the loop of upload_write. */
    method WriteTurn(data: Bytes, now: nat) returns (result: Result, taken: nat)
      requires Shaped(View()) && (error == 0 ==> ring.queued < DEPTH)
      modifies `ring, `sha, `received, `lastActivity
      ensures Out(result, View()) == U.WriteTurn(old(View()), data, now)
      ensures taken == if error == 0 then TurnCount(old(ring), data) else 0
    {
      if error != 0 { return ErrorResult(error), 0; }
      var space := CAP - ring.buffered;
      taken := if |data| < space then |data| else space;
      Take(data[..taken], now);
      ghost var m1 := View();
      assert m1 == Taken(old(View()), data[..TurnCount(old(ring), data)], now);
      if ring.buffered != CAP { return Ok, taken; }
      var errno := EnqueueBuffer();
      assert View() == m1.(ring := U.Enqueue(m1.ring, m1.error, m1.discard).ring);
      result := if errno == 0 then Ok else ErrorResult(errno);
    }

    method EnableDirect(id: Bytes) returns (result: Result)
      modifies `direct
      ensures Out(result, View()) == U.EnableDirect(old(View()), id)
    {
      if !occupied || !started || session.id != id { return NotFound; }
      if chunkTransport || received != 0 || ring.buffered != 0 || ring.queued != 0 || job != NoJob { return Busy; }
      direct := true;
      return Ok;
    }

    method DirectStart(id: Bytes, size: nat, now: nat) returns (result: Result)
      modifies `activeWrites, `lastActivity
      ensures Out(result, View()) == U.DirectStart(old(View()), id, size, now)
    {
      if !occupied || !started || session.id != id { return NotFound; }
      if !direct { return Busy; }
      if size > MinusU64(expected, received) { return SizeMismatch; }
      if activeWrites != 0 { return Busy; }
      activeWrites, lastActivity := activeWrites + 1, now;
      return Ok;
    }

    method DirectEnd(size: nat, errno: nat, now: nat) returns (result: Result)
      modifies `activeWrites, `error, `received, `lastActivity
      ensures Out(result, View()) == U.DirectEnd(old(View()), size, errno, now)
    {
      if activeWrites > 0 { activeWrites := activeWrites - 1; }
      if errno != 0 {
        error := errno;
        return ErrorResult(errno);
      }
      received, lastActivity := received + size, now;
      return Ok;
    }

    // ---------------------------------------------------------------- chunks

    method ChunkBegin(id: Bytes, client: Bytes, authorization: Bytes, total: nat, offset: nat, length: nat,
                      alloc: Option<Bytes>, now: nat) returns (result: Result)
      requires Shaped(View()) && (alloc.Some? ==> |alloc.value| == length)
      modifies `chunks, `lastActivity, `chunkTransport, `started
      ensures Out(result, View()) ==
              U.ChunkBegin(old(View()), id, client, authorization, total, offset, length, alloc, now)
    {
      if length == 0 { return Invalid; }
      if !occupied || session.id != id { return NotFound; }
      if session.client != client || session.authorization != authorization { return Forbidden; }
      if finalizing { return Busy; }
      if started && !chunkTransport { return Busy; }
      if total != expected || offset >= total || length > total - offset || offset % CHUNK != 0 ||
         (length != CHUNK && offset + length != total) { return SizeMismatch; }
      var index := offset / CHUNK;
      if index >= chunks.count || ChunkLength(expected, index) != length { return SizeMismatch; }
      if chunks.states[index] != 0 { return Busy; }
      if chunks.active >= SLOTS { return Backpressure; }
      if alloc.None? { return IoError; }
      Stage(index, alloc, now);
      return Ok;
    }

    /** The assignments of an accepted upload_chunk_begin. */
    method Stage(index: nat, alloc: Option<Bytes>, now: nat)
      requires Shaped(View()) && index < chunks.count
      modifies `chunks, `lastActivity, `chunkTransport, `started
      ensures
        var g := old(chunks);
        var m := old(View()).(staging := g.(buffers := g.buffers[index := alloc], active := g.active + 1,
                                            states := g.states[index := 1], progress := g.progress[index := 0]),
                              lastActivity := now);
        View() == if old(started) then m else m.(chunkTransport := true, started := true)
    {
      StageBuffer(index, alloc);
      if !started {
        chunkTransport, started := true, true;
      }
      lastActivity := now;
    }

    method StageBuffer(index: nat, alloc: Option<Bytes>)
      requires Shaped(View()) && index < chunks.count
      modifies `chunks
      ensures
        var g := old(chunks);
        chunks == g.(buffers := g.buffers[index := alloc], active := g.active + 1,
                     states := g.states[index := 1], progress := g.progress[index := 0])
    {
      chunks := chunks.(buffers := chunks.buffers[index := alloc]);
      chunks := chunks.(active := chunks.active + 1);
      chunks := chunks.(states := chunks.states[index := 1]);
      chunks := chunks.(progress := chunks.progress[index := 0]);
    }

    method ChunkWrite(id: Bytes, offset: nat, data: Bytes, now: nat) returns (result: Result)
      requires Shaped(View())
      modifies `chunks, `received, `lastActivity
      ensures Out(result, View()) == U.ChunkWrite(old(View()), id, offset, data, now)
    {
      if data == [] { return Ok; }
      if !occupied || !started || session.id != id { return NotFound; }
      if offset >= expected || |data| > expected - offset { return SizeMismatch; }
      var index := offset / CHUNK;
      if index >= chunks.count || chunks.buffers[index].None? || chunks.states[index] != 1 { return Busy; }
      var relative := offset - index * CHUNK;
      var length := ChunkLength(expected, index);
      if relative != chunks.progress[index] || relative > length || |data| > length - relative { return SizeMismatch; }
      chunks := chunks.(buffers := chunks.buffers[index := Some(Fill(chunks.buffers[index].value, relative, data))],
                        progress := chunks.progress[index := chunks.progress[index] + |data|]);
      received, lastActivity := received + |data|, now;
      return Ok;
    }

    /** Giving a chunk back. */
    method Release(index: nat)
      requires Shaped(View()) && index < chunks.count
      modifies `chunks, `received
      ensures View() == U.Release(old(View()), index)
    {
      received := if received >= chunks.progress[index] then received - chunks.progress[index] else 0;
      chunks := chunks.(buffers := chunks.buffers[index := None]);
      if chunks.active > 0 { chunks := chunks.(active := chunks.active - 1); }
      chunks := chunks.(progress := chunks.progress[index := 0], states := chunks.states[index := 0]);
    }

    method ChunkFinish(id: Bytes, offset: nat, length: nat, now: nat) returns (result: Result)
      requires Shaped(View())
      modifies `chunks, `received, `lastActivity
      ensures Out(result, View()) == U.ChunkFinish(old(View()), id, offset, length, now)
    {
      if length == 0 { return Invalid; }
      if !occupied || !started || session.id != id { return NotFound; }
      if offset >= expected || offset % CHUNK != 0 { return SizeMismatch; }
      var index := offset / CHUNK;
      if index >= chunks.count || chunks.buffers[index].None? || chunks.states[index] != 1 { return Busy; }
      if ChunkLength(expected, index) != length || chunks.progress[index] != length {
        Release(index);
        return SizeMismatch;
      }
      chunks := chunks.(states := chunks.states[index := 2], completed := chunks.completed + 1);
      lastActivity := now;
      return Ok;
    }

    method ChunkAbort(id: Bytes, offset: nat, now: nat)
      requires Shaped(View())
      modifies `chunks, `received, `lastActivity
      ensures View() == U.ChunkAbort(old(View()), id, offset, now)
    {
      if occupied && started && session.id == id && offset < expected && offset % CHUNK == 0 {
        var index := offset / CHUNK;
        if index < chunks.count && chunks.states[index] == 1 {
          Release(index);
          lastActivity := now;
        }
      }
    }

    // ---------------------------------------------------------------- the writer thread

    method WriterStart()
      requires Shaped(View()) && WriterRuns(View())
      modifies `job
      ensures View() == U.WriterStart(old(View()))
    {
      if ring.queued == 0 {
        job := ChunkJob(chunks.next, ChunkLength(expected, chunks.next), 0);
      } else {
        job := RingJob(ring.head, ring.sizes[ring.head], 0);
      }
    }

    method RetireChunk(index: nat, errno: nat)
      requires StagingShape(chunks)
      modifies `chunks
      ensures chunks == RetiredChunk(old(chunks), index, errno)
    {
      if errno == 0 && index == chunks.next && index < chunks.count && chunks.buffers[index].Some? {
        chunks := chunks.(buffers := chunks.buffers[index := None]);
        chunks := chunks.(states := chunks.states[index := 3]);
        chunks := chunks.(next := chunks.next + 1);
        if chunks.active > 0 { chunks := chunks.(active := chunks.active - 1); }
      }
    }

    method RetireBuffer(index: nat)
      requires RingShape(ring)
      modifies `ring
      ensures ring == RetiredBuffer(old(ring), index)
    {
      if index < DEPTH { ring := ring.(sizes := ring.sizes[index := 0]); }
      ring := ring.(head := Wrap(ring.head, 1));
      if ring.queued > 0 { ring := ring.(queued := ring.queued - 1); }
    }

    /** One write(2) of write_all went through; its cursor is the only thing that moves. */
    method WriterWrote(k: nat)
      requires CanWrite(View(), k)
      modifies `job
      ensures View() == U.WriterWrote(old(View()), k)
    {
      match job
      case RingJob(index, size, written) => job := RingJob(index, size, written + k);
      case ChunkJob(index, size, written) => job := ChunkJob(index, size, written + k);
    }

    method WriterEnd(errno: nat)
      requires Shaped(View()) && job != NoJob
      modifies `chunks, `ring, `job, `error
      ensures View() == U.WriterEnd(old(View()), errno)
    {
      if job.ChunkJob? {
        RetireChunk(job.index, errno);
      } else {
        RetireBuffer(job.index);
      }
      job := NoJob;
      if errno != 0 && error == 0 {
        error := errno;
      }
    }

    method CompleteStart(id: Bytes, client: Bytes, authorization: Bytes) returns (result: Result)
      modifies `finalizing
      ensures Out(result, View()) == U.CompleteStart(old(View()), id, client, authorization)
    {
      if !occupied || session.id != id { return NotFound; }
      if session.client != client || session.authorization != authorization { return Forbidden; }
      if finalizing { return Busy; }
      if !started { return SizeMismatch; }
      if chunks.completed != chunks.count || received != expected { return SizeMismatch; }
      finalizing := true;
      return Ok;
    }

    // ---------------------------------------------------------------- cancelling

    /** upload_cancel, past its wait for an unlocked write and up to the wait of clear_slot. */
    method CancelStart(id: Bytes, client: Bytes, authorization: Bytes) returns (result: Result)
      modifies `discard
      ensures result == U.CancelCheck(old(View()), id, client, authorization)
      ensures View() == if result == Ok then U.ClearBegin(old(View())) else old(View())
    {
      if !occupied || session.id != id { return NotFound; }
      if session.client != client || session.authorization != authorization { return Forbidden; }
      if finalizing { return Busy; }
      ClearBegin();
      return Ok;
    }

    /** upload_abort, in the same way. */
    method AbortStart(id: Bytes)
      modifies `discard
      ensures View() == if U.AbortClears(old(View()), id) then U.ClearBegin(old(View())) else old(View())
    {
      if !finalizing && occupied && started && session.id == id { ClearBegin(); }
    }
  }
}
