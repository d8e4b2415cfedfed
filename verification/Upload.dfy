/**
  The upload manager of src/upload.c as a value, and each region between a lock (or a return from a condition
  wait) and the next unlock (or wait) as a function on that value. Randomness, clocks and the outcome of system
  calls are arguments. Class UploadManager runs the same regions in place; module UploadSystem interleaves them.
 */
module Upload {
  import opened Bytes
  import Sha256

  // src/upload.h
  const CAP: nat := 0x40_0000          // UPLOAD_WRITE_BUFFER_BYTES
  const DEPTH: nat := 4                // UPLOAD_WRITE_QUEUE_DEPTH
  const CHUNK: nat := 0x80_0000        // UPLOAD_CHUNK_BYTES
  const SLOTS: nat := 12               // UPLOAD_CHUNK_BUFFER_SLOTS

  // errno values the regions distinguish
  const ENOSPC: nat := 28
  const ECANCELED: nat := 125

  datatype Result =
    | Ok | Invalid | NotFound | Forbidden | Busy | TooLarge | StorageFull
    | IoError | SizeMismatch | HashMismatch | LimitReached | Backpressure

  /** The bounded queue of write buffers. Bytes of a slot beyond its size are left over from earlier use. */
  datatype Ring = Ring(head: nat, tail: nat, queued: nat, sizes: seq<nat>, slots: seq<Bytes>, buffered: nat)

  /** The chunk arrays. States: 0 free, 1 receiving, 2 complete in its buffer, 3 written. */
  datatype Staging = Staging(count: nat, completed: nat, states: seq<nat>, progress: seq<nat>,
                             buffers: seq<Option<Bytes>>, next: nat, active: nat)

  /** What the writer thread is doing outside the mutex, and how far its write_all has come. */
  datatype Job =
    | NoJob
    | RingJob(index: nat, size: nat, written: nat)
    | ChunkJob(index: nat, size: nat, written: nat)

  datatype Limits = Limits(maxFileBytes: nat, maxFiles: nat, lease: nat)

  datatype Manager = Manager(
    limits: Limits,
    completedFiles: nat,
    completedAuthorization: Bytes,
    occupied: bool,
    started: bool,
    fdOpen: bool,
    expected: nat,
    received: nat,
    lastActivity: nat,
    id: Bytes,
    client: Bytes,
    authorization: Bytes,
    finalName: Bytes,
    partName: Bytes,
    expectedHash: Bytes,
    sha: Sha256.Context,
    ring: Ring,
    discard: bool,
    error: nat,
    job: Job,
    direct: bool,
    staging: Staging,
    chunkTransport: bool,
    finalizing: bool,
    activeWrites: nat)

  datatype Out = Out(result: Result, m: Manager)

  function ErrorResult(error: nat): Result {
    if error == ENOSPC then StorageFull else IoError
  }

  /** Unsigned 64-bit subtraction. */
  function MinusU64(x: nat, y: nat): nat {
    if y <= x then x - y else (x - y) % U64_LIMIT
  }

  // ---------------------------------------------------------------- extents

  function ChunkCount(size: nat): nat {
    if size == 0 then 0 else (size - 1) / CHUNK + 1
  }

  /** chunk_length_for. */
  function ChunkLength(expected: nat, index: nat): (n: nat)
    ensures n <= CHUNK
  {
    var offset := index * CHUNK;
    if offset >= expected then 0
    else if expected - offset < CHUNK then expected - offset
    else CHUNK
  }

  // ---------------------------------------------------------------- clearing the slot

  const NO_STAGING: Staging := Staging(0, 0, [], [], [], 0, 0)

  function FreshStaging(count: nat): Staging {
    Staging(count, 0, seq(count, _ => 0), seq(count, _ => 0), seq(count, _ => None), 0, 0)
  }

  function Fill(buffer: Bytes, at: nat, data: Bytes): (b: Bytes)
    requires at + |data| <= |buffer|
    ensures |b| == |buffer|
    ensures b[..at] == buffer[..at] && b[at..at + |data|] == data && b[at + |data|..] == buffer[at + |data|..]
  {
    buffer[..at] + data + buffer[at + |data|..]
  }

  /** clear_slot up to its wait. */
  function ClearBegin(m: Manager): Manager { m.(discard := true) }

  /** Ring positions count modulo UPLOAD_WRITE_QUEUE_DEPTH. */
  function Wrap(position: nat, step: nat): (p: nat)
    ensures p < DEPTH
  {
    (position + step) % 4
  }

  lemma WrapNextTail(h: nat, k: nat)
    ensures Wrap(Wrap(h, k), 1) == Wrap(h, k + 1)
  {
  }

  predicate RingShape(r: Ring) {
    && |r.sizes| == DEPTH && |r.slots| == DEPTH
    && (forall i :: 0 <= i < DEPTH ==> |r.slots[i]| == CAP && r.sizes[i] <= CAP)
    && r.head < DEPTH && r.queued <= DEPTH && r.tail == Wrap(r.head, r.queued) && r.buffered <= CAP
  }

  predicate StagingShape(g: Staging) {
    |g.states| == g.count && |g.progress| == g.count && |g.buffers| == g.count
  }

  /** The memory layout of the struct: array lengths, and chunk buffers of the length of their chunk. */
  predicate Shaped(m: Manager) {
    && RingShape(m.ring)
    && StagingShape(m.staging)
    && (forall i :: 0 <= i < m.staging.count && m.staging.buffers[i].Some? ==>
          |m.staging.buffers[i].value| == ChunkLength(m.expected, i))
    && Sha256.WellFormed(m.sha)
  }

  function ClearRing(r: Ring): (r': Ring)
    requires RingShape(r)
    ensures RingShape(r')
  {
    var slots := if r.buffered > 0 then r.slots[r.tail := Fill(r.slots[r.tail], 0, Zeros(r.buffered))] else r.slots;
    Ring(0, 0, 0, [0, 0, 0, 0], slots, 0)
  }

  /** clear_slot after its wait; it ran only once the writer was idle. */
  function ClearEnd(m: Manager): (m': Manager)
    requires RingShape(m.ring)
    ensures Shaped(m')
  {
    m.(ring := ClearRing(m.ring), error := 0, fdOpen := false, occupied := false, started := false, expected := 0,
       received := 0, lastActivity := 0, id := [], client := [], authorization := [], finalName := [],
       partName := [], expectedHash := [], sha := Sha256.ZEROED, staging := NO_STAGING, chunkTransport := false,
       finalizing := false, activeWrites := 0, direct := false, discard := false)
  }

  /** The condition of reap_locked. */
  predicate LeaseExpired(m: Manager, now: nat) {
    && !m.finalizing && m.activeWrites == 0 && m.occupied && m.lastActivity != 0
    && now >= m.lastActivity && now - m.lastActivity >= m.limits.lease
  }

  predicate BindingMatches(m: Manager, client: Bytes, authorization: Bytes) {
    m.client == client && m.authorization == authorization
  }

  // ---------------------------------------------------------------- part names

  // .ps5localsend-
  const PART_MARKER: Bytes := [0x2e, 0x70, 0x73, 0x35, 0x6c, 0x6f, 0x63, 0x61, 0x6c, 0x73, 0x65, 0x6e, 0x64, 0x2d]
  const PART_SUFFIX: Bytes := [0x2e, 0x70, 0x61, 0x72, 0x74]  // .part

  predicate HexId(id: Bytes) {
    |id| == 32 && forall i :: 0 <= i < 32 ==> 0x30 <= id[i] <= 0x39 || 0x61 <= id[i] <= 0x66
  }

  function PartName(id: Bytes): Bytes { PART_MARKER + id + PART_SUFFIX }

  /** managed_part_name. */
  predicate IsPartName(name: Bytes) {
    |name| == 51 && HexId(name[14..46]) && name == PartName(name[14..46])
  }

  lemma PartNameParses(id: Bytes)
    requires HexId(id)
    ensures IsPartName(PartName(id)) && PartName(id)[14..46] == id
  {
    assert PartName(id)[14..46] == id;
  }

  // ---------------------------------------------------------------- upload_prepare

  datatype Request = Request(client: Bytes, authorization: Bytes, name: Bytes, size: nat, hash: Bytes)

  /** What the system calls of upload_prepare answered, the random id, and whether the paths fit their buffers. */
  datatype PrepareEnv = PrepareEnv(spaceOk: bool, unique: Option<Bytes>, joinOk: bool, id: Option<Bytes>,
                                   partFits: bool, openError: nat, reserveError: nat, arraysOk: bool)

  /** A prepared upload of another session that never started gives way: upload_prepare clears it first. */
  predicate Superseded(m: Manager, authorization: Bytes) {
    m.occupied && !m.started && m.authorization != authorization
  }

  /** The manager fields upload_prepare writes before it opens the part file. */
  function PrepareNames(m: Manager, r: Request, e: PrepareEnv): (out: Out)
    ensures out.m.ring == m.ring
  {
    if m.occupied then Out(Busy, m)
    else
      var m := if m.completedAuthorization != r.authorization
               then m.(completedFiles := 0, completedAuthorization := r.authorization) else m;
      if m.completedFiles >= m.limits.maxFiles then Out(LimitReached, m)
      else if !e.spaceOk then Out(StorageFull, m)
      else if e.unique.None? then Out(IoError, m)
      else
        var m := m.(finalName := e.unique.value);
        if !e.joinOk || e.id.None? then Out(IoError, m)
        else
          var m := m.(id := e.id.value);
          if !e.partFits then Out(IoError, m) else Out(Ok, m.(partName := PartName(e.id.value)))
  }

  /** upload_prepare under the mutex, before its failure cleanup. A refused open leaves fd at -1. */
  function PrepareOpen(m: Manager, r: Request, e: PrepareEnv, now: nat): (out: Out)
    ensures out.m.ring == m.ring
  {
    var out := PrepareNames(m, r, e);
    if out.result != Ok then out
    else if e.openError != 0 then Out(ErrorResult(e.openError), out.m)
    else
      var m := out.m.(fdOpen := true);
      if e.reserveError != 0 then Out(ErrorResult(e.reserveError), m)
      else if ChunkCount(r.size) > 0 && !e.arraysOk then Out(IoError, m)
      else
        Out(Ok, m.(occupied := true, expected := r.size, staging := FreshStaging(ChunkCount(r.size)),
                   lastActivity := now, client := r.client, authorization := r.authorization,
                   expectedHash := r.hash))
  }

  /**
    upload_prepare after reaping and superseding. The cleanup runs for every failure that leaves `fd` open, and that
    includes Busy, where `fd` belongs to the upload already in the slot.
   */
  function Prepare(m: Manager, r: Request, e: PrepareEnv, now: nat): Out
    requires Shaped(m)
  {
    if r.size > m.limits.maxFileBytes then Out(TooLarge, m)
    else
      var out := PrepareOpen(m, r, e, now);
      if out.result != Ok && out.m.fdOpen then Out(out.result, ClearEnd(out.m)) else out
  }

  // ---------------------------------------------------------------- the queued stream

  /** upload_begin. */
  function Begin(m: Manager, id: Bytes, client: Bytes, authorization: Bytes, length: nat, now: nat): (out: Out)
    ensures Shaped(m) ==> Shaped(out.m)
  {
    if !m.occupied || m.id != id then Out(NotFound, m)
    else if !BindingMatches(m, client, authorization) then Out(Forbidden, m)
    else if m.started || m.chunkTransport then Out(Busy, m)
    else if length != m.expected then Out(SizeMismatch, m)
    else Out(Ok, m.(chunkTransport := false, started := true, lastActivity := now, sha := Sha256.ContextOf([])))
  }

  /** The checks at the head of upload_write. */
  function WriteCheck(m: Manager, id: Bytes, size: nat): Result {
    if !m.occupied || !m.started || m.id != id then NotFound
    else if size > MinusU64(m.expected, m.received) then SizeMismatch
    else Ok
  }

  datatype Enqueued = Enqueued(error: nat, ring: Ring)

  /** enqueue_write_buffer_locked, once it no longer waits. */
  function Enqueue(r: Ring, error: nat, discard: bool): (q: Enqueued)
    requires RingShape(r)
    ensures r.queued < DEPTH ==> RingShape(q.ring)
  {
    WrapNextTail(r.head, r.queued);
    if r.buffered == 0 then Enqueued(0, r)
    else if error != 0 then Enqueued(error, r)
    else if discard then Enqueued(ECANCELED, r)
    else Enqueued(0, r.(sizes := r.sizes[r.tail := r.buffered], tail := Wrap(r.tail, 1),
                        queued := r.queued + 1, buffered := 0))
  }

  /** How much of `data` one turn of the loop of upload_write takes. */
  function TurnCount(r: Ring, data: Bytes): (n: nat)
    requires r.buffered <= CAP
    ensures n <= |data|
  {
    if |data| < CAP - r.buffered then |data| else CAP - r.buffered
  }

  /** memcpy into the tail buffer. */
  function FillTail(r: Ring, data: Bytes): (r': Ring)
    requires RingShape(r) && r.buffered + |data| <= CAP
    ensures RingShape(r')
  {
    r.(slots := r.slots[r.tail := Fill(r.slots[r.tail], r.buffered, data)], buffered := r.buffered + |data|)
  }

  /** The copy of one turn: memcpy, hash update and counters. */
  function Taken(m: Manager, piece: Bytes, now: nat): Manager
    requires Shaped(m) && m.ring.buffered + |piece| <= CAP
  {
    m.(ring := FillTail(m.ring, piece), sha := Sha256.Absorb(m.sha, piece), received := m.received + |piece|,
       lastActivity := now)
  }

  /** One turn of the loop of upload_write, entered with room in the queue or with a writer error. */
  function WriteTurn(m: Manager, data: Bytes, now: nat): (out: Out)
    requires Shaped(m) && (m.error == 0 ==> m.ring.queued < DEPTH)
    ensures Shaped(out.m)
  {
    if m.error != 0 then Out(ErrorResult(m.error), m)
    else
      var m1 := Taken(m, data[..TurnCount(m.ring, data)], now);
      if m1.ring.buffered != CAP then Out(Ok, m1)
      else
        var q := Enqueue(m1.ring, m1.error, m1.discard);
        Out(if q.error == 0 then Ok else ErrorResult(q.error), m1.(ring := q.ring))
  }

  // ---------------------------------------------------------------- the direct stream

  /** upload_enable_direct_stream. */
  function EnableDirect(m: Manager, id: Bytes): Out {
    if !m.occupied || !m.started || m.id != id then Out(NotFound, m)
    else if m.chunkTransport || m.received != 0 || m.ring.buffered != 0 || m.ring.queued != 0 || m.job != NoJob then
      Out(Busy, m)
    else Out(Ok, m.(direct := true))
  }

  /** upload_write_direct up to its unlocked write. */
  function DirectStart(m: Manager, id: Bytes, size: nat, now: nat): Out {
    if !m.occupied || !m.started || m.id != id then Out(NotFound, m)
    else if !m.direct then Out(Busy, m)
    else if size > MinusU64(m.expected, m.received) then Out(SizeMismatch, m)
    else if m.activeWrites != 0 then Out(Busy, m)
    else Out(Ok, m.(activeWrites := m.activeWrites + 1, lastActivity := now))
  }

  /** upload_write_direct after its unlocked write. */
  function DirectEnd(m: Manager, size: nat, error: nat, now: nat): Out {
    var m1 := m.(activeWrites := if m.activeWrites > 0 then m.activeWrites - 1 else 0);
    if error != 0 then Out(ErrorResult(error), m1.(error := error))
    else Out(Ok, m1.(received := m.received + size, lastActivity := now))
  }

  // ---------------------------------------------------------------- the chunked transport

  /** The extent test of upload_chunk_begin, before the index is known. */
  predicate ExtentFits(expected: nat, total: nat, offset: nat, length: nat) {
    !(total != expected || offset >= total || length > total - offset || offset % CHUNK != 0 ||
      (length != CHUNK && offset + length != total))
  }

  /** upload_chunk_begin; `alloc` is what malloc returned, with whatever bytes were there. */
  function ChunkBegin(m: Manager, id: Bytes, client: Bytes, authorization: Bytes, total: nat, offset: nat,
                      length: nat, alloc: Option<Bytes>, now: nat): Out
    requires Shaped(m) && (alloc.Some? ==> |alloc.value| == length)
  {
    if length == 0 then Out(Invalid, m)
    else if !m.occupied || m.id != id then Out(NotFound, m)
    else if !BindingMatches(m, client, authorization) then Out(Forbidden, m)
    else if m.finalizing then Out(Busy, m)
    else if m.started && !m.chunkTransport then Out(Busy, m)
    else if !ExtentFits(m.expected, total, offset, length) then Out(SizeMismatch, m)
    else
      var index := offset / CHUNK;
      var g := m.staging;
      if index >= g.count || ChunkLength(m.expected, index) != length then Out(SizeMismatch, m)
      else if g.states[index] != 0 then Out(Busy, m)
      else if g.active >= SLOTS then Out(Backpressure, m)
      else if alloc.None? then Out(IoError, m)
      else
        var g1 := g.(buffers := g.buffers[index := alloc], active := g.active + 1,
                     states := g.states[index := 1], progress := g.progress[index := 0]);
        var m1 := m.(staging := g1, lastActivity := now);
        Out(Ok, if !m.started then m1.(chunkTransport := true, started := true) else m1)
  }

  /** A chunk that has a buffer and still takes bytes. */
  predicate Receiving(g: Staging, index: nat)
    requires StagingShape(g)
  {
    index < g.count && g.buffers[index].Some? && g.states[index] == 1
  }

  /** upload_chunk_write. */
  function ChunkWrite(m: Manager, id: Bytes, offset: nat, data: Bytes, now: nat): Out
    requires Shaped(m)
  {
    if data == [] then Out(Ok, m)
    else if !m.occupied || !m.started || m.id != id then Out(NotFound, m)
    else if offset >= m.expected || |data| > m.expected - offset then Out(SizeMismatch, m)
    else
      var index := offset / CHUNK;
      var g := m.staging;
      if !Receiving(g, index) then Out(Busy, m)
      else
        var relative := offset - index * CHUNK;
        var length := ChunkLength(m.expected, index);
        var buffer := g.buffers[index].value;
        if relative != g.progress[index] || relative > length || |data| > length - relative then Out(SizeMismatch, m)
        else
          var g1 := g.(buffers := g.buffers[index := Some(Fill(buffer, relative, data))],
                       progress := g.progress[index := g.progress[index] + |data|]);
          Out(Ok, m.(staging := g1, received := m.received + |data|, lastActivity := now))
  }

  /** Giving a chunk back: its buffer is freed and its bytes no longer count as received. */
  function Release(m: Manager, index: nat): Manager
    requires Shaped(m) && index < m.staging.count
  {
    var g := m.staging;
    var g1 := g.(buffers := g.buffers[index := None], active := if g.active > 0 then g.active - 1 else 0,
                 progress := g.progress[index := 0], states := g.states[index := 0]);
    m.(staging := g1, received := if m.received >= g.progress[index] then m.received - g.progress[index] else 0)
  }

  /** upload_chunk_finish. */
  function ChunkFinish(m: Manager, id: Bytes, offset: nat, length: nat, now: nat): Out
    requires Shaped(m)
  {
    if length == 0 then Out(Invalid, m)
    else if !m.occupied || !m.started || m.id != id then Out(NotFound, m)
    else if offset >= m.expected || offset % CHUNK != 0 then Out(SizeMismatch, m)
    else
      var index := offset / CHUNK;
      var g := m.staging;
      if !Receiving(g, index) then Out(Busy, m)
      else if ChunkLength(m.expected, index) != length || g.progress[index] != length then
        Out(SizeMismatch, Release(m, index))
      else
        Out(Ok, m.(staging := g.(states := g.states[index := 2], completed := g.completed + 1), lastActivity := now))
  }

  /** upload_chunk_abort. */
  function ChunkAbort(m: Manager, id: Bytes, offset: nat, now: nat): Manager
    requires Shaped(m)
  {
    if m.occupied && m.started && m.id == id && offset < m.expected && offset % CHUNK == 0 then
      var index := offset / CHUNK;
      if index < m.staging.count && m.staging.states[index] == 1 then Release(m, index).(lastActivity := now) else m
    else m
  }

  // ---------------------------------------------------------------- the writer thread

  /** chunk_ready_for_writer_locked. */
  predicate ChunkReady(m: Manager)
    requires Shaped(m)
  {
    var g := m.staging;
    m.chunkTransport && g.next < g.count && g.states[g.next] == 2 && g.buffers[g.next].Some?
  }

  /** The writer leaves its wait loop. */
  predicate WriterRuns(m: Manager)
    requires Shaped(m)
  {
    m.job == NoJob && !m.discard && m.error == 0 && (m.ring.queued != 0 || ChunkReady(m))
  }

  function WriterStart(m: Manager): Manager
    requires Shaped(m) && WriterRuns(m)
  {
    if m.ring.queued == 0 then
      m.(job := ChunkJob(m.staging.next, ChunkLength(m.expected, m.staging.next), 0))
    else
      m.(job := RingJob(m.ring.head, m.ring.sizes[m.ring.head], 0))
  }

  /** The memory the writer's pointer refers to now; None once it was freed. */
  function JobBuffer(m: Manager): Option<Bytes> {
    match m.job
    case NoJob => None
    case RingJob(i, _, _) => if i < |m.ring.slots| then Some(m.ring.slots[i]) else None
    case ChunkJob(i, _, _) => if i < |m.staging.buffers| then m.staging.buffers[i] else None
  }

  /** write(2) can take `k` more bytes of the job from live memory. */
  predicate CanWrite(m: Manager, k: nat) {
    m.job != NoJob && m.job.written + k <= m.job.size && JobBuffer(m).Some? && m.job.size <= |JobBuffer(m).value|
  }

  function WrittenNow(m: Manager, k: nat): (b: Bytes)
    requires CanWrite(m, k)
    ensures |b| == k
  {
    JobBuffer(m).value[m.job.written..m.job.written + k]
  }

  function WriterWrote(m: Manager, k: nat): Manager
    requires CanWrite(m, k)
  {
    match m.job
    case NoJob => m
    case RingJob(i, n, w) => m.(job := RingJob(i, n, w + k))
    case ChunkJob(i, n, w) => m.(job := ChunkJob(i, n, w + k))
  }

  /** A written chunk: its buffer is freed. The comparison of the source holds whenever the buffer is still there. */
  function RetiredChunk(g: Staging, i: nat, error: nat): Staging
    requires StagingShape(g)
  {
    if error == 0 && i == g.next && i < g.count && g.buffers[i].Some? then
      g.(buffers := g.buffers[i := None], states := g.states[i := 3], next := g.next + 1,
         active := if g.active > 0 then g.active - 1 else 0)
    else g
  }

  /** A written queue buffer leaves the front, whether the write succeeded or not. */
  function RetiredBuffer(r: Ring, i: nat): Ring
    requires RingShape(r)
  {
    r.(sizes := if i < DEPTH then r.sizes[i := 0] else r.sizes, head := Wrap(r.head, 1),
       queued := if r.queued > 0 then r.queued - 1 else 0)
  }

  /** The writer back under the mutex. */
  function WriterEnd(m: Manager, error: nat): Manager
    requires Shaped(m) && m.job != NoJob
  {
    m.(staging := if m.job.ChunkJob? then RetiredChunk(m.staging, m.job.index, error) else m.staging,
       ring := if m.job.RingJob? then RetiredBuffer(m.ring, m.job.index) else m.ring,
       job := NoJob, error := if error != 0 && m.error == 0 then error else m.error)
  }

  // ---------------------------------------------------------------- finishing

  /** The checks at the head of upload_finish_with_metrics. */
  function FinishCheck(m: Manager, id: Bytes): Result {
    if !m.occupied || !m.started || m.id != id then NotFound
    else if m.received != m.expected then SizeMismatch
    else if m.error != 0 then ErrorResult(m.error)
    else Ok
  }

  /** upload_finish_chunks_with_metrics up to its wait. */
  function CompleteStart(m: Manager, id: Bytes, client: Bytes, authorization: Bytes): Out {
    if !m.occupied || m.id != id then Out(NotFound, m)
    else if !BindingMatches(m, client, authorization) then Out(Forbidden, m)
    else if m.finalizing then Out(Busy, m)
    else if !m.started then Out(SizeMismatch, m)
    else if m.staging.completed != m.staging.count || m.received != m.expected then Out(SizeMismatch, m)
    else Out(Ok, m.(finalizing := true))
  }

  // ---------------------------------------------------------------- cancelling

  /** upload_cancel, past its wait for an unlocked write and up to clear_slot, which it calls when the answer is Ok. */
  function CancelCheck(m: Manager, id: Bytes, client: Bytes, authorization: Bytes): Result {
    if !m.occupied || m.id != id then NotFound
    else if !BindingMatches(m, client, authorization) then Forbidden
    else if m.finalizing then Busy
    else Ok
  }

  /** upload_abort, past the same wait: whether it calls clear_slot. */
  predicate AbortClears(m: Manager, id: Bytes) { !m.finalizing && m.occupied && m.started && m.id == id }
}
