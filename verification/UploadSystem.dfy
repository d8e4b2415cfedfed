/**
  The upload manager with everything that runs against it: the connection that streams an upload, chunk requests,
  the writer thread, hash passes, cancellations, and the destination directory. `Do` is one atomic step.

  Two rules bound the interleavings. A stream belongs to the connection whose upload_begin succeeded, which makes
  its calls one after another (src/server.c:196-301). And a stream call that clear_slot overtakes while it is
  parked or writing does not go on: the source never rechecks the id there, and past that point promises nothing.
  Module UploadOvertaken shows what it would do.
 */
module UploadSystem {
  import opened Bytes
  import opened Upload
  import opened UploadRing
  import opened UploadStaging
  import Sha256

  type Directory = map<Bytes, Bytes>

  /** The connection that owns the running stream. */
  datatype Stream =
    | NoStream
    | Open
    | Writing(rest: Bytes)                // inside upload_write
    | Direct(data: Bytes, written: nat)   // inside the unlocked write of upload_write_direct
    | Draining                            // inside upload_finish, waiting for the queue

  /** A call that finishes an upload by reading its part file back. */
  datatype Finisher =
    | Waiting(id: Bytes)
    | Hashing(id: Bytes, chunked: bool, position: nat, context: Sha256.Context)

  datatype Published = Published(name: Bytes, content: Bytes, expected: nat, declared: Bytes, digest: Bytes)

  /** `accepted` and `pieces` are history: the stream bytes, or each chunk's bytes, that calls took in. */
  datatype System = System(m: Manager, dir: Directory, stream: Stream, finishers: seq<Finisher>,
                           accepted: Bytes, pieces: seq<Bytes>, log: seq<Published>, used: set<Bytes>)

  function File(s: System): Bytes {
    if s.m.partName in s.dir then s.dir[s.m.partName] else []
  }

  /** The payload of the running upload. */
  function Payload(s: System): Bytes {
    if s.m.chunkTransport then Concat(s.pieces) else s.accepted
  }

  // ---------------------------------------------------------------- publication

  /** What link(2) or rename(2) did. */
  datatype PublishMode = Linked(unlinked: bool) | Renamed | Refused

  /** publish_part and the unlink after a hard link. */
  function PublishPart(dir: Directory, part: Bytes, name: Bytes, mode: PublishMode): (r: Option<Directory>)
    requires part in dir
  {
    if name in dir then None
    else
      match mode
      case Refused => None
      case Linked(unlinked) => Some(if unlinked then dir[name := dir[part]] - {part} else dir[name := dir[part]])
      case Renamed => Some(dir[name := dir[part]] - {part})
  }

  datatype FinishEnv = FinishEnv(syncOk: bool, closeOk: bool, mode: PublishMode, unlinkOk: bool)

  /** clear_slot with the writer idle, leaving the given directory and log. */
  function Emptied(s: System, m: Manager, dir: Directory, log: seq<Published>): System
    requires RingShape(m.ring)
  {
    s.(m := ClearEnd(m), dir := dir, stream := NoStream, accepted := [], pieces := [], log := log)
  }

  /** clear_slot(manager, 1) with the writer idle. */
  function Vacate(s: System, unlinkOk: bool): System
    requires Shaped(s.m)
  {
    Emptied(s, s.m, if unlinkOk && s.m.partName != [] then s.dir - {s.m.partName} else s.dir, s.log)
  }

  /** The hash comparison, fsync and close succeed, and the name is still free. */
  function Publishes(s: System, digest: Bytes, e: FinishEnv): Option<Directory>
    requires s.m.partName in s.dir
  {
    if (s.m.expectedHash != [] && s.m.expectedHash != digest) || !e.syncOk || !e.closeOk then None
    else PublishPart(s.dir, s.m.partName, s.m.finalName, e.mode)
  }

  /** From the hash comparison to the end of either finish function. */
  function Conclude(s: System, digest: Bytes, e: FinishEnv): System
    requires Shaped(s.m) && s.m.partName in s.dir
  {
    match Publishes(s, digest, e)
    case None => Vacate(s, e.unlinkOk)
    case Some(dir) =>
      Emptied(s, s.m.(completedFiles := s.m.completedFiles + 1), dir,
              s.log + [Published(s.m.finalName, File(s), s.m.expected, s.m.expectedHash, digest)])
  }

  // ---------------------------------------------------------------- steps

  datatype Step =
    | PrepareStep(r: Request, pe: PrepareEnv, now: nat, unlinkOk: bool)
    | BeginStep(id: Bytes, client: Bytes, authorization: Bytes, length: nat, now: nat)
    | EnableDirectStep
    | WriteCall(data: Bytes, now: nat)
    | WriteTurnStep(now: nat)
    | DirectCall(data: Bytes, now: nat)
    | DirectWrote(k: nat)
    | DirectDone(error: nat, now: nat)
    | ChunkBeginStep(id: Bytes, client: Bytes, authorization: Bytes, total: nat, offset: nat, length: nat,
                     alloc: Option<Bytes>, now: nat)
    | ChunkWriteStep(id: Bytes, offset: nat, data: Bytes, now: nat)
    | ChunkFinishStep(id: Bytes, offset: nat, length: nat, now: nat)
    | ChunkAbortStep(id: Bytes, offset: nat, now: nat)
    | WriterStartStep
    | WriterWroteStep(k: nat)
    | WriterEndStep(error: nat)
    | FinishCall(now: nat)
    | FinishDrained(fe: FinishEnv)
    | CompleteCall(id: Bytes, client: Bytes, authorization: Bytes, now: nat)
    | CompleteReady(f: nat)
    | HashRead(f: nat, k: nat)
    | HashDone(f: nat, readOk: bool, fe: FinishEnv)
    | ClearBeginStep
    | ClearEndStep(unlinkOk: bool)
    | Outside(name: Bytes, content: Option<Bytes>)

  /** upload_prepare. A random id is fresh, and the chosen name is not a part name; clearing waits for the writer. */
  function DoPrepare(s: System, r: Request, e: PrepareEnv, now: nat, unlinkOk: bool): Option<System>
    requires Shaped(s.m)
  {
    if Superseded(s.m, r.authorization) || s.m.job != NoJob ||
       (e.id.Some? && (e.id.value in s.used || !HexId(e.id.value))) ||
       (e.unique.Some? && IsPartName(e.unique.value))
    then None
    else
      var out := Prepare(s.m, r, e, now);
      var used := if e.id.Some? then s.used + {e.id.value} else s.used;
      if out.result == Ok then
        Some(s.(m := out.m, dir := s.dir[out.m.partName := []], used := used,
                pieces := NoPieces(ChunkCount(r.size))))
      else if s.m.occupied && out.result == Busy then
        Some(Vacate(s, unlinkOk).(used := used))   // RefusedPrepareClears: out.m is the cleared manager
      else
        Some(s.(m := out.m, used := used,
                dir := if CreatedPart(s.m, r, e) && !unlinkOk then s.dir[PartName(e.id.value) := []] else s.dir))
  }

  /** upload_prepare got as far as creating the part file. */
  predicate CreatedPart(m: Manager, r: Request, e: PrepareEnv) {
    r.size <= m.limits.maxFileBytes && PrepareNames(m, r, e).result == Ok && e.openError == 0 && e.id.Some?
  }

  function DoBegin(s: System, id: Bytes, client: Bytes, authorization: Bytes, length: nat, now: nat): Option<System> {
    var out := Begin(s.m, id, client, authorization, length, now);
    Some(s.(m := out.m, stream := if out.result == Ok then Open else s.stream))
  }

  function DoEnableDirect(s: System): Option<System> {
    if s.stream != Open then None
    else
      var out := EnableDirect(s.m, s.m.id);
      Some(s.(m := out.m, stream := if out.result == Ok then Open else NoStream))
  }

  function DoWriteCall(s: System, data: Bytes): Option<System> {
    if s.stream != Open || s.m.direct then None
    else if WriteCheck(s.m, s.m.id, |data|) != Ok then Some(s.(stream := NoStream))
    else if data == [] then Some(s)
    else Some(s.(stream := Writing(data)))
  }

  function DoWriteTurn(s: System, now: nat): Option<System>
    requires Shaped(s.m)
  {
    if !s.stream.Writing? || (s.m.ring.queued == DEPTH && s.m.error == 0) then None
    else
      var rest := s.stream.rest;
      var out := WriteTurn(s.m, rest, now);
      var n := if s.m.error == 0 then TurnCount(s.m.ring, rest) else 0;
      var stream := if out.result != Ok then NoStream else if n == |rest| then Open else Writing(rest[n..]);
      Some(s.(m := out.m, accepted := s.accepted + rest[..n], stream := stream))
  }

  function DoDirectCall(s: System, data: Bytes, now: nat): Option<System> {
    if s.stream != Open || !s.m.direct || data == [] then None
    else
      var out := DirectStart(s.m, s.m.id, |data|, now);
      Some(s.(m := out.m, stream := if out.result == Ok then Direct(data, 0) else NoStream))
  }

  function DoDirectWrote(s: System, k: nat): Option<System> {
    if !s.stream.Direct? || s.stream.written + k > |s.stream.data| || s.m.partName !in s.dir then None
    else
      var w := s.stream.written;
      Some(s.(dir := s.dir[s.m.partName := File(s) + s.stream.data[w..w + k]], stream := Direct(s.stream.data, w + k)))
  }

  /** write_all fails only while bytes are left, and succeeds only when none are. */
  function DoDirectDone(s: System, error: nat, now: nat): Option<System> {
    if !s.stream.Direct? || (error == 0 <==> s.stream.written != |s.stream.data|) then None
    else
      var out := DirectEnd(s.m, |s.stream.data|, error, now);
      Some(s.(m := out.m, stream := if error == 0 then Open else NoStream,
              accepted := if error == 0 then s.accepted + s.stream.data else s.accepted))
  }

  function DoChunkBegin(s: System, id: Bytes, client: Bytes, authorization: Bytes, total: nat, offset: nat,
                        length: nat, alloc: Option<Bytes>, now: nat): Option<System>
    requires Shaped(s.m)
  {
    if alloc.Some? && |alloc.value| != length then None
    else Some(s.(m := ChunkBegin(s.m, id, client, authorization, total, offset, length, alloc, now).m))
  }

  function DoChunkWrite(s: System, id: Bytes, offset: nat, data: Bytes, now: nat): Option<System>
    requires Shaped(s.m)
  {
    var out := ChunkWrite(s.m, id, offset, data, now);
    var i := offset / CHUNK;
    Some(s.(m := out.m,
            pieces := if out.result == Ok && data != [] && i < |s.pieces| then s.pieces[i := s.pieces[i] + data]
                      else s.pieces))
  }

  function DoChunkFinish(s: System, id: Bytes, offset: nat, length: nat, now: nat): Option<System>
    requires Shaped(s.m)
  {
    var out := ChunkFinish(s.m, id, offset, length, now);
    var i := offset / CHUNK;
    Some(s.(m := out.m, pieces := ReleasedPieces(s, out.m, i)))
  }

  function DoChunkAbort(s: System, id: Bytes, offset: nat, now: nat): Option<System>
    requires Shaped(s.m)
  {
    var m := ChunkAbort(s.m, id, offset, now);
    Some(s.(m := m, pieces := ReleasedPieces(s, m, offset / CHUNK)))
  }

  /** The accepted bytes of a chunk are forgotten when its state goes back to 0. */
  function ReleasedPieces(s: System, m: Manager, i: nat): seq<Bytes>
  {
    var g, g' := s.m.staging, m.staging;
    if i < |s.pieces| && i < |g.states| && i < |g'.states| && g.states[i] != 0 && g'.states[i] == 0
    then s.pieces[i := []]
    else s.pieces
  }

  function DoWriterStart(s: System): Option<System>
    requires Shaped(s.m)
  {
    if WriterRuns(s.m) then Some(s.(m := WriterStart(s.m))) else None
  }

  /** One write(2) of the writer thread, from whatever its buffer holds at that moment. */
  function DoWriterWrote(s: System, k: nat): Option<System> {
    if !CanWrite(s.m, k) || s.m.partName !in s.dir then None
    else Some(s.(m := WriterWrote(s.m, k), dir := s.dir[s.m.partName := File(s) + WrittenNow(s.m, k)]))
  }

  function DoWriterEnd(s: System, error: nat): Option<System>
    requires Shaped(s.m)
  {
    if s.m.job == NoJob || (error == 0 <==> s.m.job.written != s.m.job.size) then None
    else Some(s.(m := WriterEnd(s.m, error)))
  }

  /** upload_finish_with_metrics up to its wait or its hash pass; a failed check starts clearing the slot. */
  function DoFinishCall(s: System): Option<System>
    requires Shaped(s.m)
  {
    if s.stream != Open then None
    else if FinishCheck(s.m, s.m.id) != Ok then Some(s.(m := ClearBegin(s.m), stream := NoStream))
    else if s.m.direct then
      Some(s.(m := s.m.(finalizing := true), stream := NoStream,
              finishers := s.finishers + [Hashing(s.m.id, false, 0, Sha256.ContextOf([]))]))
    else if s.m.ring.buffered > 0 && s.m.ring.queued == DEPTH then None
    else
      var q := Enqueue(s.m.ring, s.m.error, s.m.discard);
      if q.error != 0 then Some(s.(m := ClearBegin(s.m), stream := NoStream))
      else Some(s.(m := s.m.(ring := q.ring), stream := Draining))
  }

  function DoFinishDrained(s: System, e: FinishEnv): Option<System>
    requires Shaped(s.m)
  {
    if s.stream != Draining || s.m.partName !in s.dir || s.m.job != NoJob then None
    else if s.m.error != 0 then Some(Vacate(s, e.unlinkOk))
    else if s.m.ring.queued != 0 then None
    else Some(Conclude(s, Sha256.Hex(Sha256.Finish(s.m.sha)), e))
  }

  function DoCompleteCall(s: System, id: Bytes, client: Bytes, authorization: Bytes): Option<System> {
    var out := CompleteStart(s.m, id, client, authorization);
    Some(s.(m := out.m, finishers := if out.result == Ok then s.finishers + [Waiting(id)] else s.finishers))
  }

  /** The wait of upload_finish_chunks ends on a writer error or when every chunk is written. */
  function DoCompleteReady(s: System, f: nat): Option<System> {
    if f >= |s.finishers| || !s.finishers[f].Waiting? then None
    else
      var id := s.finishers[f].id;
      if s.m.error != 0 then
        Some(s.(finishers := Without(s.finishers, f),
                m := if s.m.occupied && s.m.id == id then ClearBegin(s.m) else s.m))
      else if s.m.staging.next != s.m.staging.count then None
      else Some(s.(finishers := s.finishers[f := Hashing(id, true, 0, Sha256.ContextOf([]))]))
  }

  function Without(fs: seq<Finisher>, f: nat): seq<Finisher>
    requires f < |fs|
  {
    fs[..f] + fs[f + 1..]
  }

  /** One read(2) of hash_part_file. */
  function DoHashRead(s: System, f: nat, k: nat): Option<System> {
    if f >= |s.finishers| || !s.finishers[f].Hashing? || !s.m.occupied || s.m.id != s.finishers[f].id then None
    else
      var Hashing(id, chunked, position, context) := s.finishers[f];
      if position + k > |File(s)| || !Sha256.WellFormed(context) then None
      else
        var context' := Sha256.Absorb(context, File(s)[position..position + k]);
        Some(s.(finishers := s.finishers[f := Hashing(id, chunked, position + k, context')]))
  }

  /** The upload a hash pass was for is gone, or its finalization was taken away. */
  predicate Stale(m: Manager, id: Bytes) { !m.occupied || m.id != id || !m.finalizing }

  /** What a stale finisher still does: the chunk version resets the flag when the upload is gone. */
  function StaleOutcome(m: Manager, id: Bytes, chunked: bool): Manager {
    if chunked && (!m.occupied || m.id != id) then m.(finalizing := false) else ClearBegin(m)
  }

  /** The hash pass is over and the mutex is held again. */
  function DoHashDone(s: System, f: nat, readOk: bool, e: FinishEnv): Option<System>
    requires Shaped(s.m)
  {
    if f >= |s.finishers| || !s.finishers[f].Hashing? then None
    else if Stale(s.m, s.finishers[f].id) then
      Some(s.(finishers := Without(s.finishers, f),
              m := StaleOutcome(s.m, s.finishers[f].id, s.finishers[f].chunked)))
    else if s.m.job != NoJob || s.m.partName !in s.dir || (readOk && s.finishers[f].position != |File(s)|) then None
    else Some(HashOutcome(s.(finishers := Without(s.finishers, f)), s.finishers[f].context, readOk, e))
  }

  function HashOutcome(s: System, context: Sha256.Context, readOk: bool, e: FinishEnv): System
    requires Shaped(s.m) && s.m.partName in s.dir
  {
    if readOk then Conclude(s, Sha256.Hex(Sha256.Finish(context)), e) else Vacate(s, e.unlinkOk)
  }

  /** clear_slot on behalf of a cancel, an abort, an expired lease, a superseding prepare or a failed finish. */
  function DoClearEnd(s: System, unlinkOk: bool): Option<System>
    requires Shaped(s.m)
  {
    if !s.m.discard || s.m.job != NoJob then None else Some(Vacate(s, unlinkOk))
  }

  /** Other programs may do what they like with names that are not part names. */
  function DoOutside(s: System, name: Bytes, content: Option<Bytes>): Option<System> {
    if IsPartName(name) then None
    else Some(s.(dir := if content.Some? then s.dir[name := content.value] else s.dir - {name}))
  }

  /**
    The call begins with reap_locked, and finds the lease of the running upload expired. It then clears the slot
    first: it is taken after ClearBeginStep and ClearEndStep.
   */
  predicate Overdue(m: Manager, step: Step) {
    match step
    case PrepareStep(r, _, now, _) => r.size <= m.limits.maxFileBytes && LeaseExpired(m, now)
    case BeginStep(_, _, _, _, now) => LeaseExpired(m, now)
    case WriteCall(_, now) => LeaseExpired(m, now)
    case DirectCall(_, now) => LeaseExpired(m, now)
    case ChunkBeginStep(_, _, _, _, _, length, _, now) => length != 0 && LeaseExpired(m, now)
    case ChunkWriteStep(_, _, data, now) => data != [] && LeaseExpired(m, now)
    case ChunkFinishStep(_, _, length, now) => length != 0 && LeaseExpired(m, now)
    case FinishCall(now) => LeaseExpired(m, now)
    case CompleteCall(_, _, _, now) => LeaseExpired(m, now)
    case _ => false
  }

  /** One step, or None when the step cannot be taken in `s`. */
  function Do(s: System, step: Step): Option<System>
    requires Shaped(s.m)
  {
    match step
    case PrepareStep(r, e, now, unlinkOk) => DoPrepare(s, r, e, now, unlinkOk)
    case BeginStep(id, client, authorization, length, now) => DoBegin(s, id, client, authorization, length, now)
    case EnableDirectStep => DoEnableDirect(s)
    case WriteCall(data, _) => DoWriteCall(s, data)
    case WriteTurnStep(now) => DoWriteTurn(s, now)
    case DirectCall(data, now) => DoDirectCall(s, data, now)
    case DirectWrote(k) => DoDirectWrote(s, k)
    case DirectDone(error, now) => DoDirectDone(s, error, now)
    case ChunkBeginStep(id, client, authorization, total, offset, length, alloc, now) =>
      DoChunkBegin(s, id, client, authorization, total, offset, length, alloc, now)
    case ChunkWriteStep(id, offset, data, now) => DoChunkWrite(s, id, offset, data, now)
    case ChunkFinishStep(id, offset, length, now) => DoChunkFinish(s, id, offset, length, now)
    case ChunkAbortStep(id, offset, now) => DoChunkAbort(s, id, offset, now)
    case WriterStartStep => DoWriterStart(s)
    case WriterWroteStep(k) => DoWriterWrote(s, k)
    case WriterEndStep(error) => DoWriterEnd(s, error)
    case FinishCall(_) => DoFinishCall(s)
    case FinishDrained(e) => DoFinishDrained(s, e)
    case CompleteCall(id, client, authorization, _) => DoCompleteCall(s, id, client, authorization)
    case CompleteReady(f) => DoCompleteReady(s, f)
    case HashRead(f, k) => DoHashRead(s, f, k)
    case HashDone(f, readOk, e) => DoHashDone(s, f, readOk, e)
    case ClearBeginStep => Some(s.(m := ClearBegin(s.m)))
    case ClearEndStep(unlinkOk) => DoClearEnd(s, unlinkOk)
    case Outside(name, content) => DoOutside(s, name, content)
  }
}
