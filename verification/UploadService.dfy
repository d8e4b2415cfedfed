/**
  The upload functions of src/upload.c over one struct, and the world around it: the directory, the connection that
  streams, the passes that hash, and the bytes that were accepted. Every method is one region under the mutex, or one
  system call outside it, and keeps `Valid`: no byte of a stream or a chunk is lost, moved or counted twice.
 */
module UploadServices {
  import opened Bytes
  import opened Upload
  import U = Upload
  import opened UploadRing
  import opened UploadStaging
  import opened UploadSystem
  import opened UploadInvariant
  import opened UploadRuns
  import opened UploadManagers
  import Sha256

  /**
    Of a queued stream: the bytes on disk, then the ring from its head on, then the partial tail are the bytes
    accepted, and the hash context stands for them.
   */
  ghost predicate StreamConserved(s: System) {
    Shaped(s.m) && s.m.occupied && s.m.started && !s.m.chunkTransport && !s.m.direct ==>
      && s.m.received == |s.accepted| <= s.m.expected && Sha256.Holds(s.m.sha, s.accepted)
      && (s.m.error == 0 ==> Conserved(File(s), s.m.ring, s.m.job, s.accepted))
      && (s.m.ring.buffered > 0 ==> s.m.ring.queued < DEPTH)
  }

  /** Of chunks: the arrays account for the accepted bytes of each; between jobs the disk holds those below `next`. */
  ghost predicate ChunksConserved(s: System) {
    Shaped(s.m) && s.m.occupied && s.m.chunkTransport ==>
      && StagingInv(s.m.staging, s.m.expected, s.m.received, s.pieces)
      && (s.m.error == 0 && s.m.job == NoJob ==> File(s) == Concat(s.pieces[..s.m.staging.next]))
  }

  lemma InvConserves(s: System)
    requires Inv(s)
    ensures Shaped(s.m) && StreamConserved(s) && ChunksConserved(s)
  {
  }

  /** The slot holds this upload for this client and authorization. */
  predicate HeldFor(m: Manager, id: Bytes, client: Bytes, authorization: Bytes) {
    m.occupied && m.id == id && m.client == client && m.authorization == authorization
  }

  /** The slot holds this upload, for another client or another authorization. */
  predicate HeldForOther(m: Manager, id: Bytes, client: Bytes, authorization: Bytes) {
    m.occupied && m.id == id && (m.client != client || m.authorization != authorization)
  }

  /** Whom a chunk begin is for decides before anything else about its chunk. */
  lemma ChunkBeginBound(s: System, id: Bytes, client: Bytes, authorization: Bytes, total: nat, offset: nat,
                        length: nat, alloc: Option<Bytes>, now: nat)
    requires Shaped(s.m) && (alloc.Some? ==> |alloc.value| == length)
    ensures
      var result := U.ChunkBegin(s.m, id, client, authorization, total, offset, length, alloc, now).result;
      var r := Do(s, ChunkBeginStep(id, client, authorization, total, offset, length, alloc, now));
      && r.Some? && r.value.pieces == s.pieces
      && (result == Ok ==> HeldFor(s.m, id, client, authorization))
      && (result == Forbidden <==> length != 0 && HeldForOther(s.m, id, client, authorization))
      && (result == Forbidden ==> r.value == s)
  {
  }

  class UploadService {
    const slot: UploadManager
    ghost var world: System

    ghost predicate Valid()
      reads this, slot
    {
      && world.m == slot.View()
      && Inv(world) && StreamConserved(world) && ChunksConserved(world)
    }

    /** upload_manager_create, over a directory that may hold files and part files of earlier processes. */
    constructor (limits: Limits, memory: seq<Bytes>, ghost dir: Directory, ghost used: set<Bytes>)
      requires |memory| == DEPTH && forall i :: 0 <= i < DEPTH ==> |memory[i]| == CAP
      requires limits.maxFileBytes <= MAX_FILE && forall n :: n in dir && IsPartName(n) ==> n[14..46] in used
      ensures Valid() && fresh(slot) && Initial(world) && world.dir == dir && world.used == used
    {
      slot := new UploadManager(limits, memory);
      new;
      world := System(slot.View(), dir, NoStream, [], [], [], [], used);
      InvConserves(world);
    }

    /** The struct has just been moved as the step says; the world goes along. */
    ghost method Follow(step: Step)
      requires Inv(world) && Next(world, step).Some? && slot.View() == Next(world, step).value.m
      modifies `world
      ensures Valid() && world == Next(old(world), step).value
    {
      StepKeeps(world, step);
      world := Next(world, step).value;
      InvConserves(world);
    }

    // ---------------------------------------------------------------- streams

    method Begin(id: Bytes, client: Bytes, authorization: Bytes, length: nat, now: nat) returns (result: Result)
      requires Valid() && !Overdue(world.m, BeginStep(id, client, authorization, length, now))
      modifies this, slot
      ensures Valid() && world == Next(old(world), BeginStep(id, client, authorization, length, now)).value
      ensures result == Ok ==> world.accepted == [] && world.stream == Open
      ensures result == Ok ==> HeldFor(old(world).m, id, client, authorization)
      ensures result == Forbidden <==> HeldForOther(old(world).m, id, client, authorization)
      ensures result == Forbidden ==> world == old(world)
    {
      result := slot.Begin(id, client, authorization, length, now);
      Follow(BeginStep(id, client, authorization, length, now));
    }

    /** One turn of the loop of upload_write on what is left of its data. */
    method WriteTurn(data: Bytes, now: nat) returns (result: Result, taken: nat)
      requires Valid() && world.stream == Writing(data) && (slot.error == 0 ==> slot.ring.queued < DEPTH)
      modifies this, slot
      ensures Valid() && world == Next(old(world), WriteTurnStep(now)).value
      ensures taken <= |data| && world.accepted == old(world.accepted) + data[..taken]
    {
      result, taken := slot.WriteTurn(data, now);
      Follow(WriteTurnStep(now));
    }

    method EnableDirect(id: Bytes) returns (result: Result)
      requires Valid() && world.stream == Open && id == slot.session.id
      modifies this, slot
      ensures Valid() && world == Next(old(world), EnableDirectStep).value && world.accepted == old(world.accepted)
    {
      result := slot.EnableDirect(id);
      Follow(EnableDirectStep);
    }

    method DirectStart(data: Bytes, now: nat) returns (result: Result)
      requires Valid() && world.stream == Open && slot.direct && data != []
      requires !Overdue(world.m, DirectCall(data, now))
      modifies this, slot
      ensures Valid() && world == Next(old(world), DirectCall(data, now)).value && world.accepted == old(world.accepted)
      ensures result == Ok ==> world.stream == Direct(data, 0)
    {
      result := slot.DirectStart(slot.session.id, |data|, now);
      Follow(DirectCall(data, now));
    }

    method DirectEnd(size: nat, errno: nat, now: nat) returns (result: Result)
      requires Valid() && world.stream.Direct? && size == |world.stream.data|
      requires errno == 0 <==> world.stream.written == |world.stream.data|
      modifies this, slot
      ensures Valid() && world == Next(old(world), DirectDone(errno, now)).value
      ensures world.accepted == if errno == 0 then old(world.accepted) + old(world.stream.data) else old(world.accepted)
    {
      result := slot.DirectEnd(size, errno, now);
      Follow(DirectDone(errno, now));
    }

    // ---------------------------------------------------------------- chunks

    method ChunkBegin(id: Bytes, client: Bytes, authorization: Bytes, total: nat, offset: nat, length: nat,
                      alloc: Option<Bytes>, now: nat) returns (result: Result)
      requires Valid() && (alloc.Some? ==> |alloc.value| == length)
      requires !Overdue(world.m, ChunkBeginStep(id, client, authorization, total, offset, length, alloc, now))
      modifies this, slot
      ensures Valid() && world.pieces == old(world.pieces)
      ensures
        var step := ChunkBeginStep(id, client, authorization, total, offset, length, alloc, now);
        world == Next(old(world), step).value
      ensures result == Ok ==> HeldFor(old(world).m, id, client, authorization)
      ensures result == Forbidden <==> length != 0 && HeldForOther(old(world).m, id, client, authorization)
      ensures result == Forbidden ==> world == old(world)
    {
      ChunkBeginBound(world, id, client, authorization, total, offset, length, alloc, now);
      result := slot.ChunkBegin(id, client, authorization, total, offset, length, alloc, now);
      Follow(ChunkBeginStep(id, client, authorization, total, offset, length, alloc, now));
    }

    method ChunkWrite(id: Bytes, offset: nat, data: Bytes, now: nat) returns (result: Result)
      requires Valid() && !Overdue(world.m, ChunkWriteStep(id, offset, data, now))
      modifies this, slot
      ensures Valid() && world == Next(old(world), ChunkWriteStep(id, offset, data, now)).value
      ensures
        var i, p := offset / CHUNK, old(world.pieces);
        world.pieces == if result == Ok && data != [] && i < |p| then p[i := p[i] + data] else p
    {
      result := slot.ChunkWrite(id, offset, data, now);
      Follow(ChunkWriteStep(id, offset, data, now));
    }

    method ChunkFinish(id: Bytes, offset: nat, length: nat, now: nat) returns (result: Result)
      requires Valid() && !Overdue(world.m, ChunkFinishStep(id, offset, length, now))
      modifies this, slot
      ensures Valid() && world == Next(old(world), ChunkFinishStep(id, offset, length, now)).value
    {
      result := slot.ChunkFinish(id, offset, length, now);
      Follow(ChunkFinishStep(id, offset, length, now));
    }

    method ChunkAbort(id: Bytes, offset: nat, now: nat)
      requires Valid()
      modifies this, slot
      ensures Valid() && world == Next(old(world), ChunkAbortStep(id, offset, now)).value
    {
      slot.ChunkAbort(id, offset, now);
      Follow(ChunkAbortStep(id, offset, now));
    }

    // ---------------------------------------------------------------- the writer thread

    method WriterStart()
      requires Valid() && WriterRuns(world.m)
      modifies this, slot
      ensures Valid() && world == Next(old(world), WriterStartStep).value && slot.job != NoJob
    {
      slot.WriterStart();
      Follow(WriterStartStep);
    }

    /** One write(2) of `k` bytes, from whatever the job's memory holds at that moment. */
    method WriterWrote(k: nat)
      requires Valid() && CanWrite(world.m, k)
      modifies this, slot
      ensures Valid() && world == Next(old(world), WriterWroteStep(k)).value
      ensures |File(world)| == |File(old(world))| + k && File(old(world)) <= File(world)
    {
      slot.WriterWrote(k);
      Follow(WriterWroteStep(k));
    }

    method WriterEnd(errno: nat)
      requires Valid() && slot.job != NoJob && (errno == 0 <==> slot.job.written == slot.job.size)
      modifies this, slot
      ensures Valid() && world == Next(old(world), WriterEndStep(errno)).value
      ensures File(world) == File(old(world)) && slot.job == NoJob
    {
      slot.WriterEnd(errno);
      Follow(WriterEndStep(errno));
    }

    // ---------------------------------------------------------------- finishing and clearing

    method CompleteStart(id: Bytes, client: Bytes, authorization: Bytes, now: nat) returns (result: Result)
      requires Valid() && !Overdue(world.m, CompleteCall(id, client, authorization, now))
      modifies this, slot
      ensures Valid() && world == Next(old(world), CompleteCall(id, client, authorization, now)).value
      ensures result == Ok ==> slot.received == slot.expected && world.finishers == old(world.finishers) + [Waiting(id)]
      ensures result == Ok ==> HeldFor(old(world).m, id, client, authorization)
      ensures result == Forbidden <==> HeldForOther(old(world).m, id, client, authorization)
      ensures result == Forbidden ==> world == old(world)
    {
      result := slot.CompleteStart(id, client, authorization);
      Follow(CompleteCall(id, client, authorization, now));
    }

    method ClearBegin()
      requires Valid()
      modifies this, slot
      ensures Valid() && world == Next(old(world), ClearBeginStep).value && slot.discard
      ensures slot.job == old(slot.job) && world.used == old(world.used)
    {
      slot.ClearBegin();
      Follow(ClearBeginStep);
    }

    method ClearEnd(ghost unlinkOk: bool)
      requires Valid() && slot.discard && slot.job == NoJob
      modifies this, slot
      ensures Valid() && world == Next(old(world), ClearEndStep(unlinkOk)).value && !slot.occupied
      ensures slot.job == NoJob && world.used == old(world.used)
    {
      slot.ClearEnd();
      Follow(ClearEndStep(unlinkOk));
    }

    /** upload_cancel up to the wait of clear_slot; its own wait, for an unlocked write, is over. */
    method Cancel(id: Bytes, client: Bytes, authorization: Bytes, now: nat) returns (result: Result)
      requires Valid() && slot.activeWrites == 0 && !LeaseExpired(world.m, now)
      modifies this, slot
      ensures Valid()
      ensures result == Ok <==> HeldFor(old(world).m, id, client, authorization) && !old(world).m.finalizing
      ensures result == Forbidden <==> HeldForOther(old(world).m, id, client, authorization)
      ensures if result == Ok then world == Next(old(world), ClearBeginStep).value && slot.discard
              else world == old(world)
    {
      result := slot.CancelStart(id, client, authorization);
      if result == Ok { Follow(ClearBeginStep); }
    }

    /** The id is new, and the name is not that of a part file. */
    ghost predicate FreshNames(e: PrepareEnv)
      reads this
    {
      && (e.id.Some? ==> e.id.value !in world.used && HexId(e.id.value))
      && (e.unique.Some? ==> !IsPartName(e.unique.value))
    }

    /** upload_prepare on a slot that no other session's idle upload holds; for a refusal the writer must be idle. */
    method Prepare(r: Request, e: PrepareEnv, now: nat, ghost unlinkOk: bool) returns (result: Result)
      requires Valid() && FreshNames(e) && slot.job == NoJob && !Superseded(world.m, r.authorization)
      requires !Overdue(world.m, PrepareStep(r, e, now, unlinkOk))
      modifies this, slot
      ensures Valid() && world == Next(old(world), PrepareStep(r, e, now, unlinkOk)).value
      ensures result == Ok ==> slot.occupied && slot.expected == r.size && File(world) == [] && world.accepted == []
    {
      PrepareFollows(world, r, e, now, unlinkOk);
      if U.Prepare(world.m, r, e, now).result == Ok { PrepareOutcome(world, r, e, now, unlinkOk); }
      result := slot.Prepare(r, e, now);
      Follow(PrepareStep(r, e, now, unlinkOk));
    }

    /** clear_slot of an upload that never started, whose writer is idle. */
    method ClearIdle(ghost unlinkOk: bool)
      requires Valid() && slot.occupied && !slot.started
      modifies this, slot
      ensures Valid() && !slot.occupied && slot.job == NoJob && world.used == old(world.used)
    {
      IdleUntilStarted(world);
      ClearBegin();
      ClearEnd(unlinkOk);
    }

    /** The same for an idle upload of another session: it is cleared first. */
    method Supersede(r: Request, e: PrepareEnv, now: nat, ghost unlinkOk: bool) returns (result: Result)
      requires Valid() && FreshNames(e) && Superseded(world.m, r.authorization)
      modifies this, slot
      ensures Valid()
      ensures result == Ok ==> slot.occupied && slot.expected == r.size && File(world) == [] && world.accepted == []
    {
      ClearIdle(unlinkOk);
      result := Prepare(r, e, now, unlinkOk);
    }
  }

  /** The slot moves as the step of the world says, also when a refusal clears it. */
  lemma PrepareFollows(s: System, r: Request, e: PrepareEnv, now: nat, unlinkOk: bool)
    requires Inv(s) && DoPrepare(s, r, e, now, unlinkOk).Some?
    ensures DoPrepare(s, r, e, now, unlinkOk).value.m == U.Prepare(s.m, r, e, now).m
  {
    if s.m.occupied && r.size <= s.m.limits.maxFileBytes {
      RefusedPrepareClears(s.m, r, e, now);
    }
  }

  lemma PrepareOutcome(s: System, r: Request, e: PrepareEnv, now: nat, unlinkOk: bool)
    requires Inv(s) && DoPrepare(s, r, e, now, unlinkOk).Some? && U.Prepare(s.m, r, e, now).result == Ok
    ensures
      var s' := DoPrepare(s, r, e, now, unlinkOk).value;
      s'.m.occupied && s'.m.expected == r.size && File(s') == [] && s'.accepted == []
  {
  }

  lemma IdleUntilStarted(s: System)
    requires Inv(s) && s.m.occupied && !s.m.started
    ensures s.m.job == NoJob
  {
  }
}
