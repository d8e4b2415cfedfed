/** What holds over whole runs of the upload system: conservation, memory safety of the writer, publication. */
module UploadRuns {
  import opened Bytes
  import opened Upload
  import opened UploadRing
  import opened UploadStaging
  import opened UploadSystem
  import opened UploadInvariant
  import opened UploadStreams
  import opened UploadChunks
  import Sha256

  // ---------------------------------------------------------------- runs

  /** A manager just created, over a directory that may hold files and part files of earlier processes. */
  predicate Initial(s: System) {
    && Shaped(s.m) && s.m.limits.maxFileBytes <= MAX_FILE && !s.m.occupied
    && s.m.completedFiles == 0 && Blank(s) && s.m.partName == [] && s.finishers == [] && s.log == []
    && (forall n :: n in s.dir && IsPartName(n) ==> n[14..46] in s.used)
  }

  function Next(s: System, step: Step): Option<System> {
    if Shaped(s.m) && !Overdue(s.m, step) then Do(s, step) else None
  }

  /** The state after a sequence of steps, or None when one of them cannot be taken. */
  function Run(s: System, steps: seq<Step>): Option<System> {
    if steps == [] then Some(s)
    else
      match Run(s, steps[..|steps| - 1])
      case None => None
      case Some(mid) => Next(mid, steps[|steps| - 1])
  }

  predicate IsStreamCall(step: Step) {
    step.BeginStep? || step.EnableDirectStep? || step.WriteCall? || step.WriteTurnStep? || step.DirectCall? ||
    step.DirectWrote? || step.DirectDone?
  }

  predicate IsChunkCall(step: Step) {
    step.ChunkBeginStep? || step.ChunkWriteStep? || step.ChunkFinishStep? || step.ChunkAbortStep?
  }

  predicate IsWriterStep(step: Step) { step.WriterStartStep? || step.WriterWroteStep? || step.WriterEndStep? }

  predicate IsHashStep(step: Step) { step.HashRead? || step.HashDone? }

  predicate IsFinishCall(step: Step) {
    step.FinishCall? || step.FinishDrained? || step.CompleteCall? || step.CompleteReady?
  }

  lemma StreamStepKeeps(s: System, step: Step)
    requires Inv(s) && Next(s, step).Some? && IsStreamCall(step)
    ensures Inv(Next(s, step).value)
  {
    match step
    case BeginStep(id, client, authorization, length, now) => BeginKeeps(s, id, client, authorization, length, now);
    case EnableDirectStep => EnableDirectKeeps(s);
    case WriteCall(data, _) => WriteCallKeeps(s, data);
    case WriteTurnStep(now) => WriteTurnKeeps(s, now);
    case DirectCall(data, now) => DirectCallKeeps(s, data, now);
    case DirectWrote(k) => DirectWroteKeeps(s, k);
    case DirectDone(error, now) => DirectDoneKeeps(s, error, now);
  }

  lemma WriterStepKeeps(s: System, step: Step)
    requires Inv(s) && Next(s, step).Some? && IsWriterStep(step)
    ensures Inv(Next(s, step).value)
  {
    match step
    case WriterStartStep => WriterStartKeeps(s);
    case WriterWroteStep(k) => WriterWroteKeeps(s, k);
    case WriterEndStep(error) => WriterEndKeeps(s, error);
  }

  lemma ChunkStepKeeps(s: System, step: Step)
    requires Inv(s) && Next(s, step).Some? && IsChunkCall(step)
    ensures Inv(Next(s, step).value)
  {
    match step
    case ChunkBeginStep(id, client, authorization, total, offset, length, alloc, now) =>
      ChunkBeginKeeps(s, id, client, authorization, total, offset, length, alloc, now);
    case ChunkWriteStep(id, offset, data, now) => ChunkWriteKeeps(s, id, offset, data, now);
    case ChunkFinishStep(id, offset, length, now) => ChunkFinishKeeps(s, id, offset, length, now);
    case ChunkAbortStep(id, offset, now) => ChunkAbortKeeps(s, id, offset, now);
  }

  lemma FinishStepKeeps(s: System, step: Step)
    requires Inv(s) && Next(s, step).Some? && IsFinishCall(step)
    ensures Inv(Next(s, step).value)
  {
    match step
    case FinishCall(_) => FinishCallKeeps(s);
    case FinishDrained(e) => FinishDrainedKeeps(s, e);
    case CompleteCall(id, client, authorization, _) => CompleteCallKeeps(s, id, client, authorization);
    case CompleteReady(f) => CompleteReadyKeeps(s, f);
  }

  lemma HashStepKeeps(s: System, step: Step)
    requires Inv(s) && Next(s, step).Some? && IsHashStep(step)
    ensures Inv(Next(s, step).value)
  {
    match step
    case HashRead(f, k) => HashReadKeeps(s, f, k);
    case HashDone(f, readOk, e) => HashDoneKeeps(s, f, readOk, e);
  }

  lemma SlotStepKeeps(s: System, step: Step)
    requires Inv(s) && Next(s, step).Some?
    requires step.PrepareStep? || step.ClearBeginStep? || step.ClearEndStep? || step.Outside?
    ensures Inv(Next(s, step).value)
  {
    match step
    case PrepareStep(r, e, now, unlinkOk) => PrepareKeeps(s, r, e, now, unlinkOk);
    case ClearBeginStep => ClearBeginKeeps(s);
    case ClearEndStep(unlinkOk) => ClearEndKeeps(s, unlinkOk);
    case Outside(name, content) => OutsideKeeps(s, name, content);
  }

  /** Every step keeps the invariant. */
  lemma StepKeeps(s: System, step: Step)
    requires Inv(s) && Next(s, step).Some?
    ensures Inv(Next(s, step).value)
  {
    if IsStreamCall(step) {
      StreamStepKeeps(s, step);
    } else if IsChunkCall(step) {
      ChunkStepKeeps(s, step);
    } else if IsWriterStep(step) {
      WriterStepKeeps(s, step);
    } else if IsFinishCall(step) {
      FinishStepKeeps(s, step);
    } else if IsHashStep(step) {
      HashStepKeeps(s, step);
    } else {
      SlotStepKeeps(s, step);
    }
  }

  lemma {:induction false} RunKeeps(s: System, steps: seq<Step>)
    requires Initial(s) && Run(s, steps).Some?
    ensures Inv(Run(s, steps).value)
  {
    if steps != [] {
      RunKeeps(s, steps[..|steps| - 1]);
      StepKeeps(Run(s, steps[..|steps| - 1]).value, steps[|steps| - 1]);
    }
  }

  // ---------------------------------------------------------------- the part file

  /**
    Queued stream. In every reachable state without a write error, the bytes on disk, then the queued buffers from
    the head on (less what the writer already wrote of the first), then the partial tail are the bytes accepted,
    and the hash context stands for the same string. After an error the disk still holds a prefix of them.
   */
  lemma QueuedStreamConservation(s0: System, steps: seq<Step>)
    requires Initial(s0) && Run(s0, steps).Some?
    ensures
      var s := Run(s0, steps).value;
      s.m.occupied && s.m.started && !s.m.chunkTransport && !s.m.direct ==>
        && Shaped(s.m) && |s.accepted| == s.m.received
        && Sha256.Holds(s.m.sha, s.accepted)
        && Offset(s.m.job) <= |Contents(s.m.ring)|
        && (s.m.error == 0 ==> File(s) + Contents(s.m.ring)[Offset(s.m.job)..] == s.accepted)
        && (s.m.error != 0 ==> File(s) <= s.accepted)
  {
    RunKeeps(s0, steps);
  }

  /**
    Chunked transport. In every reachable state without a write error, and with the writer between jobs, the part
    file is the accepted bytes of chunks 0 to next - 1 in index order, whatever order they arrived in.
   */
  lemma ChunkedFileIsInOrder(s0: System, steps: seq<Step>)
    requires Initial(s0) && Run(s0, steps).Some?
    ensures
      var s := Run(s0, steps).value;
      s.m.occupied && s.m.chunkTransport && s.m.error == 0 && s.m.job == NoJob ==>
        && s.m.staging.next <= |s.pieces| == ChunkCount(s.m.expected)
        && File(s) == Concat(s.pieces[..s.m.staging.next])
        && forall i :: 0 <= i < s.m.staging.next ==> |s.pieces[i]| == ChunkLength(s.m.expected, i)
  {
    RunKeeps(s0, steps);
    var s := Run(s0, steps).value;
    if s.m.occupied && s.m.chunkTransport {
      assert Chunked(s);
      forall i | 0 <= i < s.m.staging.next ensures |s.pieces[i]| == ChunkLength(s.m.expected, i) {
        assert ChunkOk(s.m.staging, s.m.expected, s.pieces, i);
      }
    }
  }

  /** The hand-kept counters of the chunk transport are what they are meant to count. */
  lemma ChunkAccounting(s0: System, steps: seq<Step>)
    requires Initial(s0) && Run(s0, steps).Some?
    ensures
      var s := Run(s0, steps).value;
      var g := s.m.staging;
      s.m.occupied && s.m.chunkTransport ==>
        && Shaped(s.m)
        && s.m.received == Sum(g.progress)
        && g.active == Marks(g.states, 1, 2) <= SLOTS
        && g.completed == Marks(g.states, 2, 3)
        && (forall i :: 0 <= i < g.count ==> (g.states[i] == 3 <==> i < g.next))
        && (forall i :: 0 <= i < g.count && g.states[i] == 1 ==> s.m.received >= g.progress[i] && g.active > 0)
        && (g.completed == g.count ==> s.m.received == s.m.expected)
  {
    RunKeeps(s0, steps);
    var s := Run(s0, steps).value;
    if s.m.occupied && s.m.chunkTransport {
      var g := s.m.staging;
      forall i | 0 <= i < g.count ensures g.states[i] == 3 <==> i < g.next {
        assert ChunkOk(g, s.m.expected, s.pieces, i);
      }
      forall i | 0 <= i < g.count && g.states[i] == 1 ensures s.m.received >= g.progress[i] && g.active > 0 {
        ReleaseKeeps(s.m, s.pieces, i);
      }
      if g.completed == g.count {
        AllCompleted(g, s.m.expected, s.m.received, s.pieces);
      }
    }
  }

  // ---------------------------------------------------------------- the unlocked writer

  /** Bytes in the tail buffer leave room in the queue: the wait in enqueue_write_buffer_locked is never entered. */
  lemma EnqueueNeverBlocks(s0: System, steps: seq<Step>)
    requires Initial(s0) && Run(s0, steps).Some?
    ensures Run(s0, steps).value.m.ring.buffered > 0 ==> Run(s0, steps).value.m.ring.queued < DEPTH
  {
    RunKeeps(s0, steps);
  }

  /** The job goes on, and the memory it reads is the same, with the same contents. */
  predicate SameJobMemory(m: Manager, m': Manager) {
    && m.job != NoJob && m'.job != NoJob
    && m'.job.size == m.job.size && m'.job.index == m.job.index
    && JobBuffer(m).Some? && JobBuffer(m').Some?
    && m.job.size <= |JobBuffer(m).value| && m.job.size <= |JobBuffer(m').value|
    && JobBuffer(m').value[..m.job.size] == JobBuffer(m).value[..m.job.size]
  }

  lemma TurnLeavesHead(s: System, now: nat)
    requires Inv(s) && s.m.job.RingJob? && DoWriteTurn(s, now).Some?
    ensures SameJobMemory(s.m, DoWriteTurn(s, now).value.m)
  {
    if s.m.error == 0 {
      FillAppends(s.m.ring, s.stream.rest[..TurnCount(s.m.ring, s.stream.rest)]);
    }
  }

  lemma OtherBuffersUntouched(m: Manager, m': Manager)
    requires m.job != NoJob && m'.job == m.job && m'.ring == m.ring
    requires JobBuffer(m).Some? && m.job.size <= |JobBuffer(m).value|
    requires m.job.ChunkJob? ==>
               && m.job.index < |m.staging.buffers| == |m'.staging.buffers|
               && m'.staging.buffers[m.job.index] == m.staging.buffers[m.job.index]
    ensures SameJobMemory(m, m')
  {
  }

  /** No chunk in state 2 or 3 has its buffer changed. */
  predicate CompleteChunksUntouched(m: Manager, m': Manager) {
    && m'.job == m.job && m'.ring == m.ring && |m'.staging.buffers| == |m.staging.buffers|
    && (forall i :: 0 <= i < |m.staging.buffers| && i < |m.staging.states| && m.staging.states[i] >= 2 ==>
          m'.staging.buffers[i] == m.staging.buffers[i])
  }

  lemma BeginTouchesFree(m: Manager, id: Bytes, client: Bytes, authorization: Bytes, total: nat, offset: nat,
                         length: nat, alloc: Option<Bytes>, now: nat)
    requires Shaped(m) && (alloc.Some? ==> |alloc.value| == length)
    ensures CompleteChunksUntouched(m, ChunkBegin(m, id, client, authorization, total, offset, length, alloc, now).m)
  {
  }

  lemma WriteTouchesReceiving(m: Manager, id: Bytes, offset: nat, data: Bytes, now: nat)
    requires Shaped(m)
    ensures CompleteChunksUntouched(m, ChunkWrite(m, id, offset, data, now).m)
  {
  }

  lemma FinishTouchesReceiving(m: Manager, id: Bytes, offset: nat, length: nat, now: nat)
    requires Shaped(m)
    ensures CompleteChunksUntouched(m, ChunkFinish(m, id, offset, length, now).m)
    ensures CompleteChunksUntouched(m, ChunkAbort(m, id, offset, now))
  {
  }

  lemma ChunkCallsUntouched(s: System, step: Step)
    requires Shaped(s.m) && Next(s, step).Some? && IsChunkCall(step)
    ensures CompleteChunksUntouched(s.m, Next(s, step).value.m)
  {
    match step
    case ChunkBeginStep(id, client, authorization, total, offset, length, alloc, now) =>
      BeginTouchesFree(s.m, id, client, authorization, total, offset, length, alloc, now);
    case ChunkWriteStep(id, offset, data, now) => WriteTouchesReceiving(s.m, id, offset, data, now);
    case ChunkFinishStep(id, offset, length, now) => FinishTouchesReceiving(s.m, id, offset, length, now);
    case ChunkAbortStep(id, offset, now) => FinishTouchesReceiving(s.m, id, offset, 0, now);
  }

  lemma ChunkCallsLeaveJob(s: System, step: Step)
    requires Inv(s) && s.m.job != NoJob && Next(s, step).Some? && IsChunkCall(step)
    ensures SameJobMemory(s.m, Next(s, step).value.m)
  {
    WriterMemoryLive(s);
    ChunkCallsUntouched(s, step);
    OtherBuffersUntouched(s.m, Next(s, step).value.m);
  }

  /** The ring slots and the chunk arrays are as before, and the job is on the same buffer. */
  predicate SameBuffers(m: Manager, m': Manager) {
    && m'.ring.slots == m.ring.slots && m'.staging == m.staging
    && m'.job != NoJob && m.job != NoJob
    && m'.job.RingJob? == m.job.RingJob? && m'.job.size == m.job.size && m'.job.index == m.job.index
  }

  lemma BeginLeavesJob(s: System, id: Bytes, client: Bytes, authorization: Bytes, length: nat, now: nat)
    requires Shaped(s.m) && s.m.job != NoJob && DoBegin(s, id, client, authorization, length, now).Some?
    ensures SameBuffers(s.m, DoBegin(s, id, client, authorization, length, now).value.m)
  {
  }

  lemma EnableDirectLeavesJob(s: System)
    requires Shaped(s.m) && s.m.job != NoJob && DoEnableDirect(s).Some?
    ensures SameBuffers(s.m, DoEnableDirect(s).value.m)
  {
  }

  lemma DirectCallLeavesJob(s: System, data: Bytes, now: nat)
    requires Shaped(s.m) && s.m.job != NoJob && DoDirectCall(s, data, now).Some?
    ensures SameBuffers(s.m, DoDirectCall(s, data, now).value.m)
  {
  }

  lemma DirectDoneLeavesJob(s: System, error: nat, now: nat)
    requires Shaped(s.m) && s.m.job != NoJob && DoDirectDone(s, error, now).Some?
    ensures SameBuffers(s.m, DoDirectDone(s, error, now).value.m)
  {
  }

  lemma WriterWroteLeavesJob(s: System, k: nat)
    requires Shaped(s.m) && s.m.job != NoJob && DoWriterWrote(s, k).Some?
    ensures SameBuffers(s.m, DoWriterWrote(s, k).value.m)
  {
  }

  lemma FinishCallLeavesJob(s: System)
    requires Shaped(s.m) && s.m.job != NoJob && DoFinishCall(s).Some?
    ensures SameBuffers(s.m, DoFinishCall(s).value.m)
  {
  }

  lemma CompleteCallLeavesJob(s: System, id: Bytes, client: Bytes, authorization: Bytes)
    requires Shaped(s.m) && s.m.job != NoJob && DoCompleteCall(s, id, client, authorization).Some?
    ensures SameBuffers(s.m, DoCompleteCall(s, id, client, authorization).value.m)
  {
  }

  lemma CompleteReadyLeavesJob(s: System, f: nat)
    requires Shaped(s.m) && s.m.job != NoJob && DoCompleteReady(s, f).Some?
    ensures SameBuffers(s.m, DoCompleteReady(s, f).value.m)
  {
  }

  lemma HashDoneLeavesJob(s: System, f: nat, readOk: bool, e: FinishEnv)
    requires Shaped(s.m) && s.m.job != NoJob && DoHashDone(s, f, readOk, e).Some?
    ensures SameBuffers(s.m, DoHashDone(s, f, readOk, e).value.m)
  {
    assert Stale(s.m, s.finishers[f].id);
    assert SameBuffers(s.m, StaleOutcome(s.m, s.finishers[f].id, s.finishers[f].chunked));
  }

  /** Steps that fill no buffer leave every buffer and the job's place alone. */
  lemma OtherStepsLeaveJob(s: System, step: Step)
    requires Shaped(s.m) && s.m.job != NoJob && Next(s, step).Some?
    requires !IsChunkCall(step) && !step.WriteTurnStep? && !step.WriterEndStep? && !step.PrepareStep?
    ensures SameBuffers(s.m, Next(s, step).value.m)
  {
    match step
    case BeginStep(id, client, authorization, length, now) => BeginLeavesJob(s, id, client, authorization, length, now);
    case EnableDirectStep => EnableDirectLeavesJob(s);
    case DirectCall(data, now) => DirectCallLeavesJob(s, data, now);
    case DirectDone(error, now) => DirectDoneLeavesJob(s, error, now);
    case WriterWroteStep(k) => WriterWroteLeavesJob(s, k);
    case FinishCall(_) => FinishCallLeavesJob(s);
    case CompleteCall(id, client, authorization, _) => CompleteCallLeavesJob(s, id, client, authorization);
    case CompleteReady(f) => CompleteReadyLeavesJob(s, f);
    case HashDone(f, readOk, e) => HashDoneLeavesJob(s, f, readOk, e);
    case _ =>
  }

  /**
    While the writer is outside the mutex, no step of anyone else overwrites, moves or frees the memory it reads:
    the tail buffer being filled is not the head being written, and no chunk call touches a chunk in state 2.
   */
  lemma WriterMemoryUntouched(s: System, step: Step)
    requires Inv(s) && s.m.job != NoJob && Next(s, step).Some? && !step.WriterEndStep?
    ensures SameJobMemory(s.m, Next(s, step).value.m)
  {
    WriterMemoryLive(s);
    if step.WriteTurnStep? {
      TurnLeavesHead(s, step.now);
    } else if IsChunkCall(step) {
      ChunkCallsLeaveJob(s, step);
    } else if !step.PrepareStep? {
      OtherStepsLeaveJob(s, step);
    }
  }
}
