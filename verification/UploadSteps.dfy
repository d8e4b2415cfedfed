/** What every step short of emptying the slot leaves alone, whoever takes it. */
module UploadSteps {
  import opened Bytes
  import opened Upload
  import opened UploadRing
  import opened UploadStaging
  import opened UploadSystem
  import opened UploadRuns
  import Sha256

  predicate Empties(step: Step) {
    step.PrepareStep? || step.FinishDrained? || step.HashDone? || step.ClearEndStep?
  }

  /** Steps that write to the directory without emptying the slot. */
  predicate Writes(step: Step) { step.DirectWrote? || step.WriterWroteStep? || step.Outside? }

  /** The slot holds the same upload, or none, and no chunk goes back from completed or written. */
  predicate SlotGoesOn(m: Manager, m': Manager) {
    SameUpload(m, m') && NoChunkGoesBack(m.staging, m'.staging)
  }

  predicate SameUpload(m: Manager, m': Manager) {
    && m'.limits == m.limits && m'.occupied == m.occupied && m'.id == m.id && m'.expected == m.expected
    && m'.client == m.client && m'.authorization == m.authorization
    && m'.finalName == m.finalName && m'.partName == m.partName && m'.expectedHash == m.expectedHash
  }

  predicate NoChunkGoesBack(g: Staging, g': Staging) {
    && |g'.states| == |g.states|
    && forall i :: 0 <= i < |g.states| && g.states[i] >= 2 ==> g'.states[i] >= 2
  }

  /** Ids and publications are as before too. */
  predicate GoesOn(s: System, s': System) {
    SlotGoesOn(s.m, s'.m) && s'.log == s.log && s'.used == s.used
  }

  // ---------------------------------------------------------------- chunk requests

  lemma BeginGoesOn(m: Manager, id: Bytes, client: Bytes, authorization: Bytes, total: nat, offset: nat,
                    length: nat, alloc: Option<Bytes>, now: nat)
    requires Shaped(m) && (alloc.Some? ==> |alloc.value| == length)
    ensures SlotGoesOn(m, ChunkBegin(m, id, client, authorization, total, offset, length, alloc, now).m)
  {
  }

  /** An accepted write adds to one chunk that is still receiving. */
  lemma WriteAccepted(m: Manager, id: Bytes, offset: nat, data: Bytes, now: nat)
    requires Shaped(m) && data != [] && ChunkWrite(m, id, offset, data, now).result == Ok
    ensures
      var i := offset / CHUNK;
      && i < m.staging.count && m.staging.states[i] == 1 && m.staging.buffers[i].Some?
      && m.staging.progress[i] + |data| <= ChunkLength(m.expected, i)
      && ChunkWrite(m, id, offset, data, now).m ==
         m.(staging := Received(m.staging, i, data), received := m.received + |data|, lastActivity := now)
  {
  }

  lemma WriteRefused(m: Manager, id: Bytes, offset: nat, data: Bytes, now: nat)
    requires Shaped(m) && (data == [] || ChunkWrite(m, id, offset, data, now).result != Ok)
    ensures ChunkWrite(m, id, offset, data, now).m == m
  {
  }

  lemma WriteGoesOn(m: Manager, id: Bytes, offset: nat, data: Bytes, now: nat)
    requires Shaped(m)
    ensures SlotGoesOn(m, ChunkWrite(m, id, offset, data, now).m)
  {
    if data == [] || ChunkWrite(m, id, offset, data, now).result != Ok {
      WriteRefused(m, id, offset, data, now);
    } else {
      WriteAccepted(m, id, offset, data, now);
    }
  }

  lemma ReleaseGoesOn(m: Manager, i: nat)
    requires Shaped(m) && i < m.staging.count && m.staging.states[i] == 1
    ensures SlotGoesOn(m, Release(m, i))
  {
  }

  /** An accepted finish marks its chunk complete and counts it. */
  lemma FinishAccepted(m: Manager, id: Bytes, offset: nat, length: nat, now: nat)
    requires Shaped(m) && ChunkFinish(m, id, offset, length, now).result == Ok
    ensures
      var i := offset / CHUNK;
      && i < m.staging.count && m.staging.states[i] == 1
      && ChunkFinish(m, id, offset, length, now).m == m.(staging := Finished(m.staging, i), lastActivity := now)
  {
  }

  lemma FinishGoesOn(m: Manager, id: Bytes, offset: nat, length: nat, now: nat)
    requires Shaped(m)
    ensures SlotGoesOn(m, ChunkFinish(m, id, offset, length, now).m)
  {
    if ChunkFinish(m, id, offset, length, now).result == Ok {
      FinishAccepted(m, id, offset, length, now);
    } else {
      FinishRefused(m, id, offset, length, now);
    }
  }

  lemma FinishRefused(m: Manager, id: Bytes, offset: nat, length: nat, now: nat)
    requires Shaped(m) && ChunkFinish(m, id, offset, length, now).result != Ok
    ensures SlotGoesOn(m, ChunkFinish(m, id, offset, length, now).m)
  {
    var i := offset / CHUNK;
    if i < m.staging.count && m.staging.states[i] == 1 {
      ReleaseGoesOn(m, i);
    }
  }

  lemma AbortGoesOn(m: Manager, id: Bytes, offset: nat, now: nat)
    requires Shaped(m)
    ensures SlotGoesOn(m, ChunkAbort(m, id, offset, now))
  {
  }

  lemma ChunkCallGoesOn(s: System, step: Step)
    requires Shaped(s.m) && Do(s, step).Some? && IsChunkCall(step)
    ensures GoesOn(s, Do(s, step).value) && Do(s, step).value.dir == s.dir
  {
    match step
    case ChunkBeginStep(id, client, authorization, total, offset, length, alloc, now) =>
      BeginGoesOn(s.m, id, client, authorization, total, offset, length, alloc, now);
    case ChunkWriteStep(id, offset, data, now) => WriteGoesOn(s.m, id, offset, data, now);
    case ChunkFinishStep(id, offset, length, now) => FinishGoesOn(s.m, id, offset, length, now);
    case ChunkAbortStep(id, offset, now) => AbortGoesOn(s.m, id, offset, now);
  }

  // ---------------------------------------------------------------- the writer thread

  lemma WroteMovesJob(m: Manager, k: nat)
    requires CanWrite(m, k)
    ensures WriterWrote(m, k) == m.(job := WriterWrote(m, k).job)
  {
  }

  lemma WriterWroteGoesOn(s: System, k: nat)
    requires DoWriterWrote(s, k).Some?
    ensures GoesOn(s, DoWriterWrote(s, k).value)
  {
    WroteMovesJob(s.m, k);
  }

  lemma WriterEndGoesOn(s: System, error: nat)
    requires Shaped(s.m) && DoWriterEnd(s, error).Some?
    ensures GoesOn(s, DoWriterEnd(s, error).value) && DoWriterEnd(s, error).value.dir == s.dir
  {
  }

  lemma WriterGoesOn(s: System, step: Step)
    requires Shaped(s.m) && Do(s, step).Some? && IsWriterStep(step)
    ensures GoesOn(s, Do(s, step).value) && (!Writes(step) ==> Do(s, step).value.dir == s.dir)
  {
    match step
    case WriterStartStep =>
    case WriterWroteStep(k) => WriterWroteGoesOn(s, k);
    case WriterEndStep(error) => WriterEndGoesOn(s, error);
  }

  // ---------------------------------------------------------------- streams

  lemma TurnGoesOn(s: System, now: nat)
    requires Shaped(s.m) && DoWriteTurn(s, now).Some?
    ensures GoesOn(s, DoWriteTurn(s, now).value) && DoWriteTurn(s, now).value.dir == s.dir
  {
  }

  lemma StreamGoesOn(s: System, step: Step)
    requires Shaped(s.m) && Do(s, step).Some?
    requires step.BeginStep? || step.EnableDirectStep? || step.WriteCall? || step.WriteTurnStep?
    ensures GoesOn(s, Do(s, step).value) && Do(s, step).value.dir == s.dir
  {
    match step
    case BeginStep(_, _, _, _, _) =>
    case EnableDirectStep =>
    case WriteCall(_, _) =>
    case WriteTurnStep(now) => TurnGoesOn(s, now);
  }

  lemma DirectGoesOn(s: System, step: Step)
    requires Shaped(s.m) && Do(s, step).Some?
    requires step.DirectCall? || step.DirectWrote? || step.DirectDone?
    ensures GoesOn(s, Do(s, step).value) && (!Writes(step) ==> Do(s, step).value.dir == s.dir)
  {
    match step
    case DirectCall(_, _) =>
    case DirectWrote(_) =>
    case DirectDone(_, _) =>
  }

  // ---------------------------------------------------------------- finishing, hashing, clearing

  lemma FinishCallGoesOn(s: System)
    requires Shaped(s.m) && DoFinishCall(s).Some?
    ensures GoesOn(s, DoFinishCall(s).value) && DoFinishCall(s).value.dir == s.dir
  {
  }

  lemma OtherGoesOn(s: System, step: Step)
    requires Shaped(s.m) && Do(s, step).Some?
    requires step.CompleteCall? || step.CompleteReady? || step.HashRead? || step.ClearBeginStep? || step.Outside?
    ensures GoesOn(s, Do(s, step).value) && (!Writes(step) ==> Do(s, step).value.dir == s.dir)
  {
    match step
    case CompleteCall(_, _, _, _) =>
    case CompleteReady(_) =>
    case HashRead(_, _) =>
    case ClearBeginStep =>
    case Outside(_, _) =>
  }

  /** Every step but the four that can empty the slot keeps the upload in it, and only three write to the directory. */
  lemma StepGoesOn(s: System, step: Step)
    requires Next(s, step).Some? && !Empties(step)
    ensures GoesOn(s, Next(s, step).value) && (!Writes(step) ==> Next(s, step).value.dir == s.dir)
  {
    assert Next(s, step) == Do(s, step);
    if IsChunkCall(step) {
      ChunkCallGoesOn(s, step);
    } else if IsWriterStep(step) {
      WriterGoesOn(s, step);
    } else if step.DirectCall? || step.DirectWrote? || step.DirectDone? {
      DirectGoesOn(s, step);
    } else if IsStreamCall(step) {
      StreamGoesOn(s, step);
    } else if step.FinishCall? {
      FinishCallGoesOn(s);
    } else {
      OtherGoesOn(s, step);
    }
  }

  // ---------------------------------------------------------------- the file counter, and whether the upload began

  /** The counter of files is as before. */
  predicate SameCount(m: Manager, m': Manager) {
    && m'.completedFiles == m.completedFiles && m'.completedAuthorization == m.completedAuthorization
    && m'.limits == m.limits
  }

  /** The step is a begin, of the stream or of a chunk, that is accepted. */
  predicate Starts(m: Manager, step: Step)
    requires Shaped(m)
  {
    match step
    case BeginStep(id, client, authorization, length, now) =>
      Begin(m, id, client, authorization, length, now).result == Ok
    case ChunkBeginStep(id, client, authorization, total, offset, length, alloc, now) =>
      (alloc.Some? ==> |alloc.value| == length) &&
      ChunkBegin(m, id, client, authorization, total, offset, length, alloc, now).result == Ok
    case _ => false
  }

  /**
    The counter is as before, a begin counts and fixes the transport, the first write error stays, unless a direct
    write comes back, and a slot that is being cleared takes on no new job.
   */
  predicate SameStanding(m: Manager, m': Manager, starts: bool, directDone: bool, enables: bool) {
    && SameCount(m, m') && m'.started == (m.started || starts)
    && (m.started ==> m'.chunkTransport == m.chunkTransport) && (!enables ==> m'.direct == m.direct)
    && (m.error != 0 && !directDone ==> m'.error == m.error)
    && (m.discard ==> m'.discard && (m.job == NoJob ==> m'.job == NoJob))
  }

  lemma ChunkBeginStanding(m: Manager, id: Bytes, client: Bytes, authorization: Bytes, total: nat, offset: nat,
                           length: nat, alloc: Option<Bytes>, now: nat)
    requires Shaped(m) && (alloc.Some? ==> |alloc.value| == length)
    ensures
      var out := ChunkBegin(m, id, client, authorization, total, offset, length, alloc, now);
      SameStanding(m, out.m, out.result == Ok, false, false)
  {
  }

  lemma ChunkWriteStanding(m: Manager, id: Bytes, offset: nat, data: Bytes, now: nat)
    requires Shaped(m)
    ensures SameStanding(m, ChunkWrite(m, id, offset, data, now).m, false, false, false)
  {
  }

  lemma ChunkFinishStanding(m: Manager, id: Bytes, offset: nat, length: nat, now: nat)
    requires Shaped(m)
    ensures SameStanding(m, ChunkFinish(m, id, offset, length, now).m, false, false, false)
  {
  }

  lemma ChunkAbortStanding(m: Manager, id: Bytes, offset: nat, now: nat)
    requires Shaped(m)
    ensures SameStanding(m, ChunkAbort(m, id, offset, now), false, false, false)
  {
  }

  lemma ChunkCallStanding(s: System, step: Step)
    requires Shaped(s.m) && Do(s, step).Some? && IsChunkCall(step)
    ensures SameStanding(s.m, Do(s, step).value.m, Starts(s.m, step), step.DirectDone?, step.EnableDirectStep?)
  {
    match step
    case ChunkBeginStep(id, client, authorization, total, offset, length, alloc, now) =>
      ChunkBeginStanding(s.m, id, client, authorization, total, offset, length, alloc, now);
    case ChunkWriteStep(id, offset, data, now) => ChunkWriteStanding(s.m, id, offset, data, now);
    case ChunkFinishStep(id, offset, length, now) => ChunkFinishStanding(s.m, id, offset, length, now);
    case ChunkAbortStep(id, offset, now) => ChunkAbortStanding(s.m, id, offset, now);
  }

  lemma WriterStanding(s: System, step: Step)
    requires Shaped(s.m) && Do(s, step).Some? && IsWriterStep(step)
    ensures SameStanding(s.m, Do(s, step).value.m, false, false, false)
  {
    match step
    case WriterStartStep =>
    case WriterWroteStep(k) => WroteMovesJob(s.m, k);
    case WriterEndStep(_) =>
  }

  lemma TurnStanding(s: System, now: nat)
    requires Shaped(s.m) && DoWriteTurn(s, now).Some?
    ensures SameStanding(s.m, DoWriteTurn(s, now).value.m, false, false, false)
  {
  }

  lemma StreamStanding(s: System, step: Step)
    requires Shaped(s.m) && Do(s, step).Some? && IsStreamCall(step)
    ensures SameStanding(s.m, Do(s, step).value.m, Starts(s.m, step), step.DirectDone?, step.EnableDirectStep?)
  {
    match step
    case BeginStep(_, _, _, _, _) =>
    case EnableDirectStep =>
    case WriteCall(_, _) =>
    case WriteTurnStep(now) => TurnStanding(s, now);
    case DirectCall(_, _) =>
    case DirectWrote(_) =>
    case DirectDone(_, _) =>
  }

  lemma FinishCallStanding(s: System)
    requires Shaped(s.m) && DoFinishCall(s).Some?
    ensures SameStanding(s.m, DoFinishCall(s).value.m, false, false, false)
  {
  }

  lemma OtherStanding(s: System, step: Step)
    requires Shaped(s.m) && Do(s, step).Some?
    requires step.CompleteCall? || step.CompleteReady? || step.HashRead? || step.ClearBeginStep? || step.Outside?
    ensures SameStanding(s.m, Do(s, step).value.m, false, false, false)
  {
    match step
    case CompleteCall(_, _, _, _) =>
    case CompleteReady(_) =>
    case HashRead(_, _) =>
    case ClearBeginStep =>
    case Outside(_, _) =>
  }

  /**
    Short of emptying the slot no step moves the counter of files, only an accepted begin starts the upload, a write
    error stays, and once the slot is being cleared the writer takes no new job.
   */
  lemma StepKeepsStanding(s: System, step: Step)
    requires Next(s, step).Some? && !Empties(step)
    ensures SameStanding(s.m, Next(s, step).value.m, Starts(s.m, step), step.DirectDone?, step.EnableDirectStep?)
  {
    assert Next(s, step) == Do(s, step);
    if IsChunkCall(step) {
      ChunkCallStanding(s, step);
    } else if IsWriterStep(step) {
      WriterStanding(s, step);
    } else if IsStreamCall(step) {
      StreamStanding(s, step);
    } else if step.FinishCall? {
      FinishCallStanding(s);
    } else {
      OtherStanding(s, step);
    }
  }
}
