/** The lease of an upload, over whole runs: when a call finds it over, by the times of the calls that were accepted. */
module UploadLease {
  import opened Bytes
  import opened Upload
  import opened UploadRing
  import opened UploadStaging
  import opened UploadSystem
  import opened UploadInvariant
  import opened UploadRuns
  import opened UploadSteps
  import opened UploadOwners
  import Sha256

  // ---------------------------------------------------------------- the calls that renew it

  /** The abort finds a chunk to give back. */
  predicate Aborts(m: Manager, id: Bytes, offset: nat) {
    && m.occupied && m.started && m.id == id && offset < m.expected && offset % CHUNK == 0
    && offset / CHUNK < m.staging.count && offset / CHUNK < |m.staging.states| && m.staging.states[offset / CHUNK] == 1
  }

  /** The time of a call that is accepted, bytes that upload_write takes and the end of an unlocked write included. */
  function Renewal(s: System, step: Step): Option<nat>
    requires Shaped(s.m)
  {
    match step
    case BeginStep(id, client, authorization, length, now) =>
      if Begin(s.m, id, client, authorization, length, now).result == Ok then Some(now) else None
    case WriteTurnStep(now) => if s.m.error == 0 then Some(now) else None
    case DirectCall(data, now) => if DirectStart(s.m, s.m.id, |data|, now).result == Ok then Some(now) else None
    case DirectDone(error, now) => if error == 0 then Some(now) else None
    case ChunkBeginStep(id, client, authorization, total, offset, length, alloc, now) =>
      if (alloc.Some? ==> |alloc.value| == length) &&
         ChunkBegin(s.m, id, client, authorization, total, offset, length, alloc, now).result == Ok then Some(now)
      else None
    case ChunkWriteStep(id, offset, data, now) =>
      if data != [] && ChunkWrite(s.m, id, offset, data, now).result == Ok then Some(now) else None
    case ChunkFinishStep(id, offset, length, now) =>
      if ChunkFinish(s.m, id, offset, length, now).result == Ok then Some(now) else None
    case ChunkAbortStep(id, offset, now) => if Aborts(s.m, id, offset) then Some(now) else None
    case _ => None
  }

  predicate RenewedAt(m: Manager, m': Manager, at: Option<nat>) {
    m'.lastActivity == if at.Some? then at.value else m.lastActivity
  }

  lemma ChunkBeginRenews(m: Manager, id: Bytes, client: Bytes, authorization: Bytes, total: nat, offset: nat,
                         length: nat, alloc: Option<Bytes>, now: nat)
    requires Shaped(m) && (alloc.Some? ==> |alloc.value| == length)
    ensures
      var out := ChunkBegin(m, id, client, authorization, total, offset, length, alloc, now);
      RenewedAt(m, out.m, if out.result == Ok then Some(now) else None)
  {
  }

  lemma ChunkWriteRenews(m: Manager, id: Bytes, offset: nat, data: Bytes, now: nat)
    requires Shaped(m)
    ensures
      var out := ChunkWrite(m, id, offset, data, now);
      RenewedAt(m, out.m, if data != [] && out.result == Ok then Some(now) else None)
  {
  }

  lemma ChunkFinishRenews(m: Manager, id: Bytes, offset: nat, length: nat, now: nat)
    requires Shaped(m)
    ensures
      var out := ChunkFinish(m, id, offset, length, now);
      RenewedAt(m, out.m, if out.result == Ok then Some(now) else None)
  {
  }

  lemma ChunkAbortRenews(m: Manager, id: Bytes, offset: nat, now: nat)
    requires Shaped(m)
    ensures RenewedAt(m, ChunkAbort(m, id, offset, now), if Aborts(m, id, offset) then Some(now) else None)
  {
  }

  lemma ChunkCallRenews(s: System, step: Step)
    requires Shaped(s.m) && Do(s, step).Some? && IsChunkCall(step)
    ensures RenewedAt(s.m, Do(s, step).value.m, Renewal(s, step))
  {
    match step
    case ChunkBeginStep(id, client, authorization, total, offset, length, alloc, now) =>
      ChunkBeginRenews(s.m, id, client, authorization, total, offset, length, alloc, now);
    case ChunkWriteStep(id, offset, data, now) => ChunkWriteRenews(s.m, id, offset, data, now);
    case ChunkFinishStep(id, offset, length, now) => ChunkFinishRenews(s.m, id, offset, length, now);
    case ChunkAbortStep(id, offset, now) => ChunkAbortRenews(s.m, id, offset, now);
  }

  lemma TurnRenews(s: System, now: nat)
    requires Shaped(s.m) && DoWriteTurn(s, now).Some?
    ensures RenewedAt(s.m, DoWriteTurn(s, now).value.m, if s.m.error == 0 then Some(now) else None)
  {
  }

  lemma StreamRenews(s: System, step: Step)
    requires Shaped(s.m) && Do(s, step).Some? && IsStreamCall(step)
    ensures RenewedAt(s.m, Do(s, step).value.m, Renewal(s, step))
  {
    match step
    case BeginStep(_, _, _, _, _) =>
    case EnableDirectStep =>
    case WriteCall(_, _) =>
    case WriteTurnStep(now) => TurnRenews(s, now);
    case DirectCall(_, _) =>
    case DirectWrote(_) =>
    case DirectDone(_, _) =>
  }

  lemma WriterRenewsNot(s: System, step: Step)
    requires Shaped(s.m) && Do(s, step).Some? && IsWriterStep(step)
    ensures Do(s, step).value.m.lastActivity == s.m.lastActivity
  {
    match step
    case WriterStartStep =>
    case WriterWroteStep(k) => WroteMovesJob(s.m, k);
    case WriterEndStep(_) =>
  }

  lemma OtherRenewsNot(s: System, step: Step)
    requires Shaped(s.m) && Do(s, step).Some?
    requires step.FinishCall? || step.CompleteCall? || step.CompleteReady? || step.HashRead? || step.ClearBeginStep? ||
             step.Outside?
    ensures Do(s, step).value.m.lastActivity == s.m.lastActivity
  {
    match step
    case FinishCall(_) =>
    case CompleteCall(_, _, _, _) =>
    case CompleteReady(_) =>
    case HashRead(_, _) =>
    case ClearBeginStep =>
    case Outside(_, _) =>
  }

  /** Short of emptying the slot, exactly the accepted calls renew the lease, to their own time. */
  lemma StepRenews(s: System, step: Step)
    requires Next(s, step).Some? && !Empties(step)
    ensures RenewedAt(s.m, Next(s, step).value.m, Renewal(s, step))
  {
    assert Next(s, step) == Do(s, step);
    if IsChunkCall(step) {
      ChunkCallRenews(s, step);
    } else if IsWriterStep(step) {
      WriterRenewsNot(s, step);
    } else if IsStreamCall(step) {
      StreamRenews(s, step);
    } else {
      OtherRenewsNot(s, step);
    }
  }

  // ---------------------------------------------------------------- the last of them, as history

  function LastAfter(s: System, step: Step, last: nat): nat
    requires Next(s, step).Some?
  {
    if Prepares(s, step) then step.now
    else
      match Renewal(s, step)
      case Some(now) => now
      case None => last
  }

  /** The time of the last accepted call of a run, its prepare included. */
  function LastCall(s0: System, steps: seq<Step>): nat
    requires Run(s0, steps).Some?
  {
    if steps == [] then 0
    else
      var before, step := steps[..|steps| - 1], steps[|steps| - 1];
      LastAfter(Run(s0, before).value, step, LastCall(s0, before))
  }

  predicate RunsSince(m: Manager, last: nat) { m.occupied ==> m.lastActivity == last }

  lemma PreparedAt(m: Manager, r: Request, e: PrepareEnv, now: nat)
    requires Shaped(m) && Prepare(m, r, e, now).result == Ok
    ensures Prepare(m, r, e, now).m.lastActivity == now
  {
  }

  lemma PrepareSince(s: System, r: Request, e: PrepareEnv, now: nat, unlinkOk: bool, last: nat)
    requires Inv(s) && DoPrepare(s, r, e, now, unlinkOk).Some? && RunsSince(s.m, last)
    ensures RunsSince(DoPrepare(s, r, e, now, unlinkOk).value.m,
                      if Prepare(s.m, r, e, now).result == Ok then now else last)
  {
    if Prepare(s.m, r, e, now).result == Ok {
      PreparedAt(s.m, r, e, now);
    } else if s.m.occupied && r.size <= s.m.limits.maxFileBytes {
      RefusedPrepareClears(s.m, r, e, now);
    } else if !s.m.occupied {
      FailedPrepareLeaves(s.m, r, e, now);
    }
  }

  lemma HashDoneSince(s: System, f: nat, readOk: bool, e: FinishEnv, last: nat)
    requires Shaped(s.m) && DoHashDone(s, f, readOk, e).Some? && RunsSince(s.m, last)
    ensures RunsSince(DoHashDone(s, f, readOk, e).value.m, last)
  {
    if !Stale(s.m, s.finishers[f].id) && readOk {
      ConcludeEmpties(s.(finishers := Without(s.finishers, f)),
                      Sha256.Hex(Sha256.Finish(s.finishers[f].context)), e);
    }
  }

  lemma EmptyingSince(s: System, step: Step, last: nat)
    requires Shaped(s.m) && Next(s, step).Some? && RunsSince(s.m, last)
    requires step.FinishDrained? || step.HashDone? || step.ClearEndStep?
    ensures RunsSince(Next(s, step).value.m, last)
  {
    match step
    case FinishDrained(e) => DrainedOwns(s, e);
    case HashDone(f, readOk, e) => HashDoneSince(s, f, readOk, e, last);
    case ClearEndStep(_) =>
  }

  lemma StepSince(s: System, step: Step, last: nat)
    requires Inv(s) && Next(s, step).Some? && RunsSince(s.m, last)
    ensures RunsSince(Next(s, step).value.m, LastAfter(s, step, last))
  {
    if step.PrepareStep? {
      assert Next(s, step) == DoPrepare(s, step.r, step.pe, step.now, step.unlinkOk);
      PrepareSince(s, step.r, step.pe, step.now, step.unlinkOk, last);
    } else if Empties(step) {
      EmptyingSince(s, step, last);
    } else {
      StepGoesOn(s, step);
      StepRenews(s, step);
    }
  }

  lemma {:induction false} LeaseRunsSince(s0: System, steps: seq<Step>)
    requires Initial(s0) && Run(s0, steps).Some?
    ensures RunsSince(Run(s0, steps).value.m, LastCall(s0, steps))
  {
    if steps != [] {
      var before, step := steps[..|steps| - 1], steps[|steps| - 1];
      LeaseRunsSince(s0, before);
      RunKeeps(s0, before);
      StepSince(Run(s0, before).value, step, LastCall(s0, before));
    }
  }

  /**
    Over every run: a call at time `now` finds the lease over exactly when there is an upload, no unlocked write and
    no finish of it is under way, and the last accepted call lies a whole lease back. A refused call, the writer and a
    finish do not renew it; a call made at second 0 counts as none.
   */
  lemma LeaseOverExactly(s0: System, steps: seq<Step>, now: nat)
    requires Initial(s0) && Run(s0, steps).Some?
    ensures
      var s, last := Run(s0, steps).value, LastCall(s0, steps);
      LeaseExpired(s.m, now) <==>
        && s.m.occupied && !s.stream.Direct? && !s.m.finalizing && last != 0 && now >= last + s.m.limits.lease
  {
    RunKeeps(s0, steps);
    LeaseRunsSince(s0, steps);
  }
}
