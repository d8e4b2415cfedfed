/** What becomes of an upload that fails or is cancelled: it is never published, and its slot comes free. */
module UploadFailures {
  import opened Bytes
  import opened Upload
  import opened UploadRing
  import opened UploadStaging
  import opened UploadSystem
  import opened UploadInvariant
  import opened UploadStreams
  import opened UploadRuns
  import opened UploadSteps
  import opened UploadPublication
  import opened UploadCompletion
  import StreamCompletion = UploadStreamCompletion

  // ---------------------------------------------------------------- a write error

  /** How a failed write is reported. */
  function Report(error: nat): Result { if error == 28 then StorageFull else IoError }

  /** An upload that failed: a queued stream with bytes accepted, chunks, or a direct stream that is over. */
  ghost predicate Failed(s: System, error: nat) {
    && Inv(s) && s.m.occupied && s.m.started && s.m.error == error != 0
    && (if s.m.direct then s.stream == NoStream else s.m.chunkTransport || s.accepted != [])
  }

  /** The end of a writer's job that failed is the first failure of its upload. */
  lemma WriterFails(s: System, error: nat)
    requires Inv(s) && Next(s, WriterEndStep(error)).Some? && error != 0
    ensures s.m.error == 0 && Failed(Next(s, WriterEndStep(error)).value, error)
  {
    StepKeeps(s, WriterEndStep(error));
    if s.m.job.RingJob? { PopDropsFront(s.m.ring); }
  }

  /** So is that of an unlocked write, when nothing failed before. */
  lemma DirectFails(s: System, error: nat, now: nat)
    requires Inv(s) && Next(s, DirectDone(error, now)).Some? && error != 0
    ensures Failed(Next(s, DirectDone(error, now)).value, error)
  {
    StepKeeps(s, DirectDone(error, now));
  }

  /** A connection that is gone does not come back. */
  lemma ConnectionStaysGone(s: System, step: Step)
    requires Inv(s) && s.m.started && s.stream == NoStream && Next(s, step).Some? && !Empties(step)
    ensures Next(s, step).value.stream == NoStream
  {
    assert Next(s, step) == Do(s, step);
    match step
    case BeginStep(_, _, _, _, _) =>
    case CompleteReady(_) =>
    case _ =>
  }

  /** What a stream call does to the accepted bytes, and the switch to a stream that took some. */
  lemma StreamKeepsAccepted(s: System, step: Step)
    requires Shaped(s.m) && Do(s, step).Some? && IsStreamCall(step) && s.accepted != []
    ensures Do(s, step).value.accepted != []
    ensures s.m.received != 0 ==> Do(s, step).value.m.direct == s.m.direct
  {
    match step
    case WriteTurnStep(_) =>
    case DirectDone(_, _) =>
    case _ =>
  }

  lemma OthersKeepAccepted(s: System, step: Step)
    requires Shaped(s.m) && Do(s, step).Some? && !IsStreamCall(step) && !Empties(step)
    ensures Do(s, step).value.accepted == s.accepted
  {
  }

  lemma AcceptedStays(s: System, step: Step, error: nat)
    requires Failed(s, error) && !s.m.direct && !s.m.chunkTransport && Next(s, step).Some? && !Empties(step)
    ensures Next(s, step).value.accepted != [] && !Next(s, step).value.m.direct
  {
    assert Next(s, step) == Do(s, step);
    if IsStreamCall(step) {
      StreamKeepsAccepted(s, step);
    } else {
      StepKeepsStanding(s, step);
      OthersKeepAccepted(s, step);
    }
  }

  /** Chunks are never switched to the direct stream. */
  lemma ChunksStayChunks(s: System, step: Step)
    requires Inv(s) && s.m.occupied && s.m.chunkTransport && Next(s, step).Some? && !Empties(step)
    ensures Next(s, step).value.m.chunkTransport && !Next(s, step).value.m.direct
  {
    StepKeepsStanding(s, step);
    TransportIsChunked(s);
  }

  /** Once it failed, an upload stays failed, for the same reason, until its slot is emptied. */
  lemma FailureStays(s: System, step: Step, error: nat)
    requires Failed(s, error) && Next(s, step).Some? && !Empties(step)
    ensures Failed(Next(s, step).value, error) && Next(s, step).value.log == s.log
  {
    StepKeeps(s, step);
    StepGoesOn(s, step);
    StepKeepsStanding(s, step);
    if s.m.direct {
      ConnectionStaysGone(s, step);
    } else if s.m.chunkTransport {
      ChunksStayChunks(s, step);
    } else {
      AcceptedStays(s, step, error);
    }
  }

  /** No step that may empty the slot publishes it. */
  lemma FailureIsNotPublished(s: System, step: Step, error: nat)
    requires Failed(s, error) && Next(s, step).Some?
    ensures Next(s, step).value.log == s.log
  {
    if Empties(step) {
      StepEffect(s, step);
    } else {
      FailureStays(s, step, error);
    }
  }

  predicate NoneEmpties(steps: seq<Step>) { forall k :: 0 <= k < |steps| ==> !Empties(steps[k]) }

  lemma {:induction false} FailureLasts(s: System, steps: seq<Step>, error: nat)
    requires Failed(s, error) && Run(s, steps).Some? && NoneEmpties(steps)
    ensures Failed(Run(s, steps).value, error) && Run(s, steps).value.log == s.log
  {
    if steps != [] {
      var before := steps[..|steps| - 1];
      assert forall k :: 0 <= k < |before| ==> before[k] == steps[k];
      FailureLasts(s, before, error);
      assert !Empties(steps[|steps| - 1]);
      FailureStays(Run(s, before).value, steps[|steps| - 1], error);
    }
  }

  /**
    After a write error, whatever anyone does: the upload is not published, not by the step that empties its slot
    either; until then the next turn of upload_write and the end of its stream report that same error, and the writer
    takes no job.
   */
  lemma FailedUploadIsNotPublished(s: System, steps: seq<Step>, last: Step, error: nat, data: Bytes, now: nat)
    requires Failed(s, error) && Run(s, steps).Some? && NoneEmpties(steps) && Next(Run(s, steps).value, last).Some?
    ensures Next(Run(s, steps).value, last).value.log == s.log
    ensures
      var m := Run(s, steps).value.m;
      && Shaped(m) && m.error == error && !WriterRuns(m)
      && WriteTurn(m, data, now) == Out(Report(error), m)
      && FinishCheck(m, m.id) == if m.received == m.expected then Report(error) else SizeMismatch
  {
    FailureLasts(s, steps, error);
    FailureIsNotPublished(Run(s, steps).value, last, error);
  }

  lemma FailedDrainEnds(s: System, e: FinishEnv, error: nat)
    requires Failed(s, error) && s.stream == Draining
    ensures
      var r := DoFinishDrained(s, e);
      r.Some? && !r.value.m.occupied && r.value.log == s.log
  {
  }

  lemma FailedStreamEnds(s: System, error: nat)
    requires Failed(s, error) && s.stream == Open
    ensures DoFinishCall(s) == Some(s.(m := ClearBegin(s.m), stream := NoStream))
  {
  }

  lemma FailedWaitEnds(s: System, f: nat, error: nat)
    requires Failed(s, error) && f < |s.finishers| && s.finishers[f] == Waiting(s.m.id)
    ensures
      var r := DoCompleteReady(s, f);
      r.Some? && r.value.m == ClearBegin(s.m) && r.value.log == s.log
  {
  }

  /** The finish of a failed upload does not wait for ever: its slot is emptied, or starts to be cleared. */
  lemma FailedFinishEnds(s: System, f: nat, e: FinishEnv, now: nat, error: nat)
    requires Failed(s, error) && !LeaseExpired(s.m, now)
    ensures s.stream == Draining ==>
              var r := Next(s, FinishDrained(e));
              r.Some? && !r.value.m.occupied && r.value.log == s.log
    ensures s.stream == Open ==> Next(s, FinishCall(now)) == Some(s.(m := ClearBegin(s.m), stream := NoStream))
    ensures f < |s.finishers| && s.finishers[f] == Waiting(s.m.id) ==>
              var r := Next(s, CompleteReady(f));
              r.Some? && r.value.m == ClearBegin(s.m) && r.value.log == s.log
  {
    if s.stream == Draining {
      FailedDrainEnds(s, e, error);
      StreamCompletion.FinishDrainedStep(s, e);
    } else if s.stream == Open {
      FailedStreamEnds(s, error);
      FinishCallIs(s, now);
    }
    if f < |s.finishers| && s.finishers[f] == Waiting(s.m.id) {
      FailedWaitEnds(s, f, error);
      CompleteReadyIs(s, f);
    }
  }

  lemma FinishCallIs(s: System, now: nat)
    requires Shaped(s.m) && !LeaseExpired(s.m, now)
    ensures Next(s, FinishCall(now)) == DoFinishCall(s)
  {
  }

  lemma CompleteReadyIs(s: System, f: nat)
    requires Shaped(s.m)
    ensures Next(s, CompleteReady(f)) == DoCompleteReady(s, f)
  {
  }

  // ---------------------------------------------------------------- clearing the slot

  /** The running job comes to its end. */
  function FinishJob(m: Manager): seq<Step> {
    if m.job == NoJob then []
    else [WriterWroteStep(if m.job.written <= m.job.size then m.job.size - m.job.written else 0), WriterEndStep(0)]
  }

  lemma JobWrites(s: System)
    requires Inv(s) && s.m.job != NoJob
    ensures
      var r := Next(s, FinishJob(s.m)[0]);
      && r.Some? && Inv(r.value) && r.value.m.discard == s.m.discard && r.value.m.job != NoJob
      && r.value.m.job.written == r.value.m.job.size
      && r.value.log == s.log && r.value.m.partName == s.m.partName && r.value.m.occupied == s.m.occupied
  {
    WriterMemoryLive(s);
    WroteMovesJob(s.m, s.m.job.size - s.m.job.written);
    StepKeeps(s, FinishJob(s.m)[0]);
  }

  lemma JobEnds(s: System)
    requires Inv(s) && s.m.job != NoJob && s.m.job.written == s.m.job.size
    ensures
      var r := Next(s, WriterEndStep(0));
      && r.Some? && Inv(r.value) && r.value.m.discard == s.m.discard && r.value.m.job == NoJob
      && r.value.log == s.log && r.value.m.partName == s.m.partName && r.value.m.occupied == s.m.occupied
  {
    StepKeeps(s, WriterEndStep(0));
  }

  /** What a finished clear leaves. */
  predicate Cleared(s: System, t: System, unlinkOk: bool) {
    && !t.m.occupied && t.m.job == NoJob && !t.m.discard && !t.m.finalizing && t.log == s.log
    && (unlinkOk && s.m.partName != [] ==> s.m.partName !in t.dir)
  }

  lemma ClearsAtOnce(s: System, unlinkOk: bool)
    requires Inv(s) && s.m.discard && s.m.job == NoJob
    ensures
      var r := Next(s, ClearEndStep(unlinkOk));
      r.Some? && Inv(r.value) && Cleared(s, r.value, unlinkOk)
  {
    StepKeeps(s, ClearEndStep(unlinkOk));
  }

  /**
    A slot that is being cleared comes free: the writer's job, if one runs, comes to its end, no new one begins, and
    nothing is published.
   */
  lemma ClearingEnds(s: System, unlinkOk: bool) returns (steps: seq<Step>)
    requires Inv(s) && s.m.discard
    ensures |steps| <= 3 && Run(s, steps).Some? && Inv(Run(s, steps).value)
    ensures Cleared(s, Run(s, steps).value, unlinkOk)
  {
    if s.m.job == NoJob {
      ClearsAtOnce(s, unlinkOk);
      steps := [ClearEndStep(unlinkOk)];
      RunSnoc(s, [], ClearEndStep(unlinkOk));
      assert [] + [ClearEndStep(unlinkOk)] == steps;
    } else {
      var write := FinishJob(s.m)[0];
      JobWrites(s);
      var t := Next(s, write).value;
      JobEnds(t);
      var u := Next(t, WriterEndStep(0)).value;
      ClearsAtOnce(u, unlinkOk);
      ThreeSteps(s, write, WriterEndStep(0), ClearEndStep(unlinkOk));
      steps := [write, WriterEndStep(0), ClearEndStep(unlinkOk)];
    }
  }

  lemma ThreeSteps(s: System, first: Step, second: Step, third: Step)
    requires Next(s, first).Some? && Next(Next(s, first).value, second).Some?
    ensures Run(s, [first, second, third]) == Next(Next(Next(s, first).value, second).value, third)
  {
    RunSnoc(s, [], first);
    assert [] + [first] == [first];
    RunSnoc(s, [first], second);
    assert [first] + [second] == [first, second];
    RunSnoc(s, [first, second], third);
    assert [first, second] + [third] == [first, second, third];
  }

  /** Whoever starts to clear the slot, and whenever: it comes free, and the part file goes when unlink succeeds. */
  lemma ClearingFreesSlot(s: System, unlinkOk: bool) returns (steps: seq<Step>)
    requires Inv(s) && s.m.occupied
    ensures |steps| <= 4 && Run(s, steps).Some? && Inv(Run(s, steps).value)
    ensures Cleared(s, Run(s, steps).value, unlinkOk)
  {
    StepKeeps(s, ClearBeginStep);
    var t := s.(m := ClearBegin(s.m));
    assert Next(s, ClearBeginStep) == Some(t);
    var more := ClearingEnds(t, unlinkOk);
    RunCons(s, ClearBeginStep, more);
    steps := [ClearBeginStep] + more;
  }

  /** While it is being cleared, nobody gives the writer a new job or calls the clearing off. */
  lemma ClearingIsNotCalledOff(s: System, step: Step)
    requires s.m.discard && s.m.job == NoJob && Next(s, step).Some? && !Empties(step)
    ensures Next(s, step).value.m.discard && Next(s, step).value.m.job == NoJob
  {
    StepKeepsStanding(s, step);
  }
}
