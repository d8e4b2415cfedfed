/**
  Chunked uploads come to an end: a measure of what is left that every accepted step lowers, a run to the end from
  every state that is not blocked, and the exact condition under which there is one.
 */
module UploadCompletion {
  import opened Bytes
  import opened Upload
  import opened UploadRing
  import opened UploadStaging
  import opened UploadSystem
  import opened UploadInvariant
  import opened UploadStreams
  import opened UploadChunks
  import opened UploadRuns
  import opened UploadSteps
  import opened UploadProgress
  import Sha256

  // ---------------------------------------------------------------- a measure that decreases

  /**
    What one chunk still has to go through: its begin, its missing bytes, its finish, the start of the writer's job,
    its bytes once more on their way to disk, and the end of the job.
   */
  function Left(expected: nat, state: nat, progress: nat, i: nat): nat {
    var length := ChunkLength(expected, i);
    if state == 0 then 2 * length + 4
    else if state == 1 then (if progress <= length then length - progress else 0) + length + 3
    else if state == 2 then length + 2
    else 0
  }

  function Work(g: Staging, expected: nat, k: nat): nat
    requires StagingShape(g) && k <= g.count
  {
    if k == 0 then 0 else Work(g, expected, k - 1) + Left(expected, g.states[k - 1], g.progress[k - 1], k - 1)
  }

  /** What the running job has done of it. */
  function JobDone(job: Job): nat { if job.ChunkJob? then 1 + job.written else 0 }

  function Remaining(m: Manager): nat
    requires Shaped(m)
  {
    var work := Work(m.staging, m.expected, m.staging.count);
    if work >= JobDone(m.job) then work - JobDone(m.job) else 0
  }

  /** Changing one chunk changes the work by what that chunk has left. */
  lemma {:induction false} WorkUpdate(g: Staging, g': Staging, expected: nat, i: nat, k: nat)
    requires StagingShape(g) && StagingShape(g') && g'.count == g.count && k <= g.count
    requires forall j :: 0 <= j < g.count && j != i ==> g'.states[j] == g.states[j] && g'.progress[j] == g.progress[j]
    ensures i < k ==> Work(g', expected, k) + Left(expected, g.states[i], g.progress[i], i) ==
                      Work(g, expected, k) + Left(expected, g'.states[i], g'.progress[i], i)
    ensures i >= k ==> Work(g', expected, k) == Work(g, expected, k)
  {
    if k > 0 {
      WorkUpdate(g, g', expected, i, k - 1);
    }
  }

  /** One chunk's share of the work. */
  lemma {:induction false} WorkCovers(g: Staging, expected: nat, i: nat, k: nat)
    requires StagingShape(g) && i < k <= g.count
    ensures Work(g, expected, k) >= Left(expected, g.states[i], g.progress[i], i)
  {
    if i < k - 1 { WorkCovers(g, expected, i, k - 1); }
  }

  /** The running job has never done more than its chunk has left. */
  lemma JobWithinWork(s: System)
    requires Inv(s) && s.m.occupied && Chunked(s)
    ensures Work(s.m.staging, s.m.expected, s.m.staging.count) >= JobDone(s.m.job)
  {
    if s.m.job.ChunkJob? {
      WorkCovers(s.m.staging, s.m.expected, s.m.staging.next, s.m.staging.count);
    }
  }

  /** The measure is zero exactly when every chunk is on disk. */
  lemma {:induction false} NoWorkMeansWritten(g: Staging, expected: nat, received: nat, pieces: seq<Bytes>, k: nat)
    requires StagingInv(g, expected, received, pieces) && k <= g.count
    ensures Work(g, expected, k) == 0 <==> k <= g.next
  {
    if k > 0 {
      NoWorkMeansWritten(g, expected, received, pieces, k - 1);
      assert ChunkOk(g, expected, pieces, k - 1);
    }
  }

  /** Steps that bring the upload on: accepted chunk calls with something in them, and a writer without errors. */
  predicate Forward(s: System, step: Step)
    requires Shaped(s.m)
  {
    match step
    case ChunkBeginStep(id, client, authorization, total, offset, length, alloc, now) =>
      (alloc.Some? ==> |alloc.value| == length) &&
      ChunkBegin(s.m, id, client, authorization, total, offset, length, alloc, now).result == Ok
    case ChunkWriteStep(id, offset, data, now) => data != [] && ChunkWrite(s.m, id, offset, data, now).result == Ok
    case ChunkFinishStep(id, offset, length, now) => ChunkFinish(s.m, id, offset, length, now).result == Ok
    case WriterStartStep => true
    case WriterWroteStep(k) => k > 0
    case WriterEndStep(error) => error == 0
    case _ => false
  }

  /** The call left less work, for the same job. */
  predicate Lowered(m: Manager, m': Manager)
    requires Shaped(m)
  {
    && Shaped(m') && m'.chunkTransport && m'.occupied && m'.job == m.job && m'.staging.count == m.staging.count
    && Work(m'.staging, m'.expected, m'.staging.count) < Work(m.staging, m.expected, m.staging.count)
  }

  lemma BeginLowers(s: System, id: Bytes, client: Bytes, authorization: Bytes, total: nat, offset: nat, length: nat,
                    alloc: Option<Bytes>, now: nat)
    requires Inv(s) && (alloc.Some? ==> |alloc.value| == length)
    requires ChunkBegin(s.m, id, client, authorization, total, offset, length, alloc, now).result == Ok
    ensures Lowered(s.m, ChunkBegin(s.m, id, client, authorization, total, offset, length, alloc, now).m)
  {
    BeginAccepted(s, id, client, authorization, total, offset, length, alloc.value, now);
    var i := offset / CHUNK;
    WorkUpdate(s.m.staging, Begun(s.m.staging, i, alloc.value), s.m.expected, i, s.m.staging.count);
  }

  lemma WriteLowers(m: Manager, id: Bytes, offset: nat, data: Bytes, now: nat)
    requires Shaped(m) && m.chunkTransport && data != [] && ChunkWrite(m, id, offset, data, now).result == Ok
    ensures Lowered(m, ChunkWrite(m, id, offset, data, now).m)
  {
    WriteAccepted(m, id, offset, data, now);
    var i := offset / CHUNK;
    WorkUpdate(m.staging, Received(m.staging, i, data), m.expected, i, m.staging.count);
  }

  lemma FinishLowers(m: Manager, id: Bytes, offset: nat, length: nat, now: nat)
    requires Shaped(m) && m.chunkTransport && ChunkFinish(m, id, offset, length, now).result == Ok
    ensures Lowered(m, ChunkFinish(m, id, offset, length, now).m)
  {
    FinishAccepted(m, id, offset, length, now);
    var i := offset / CHUNK;
    WorkUpdate(m.staging, Finished(m.staging, i), m.expected, i, m.staging.count);
  }

  /** The end of a chunk job takes its chunk off. */
  lemma EndRetires(s: System)
    requires Inv(s) && s.m.occupied && Chunked(s) && s.m.job.ChunkJob? && s.m.job.written == s.m.job.size
    ensures WriterEnd(s.m, 0) == s.m.(staging := Written(s.m.staging), job := NoJob)
    ensures s.m.staging.active > 0
    ensures Shaped(WriterEnd(s.m, 0))
  {
    assert ChunkOk(s.m.staging, s.m.expected, s.pieces, s.m.staging.next);
    WrittenKeeps(s.m.staging, s.m.expected, s.m.received, s.pieces);
  }

  lemma EndLowers(s: System)
    requires Inv(s) && s.m.occupied && Chunked(s) && s.m.job.ChunkJob? && s.m.job.written == s.m.job.size
    ensures Shaped(WriterEnd(s.m, 0)) && Remaining(WriterEnd(s.m, 0)) < Remaining(s.m)
  {
    EndRetires(s);
    var g := s.m.staging;
    assert ChunkOk(g, s.m.expected, s.pieces, g.next);
    WorkUpdate(g, Written(g), s.m.expected, g.next, g.count);
    JobWithinWork(s);
  }

  lemma ChunkCallLowers(s: System, step: Step)
    requires Inv(s) && s.m.occupied && (Chunked(s) || Prepared(s)) && IsChunkCall(step) && Forward(s, step)
    requires Do(s, step).Some?
    ensures Lowered(s.m, Do(s, step).value.m)
  {
    match step
    case ChunkBeginStep(id, client, authorization, total, offset, length, alloc, now) =>
      BeginLowers(s, id, client, authorization, total, offset, length, alloc, now);
    case ChunkWriteStep(id, offset, data, now) =>
      WriteAccepted(s.m, id, offset, data, now);
      ReceivingIsChunked(s, offset / CHUNK);
      WriteLowers(s.m, id, offset, data, now);
    case ChunkFinishStep(id, offset, length, now) =>
      FinishAccepted(s.m, id, offset, length, now);
      ReceivingIsChunked(s, offset / CHUNK);
      FinishLowers(s.m, id, offset, length, now);
  }

  lemma WriterLowers(s: System, step: Step)
    requires Inv(s) && s.m.occupied && Chunked(s) && IsWriterStep(step) && Forward(s, step) && Do(s, step).Some?
    ensures
      var m := Do(s, step).value.m;
      Shaped(m) && m.chunkTransport && m.occupied && Remaining(m) < Remaining(s.m)
  {
    JobWithinWork(s);
    match step
    case WriterStartStep =>
      WorkCovers(s.m.staging, s.m.expected, s.m.staging.next, s.m.staging.count);
    case WriterWroteStep(k) =>
      WorkCovers(s.m.staging, s.m.expected, s.m.staging.next, s.m.staging.count);
      WroteMovesJob(s.m, k);
    case WriterEndStep(_) =>
      EndLowers(s);
  }

  lemma NoMoreThanBefore(m: Manager, m': Manager)
    requires Shaped(m) && Shaped(m') && m'.job == m.job
    requires JobDone(m.job) <= Work(m.staging, m.expected, m.staging.count)
    requires Work(m'.staging, m'.expected, m'.staging.count) < Work(m.staging, m.expected, m.staging.count)
    ensures m.job == NoJob ==> Remaining(m') < Remaining(m)
    ensures JobDone(m.job) <= Work(m'.staging, m'.expected, m'.staging.count) ==> Remaining(m') < Remaining(m)
    ensures JobDone(m.job) > 0 && Remaining(m) > 0 ==> Remaining(m') < Remaining(m)
  {
  }

  /** A chunk under way still has its end to come. */
  lemma SomethingRemains(s: System)
    requires Inv(s) && s.m.occupied && Chunked(s) && s.m.job.ChunkJob?
    ensures Remaining(s.m) > 0
  {
    WorkCovers(s.m.staging, s.m.expected, s.m.staging.next, s.m.staging.count);
  }

  lemma ChunkCallLowersRemaining(s: System, step: Step)
    requires Inv(s) && s.m.occupied && (Chunked(s) || Prepared(s)) && IsChunkCall(step) && Forward(s, step)
    requires Do(s, step).Some?
    ensures
      var m := Do(s, step).value.m;
      Shaped(m) && m.chunkTransport && m.occupied && Remaining(m) < Remaining(s.m)
  {
    ChunkCallLowers(s, step);
    if Chunked(s) {
      JobWithinWork(s);
      if s.m.job.ChunkJob? { SomethingRemains(s); }
    }
    NoMoreThanBefore(s.m, Do(s, step).value.m);
  }

  lemma ForwardLowers(s: System, step: Step)
    requires Inv(s) && s.m.occupied && (Chunked(s) || Prepared(s)) && Forward(s, step) && Do(s, step).Some?
    ensures
      var m := Do(s, step).value.m;
      Shaped(m) && m.chunkTransport && m.occupied && Remaining(m) < Remaining(s.m)
  {
    if IsChunkCall(step) {
      ChunkCallLowersRemaining(s, step);
    } else {
      WriterLowers(s, step);
    }
  }

  lemma TransportIsChunked(s: System)
    requires Inv(s) && s.m.occupied && s.m.chunkTransport
    ensures Chunked(s)
  {
  }

  /**
    Without aborts, every accepted chunk call, and every step of the writer that does something without an error,
    lowers the measure of the state; so no run has more of them than the measure at its start.
   */
  lemma ForwardDecreases(s: System, step: Step)
    requires Inv(s) && s.m.occupied && (Chunked(s) || Prepared(s)) && Forward(s, step) && Next(s, step).Some?
    ensures
      var s' := Next(s, step).value;
      Inv(s') && s'.m.occupied && Chunked(s') && Remaining(s'.m) < Remaining(s.m)
  {
    ForwardLowers(s, step);
    StepKeeps(s, step);
    TransportIsChunked(Next(s, step).value);
  }

  // ---------------------------------------------------------------- runs that give nothing back

  /** A step in front of a run. */
  lemma {:induction false} RunCons(s: System, step: Step, steps: seq<Step>)
    requires Next(s, step).Some?
    ensures Run(s, [step] + steps) == Run(Next(s, step).value, steps)
    decreases |steps|
  {
    var all := [step] + steps;
    if steps == [] {
      assert all[..0] == [] && all == [step];
    } else {
      var init := steps[..|steps| - 1];
      RunCons(s, step, init);
      assert all[..|all| - 1] == [step] + init;
    }
  }

  /** The step gives no chunk back and does not empty the slot. */
  predicate Onward(s: System, step: Step)
    requires Shaped(s.m)
  {
    && !Empties(step) && !step.ChunkAbortStep?
    && (step.ChunkFinishStep? ==> ChunkFinish(s.m, step.id, step.offset, step.length, step.now).result != SizeMismatch)
  }

  /** A run of such steps. */
  predicate OnwardRun(s: System, steps: seq<Step>)
    decreases |steps|
  {
    steps == [] ||
    (Shaped(s.m) && Next(s, steps[0]).Some? && Onward(s, steps[0]) && OnwardRun(Next(s, steps[0]).value, steps[1..]))
  }

  /** Where a run leads. */
  function After(s: System, steps: seq<Step>): System
    requires OnwardRun(s, steps)
    decreases |steps|
  {
    if steps == [] then s else After(Next(s, steps[0]).value, steps[1..])
  }

  lemma {:induction false} AfterIsRun(s: System, steps: seq<Step>)
    requires OnwardRun(s, steps)
    ensures Run(s, steps) == Some(After(s, steps))
    decreases |steps|
  {
    if steps != [] {
      AfterIsRun(Next(s, steps[0]).value, steps[1..]);
      RunCons(s, steps[0], steps[1..]);
      assert [steps[0]] + steps[1..] == steps;
    }
  }

  // ---------------------------------------------------------------- the next turn

  /** The next chunk to write has not begun, and every slot is taken by others. */
  predicate Blocked(g: Staging)
    requires StagingShape(g)
  {
    g.next < g.count && g.states[g.next] == 0 && g.active == SLOTS
  }

  /** A chunked upload that nothing has stopped. */
  ghost predicate Able(s: System) {
    && Inv(s) && s.m.occupied && Chunked(s) && s.m.error == 0 && !s.m.discard && !s.m.finalizing
    && s.m.limits.lease > 0
  }

  /** What each chunk is to hold in the end, going on from what it holds. */
  predicate Wanted(s: System, want: seq<Bytes>)
    requires Shaped(s.m)
  {
    && |want| == s.m.staging.count == |s.pieces|
    && forall i :: 0 <= i < |want| ==> |want[i]| == ChunkLength(s.m.expected, i) && s.pieces[i] <= want[i]
  }

  /** The step that is due for the next chunk; the clock stands where the last call left it. */
  function Turn(s: System, want: seq<Bytes>): Step
    requires Shaped(s.m) && s.m.staging.next < s.m.staging.count == |want|
  {
    var m, i := s.m, s.m.staging.next;
    if m.job.ChunkJob? then
      if m.job.written < m.job.size then WriterWroteStep(m.job.size - m.job.written) else WriterEndStep(0)
    else if m.staging.states[i] == 2 then WriterStartStep
    else if m.staging.states[i] == 1 then
      if m.staging.progress[i] < |want[i]| then
        ChunkWriteStep(m.id, i * CHUNK + m.staging.progress[i], want[i][m.staging.progress[i]..], m.lastActivity)
      else ChunkFinishStep(m.id, i * CHUNK, |want[i]|, m.lastActivity)
    else
      ChunkBeginStep(m.id, m.client, m.authorization, m.expected, i * CHUNK, |want[i]|, Some(Zeros(|want[i]|)),
                     m.lastActivity)
  }

  lemma NotOverdue(s: System, want: seq<Bytes>)
    requires Able(s) && s.m.staging.next < s.m.staging.count == |want|
    ensures !Overdue(s.m, Turn(s, want))
  {
  }

  lemma TurnBegins(s: System, length: nat)
    requires Able(s) && s.m.staging.next < s.m.staging.count && s.m.staging.states[s.m.staging.next] == 0
    requires s.m.staging.active < SLOTS && length == ChunkLength(s.m.expected, s.m.staging.next)
    ensures
      var m, i := s.m, s.m.staging.next;
      var out := ChunkBegin(m, m.id, m.client, m.authorization, m.expected, i * CHUNK, length, Some(Zeros(length)),
                            m.lastActivity);
      && out.result == Ok && out.m == m.(staging := Begun(m.staging, i, Zeros(length)))
  {
    var i := s.m.staging.next;
    ExtentsTile(s.m.expected, i);
    assert i * 0x80_0000 / 0x80_0000 == i;
    AdmittedExtents(s.m.expected, s.m.expected, i * CHUNK, length);
  }

  lemma TurnWrites(s: System, data: Bytes)
    requires Able(s) && s.m.staging.next < s.m.staging.count && s.m.staging.states[s.m.staging.next] == 1
    requires data != [] && s.m.staging.progress[s.m.staging.next] + |data| ==
            ChunkLength(s.m.expected, s.m.staging.next)
    ensures
      var m, i := s.m, s.m.staging.next;
      var offset := i * CHUNK + m.staging.progress[i];
      var out := ChunkWrite(m, m.id, offset, data, m.lastActivity);
      && offset / CHUNK == i && out.result == Ok && m.staging.buffers[i].Some?
      && m.staging.progress[i] + |data| <= |m.staging.buffers[i].value|
      && out.m == m.(staging := Received(m.staging, i, data), received := m.received + |data|)
  {
    var m, i := s.m, s.m.staging.next;
    assert ChunkOk(m.staging, m.expected, s.pieces, i);
    ExtentsTile(m.expected, i);
    assert (i * 0x80_0000 + m.staging.progress[i]) / 0x80_0000 == i;
  }

  lemma TurnFinishes(s: System)
    requires Able(s) && s.m.staging.next < s.m.staging.count && s.m.staging.states[s.m.staging.next] == 1
    requires s.m.staging.progress[s.m.staging.next] == ChunkLength(s.m.expected, s.m.staging.next)
    ensures
      var m, i := s.m, s.m.staging.next;
      var out := ChunkFinish(m, m.id, i * CHUNK, ChunkLength(m.expected, i), m.lastActivity);
      && i * CHUNK / CHUNK == i
      && out.result == Ok && out.m == m.(staging := Finished(m.staging, i))
  {
    var m, i := s.m, s.m.staging.next;
    assert ChunkOk(m.staging, m.expected, s.pieces, i);
    ExtentsTile(m.expected, i);
    assert i * 0x80_0000 / 0x80_0000 == i && i * 0x80_0000 % 0x80_0000 == 0;
  }

  /** The turn left the way free, and changed nothing but the arrays, the job and what is on disk. */
  predicate WayFree(s: System, s': System, want: seq<Bytes>) {
    && Shaped(s'.m) && s'.m.chunkTransport && s'.m.occupied && s'.m.error == 0
    && s'.m.discard == s.m.discard && s'.m.finalizing == s.m.finalizing && s'.m.lastActivity == s.m.lastActivity
    && s'.m.limits == s.m.limits && s'.m.expected == s.m.expected
    && s'.finishers == s.finishers
    && !Blocked(s'.m.staging) && Wanted(s', want)
  }

  lemma BeginTurn(s: System, want: seq<Bytes>)
    requires Able(s) && !Blocked(s.m.staging) && Wanted(s, want) && s.m.staging.next < s.m.staging.count
    requires s.m.job == NoJob && s.m.staging.states[s.m.staging.next] == 0
    ensures Forward(s, Turn(s, want)) && Do(s, Turn(s, want)).Some?
    ensures WayFree(s, Do(s, Turn(s, want)).value, want)
  {
    TurnBegins(s, |want[s.m.staging.next]|);
  }

  lemma DataTurn(s: System, want: seq<Bytes>)
    requires Able(s) && Wanted(s, want) && s.m.staging.next < s.m.staging.count
    requires s.m.job == NoJob && s.m.staging.states[s.m.staging.next] == 1
    requires s.m.staging.progress[s.m.staging.next] < |want[s.m.staging.next]|
    ensures Forward(s, Turn(s, want)) && Do(s, Turn(s, want)).Some?
    ensures WayFree(s, Do(s, Turn(s, want)).value, want)
  {
    var i := s.m.staging.next;
    var p := s.m.staging.progress[i];
    assert ChunkOk(s.m.staging, s.m.expected, s.pieces, i);
    TurnWrites(s, want[i][p..]);
    assert s.pieces[i] + want[i][p..] == want[i];
  }

  lemma FinishTurn(s: System, want: seq<Bytes>)
    requires Able(s) && Wanted(s, want) && s.m.staging.next < s.m.staging.count
    requires s.m.job == NoJob && s.m.staging.states[s.m.staging.next] == 1
    requires s.m.staging.progress[s.m.staging.next] == |want[s.m.staging.next]|
    ensures Forward(s, Turn(s, want)) && Do(s, Turn(s, want)).Some?
    ensures WayFree(s, Do(s, Turn(s, want)).value, want)
  {
    TurnFinishes(s);
  }

  /** The chunk calls among the turns. */
  lemma CallTurn(s: System, want: seq<Bytes>)
    requires Able(s) && !Blocked(s.m.staging) && Wanted(s, want) && s.m.staging.next < s.m.staging.count
    requires s.m.job == NoJob && s.m.staging.states[s.m.staging.next] < 2
    ensures Forward(s, Turn(s, want)) && Do(s, Turn(s, want)).Some?
    ensures WayFree(s, Do(s, Turn(s, want)).value, want)
  {
    var i := s.m.staging.next;
    assert ChunkOk(s.m.staging, s.m.expected, s.pieces, i);
    if s.m.staging.states[i] == 0 {
      BeginTurn(s, want);
    } else if s.m.staging.progress[i] < |want[i]| {
      DataTurn(s, want);
    } else {
      FinishTurn(s, want);
    }
  }

  /** The turns of the writer. */
  lemma WriterTurn(s: System, want: seq<Bytes>)
    requires Able(s) && !Blocked(s.m.staging) && Wanted(s, want) && s.m.staging.next < s.m.staging.count
    requires s.m.staging.states[s.m.staging.next] == 2
    ensures Forward(s, Turn(s, want)) && Do(s, Turn(s, want)).Some?
    ensures WayFree(s, Do(s, Turn(s, want)).value, want)
  {
    var i := s.m.staging.next;
    assert ChunkOk(s.m.staging, s.m.expected, s.pieces, i);
    if s.m.job.ChunkJob? {
      WriterMemoryLive(s);
      if s.m.job.written < s.m.job.size {
        WroteMovesJob(s.m, s.m.job.size - s.m.job.written);
      } else {
        EndRetires(s);
      }
    }
  }

  lemma WriterIsOnNext(s: System)
    requires Able(s) && s.m.staging.next < s.m.staging.count
    ensures s.m.staging.states[s.m.staging.next] <= 2
    ensures s.m.job == NoJob || s.m.staging.states[s.m.staging.next] == 2
  {
    assert ChunkOk(s.m.staging, s.m.expected, s.pieces, s.m.staging.next);
  }

  lemma FreeIsAble(s: System, s': System, want: seq<Bytes>)
    requires Able(s) && Inv(s') && WayFree(s, s', want)
    ensures Able(s')
  {
    TransportIsChunked(s');
  }

  /** The turn that is due can be taken, lowers the measure, and leaves the way free. */
  lemma TurnWorks(s: System, want: seq<Bytes>)
    requires Able(s) && !Blocked(s.m.staging) && Wanted(s, want) && s.m.staging.next < s.m.staging.count
    ensures
      var r := Next(s, Turn(s, want));
      && r.Some? && Forward(s, Turn(s, want)) && Onward(s, Turn(s, want)) && Able(r.value) && WayFree(s, r.value, want)
      && Remaining(r.value.m) < Remaining(s.m)
  {
    NotOverdue(s, want);
    WriterIsOnNext(s);
    if s.m.staging.states[s.m.staging.next] == 2 {
      WriterTurn(s, want);
    } else {
      CallTurn(s, want);
    }
    ForwardDecreases(s, Turn(s, want));
    FreeIsAble(s, Next(s, Turn(s, want)).value, want);
  }

  // ---------------------------------------------------------------- runs to the end

  /** What a run of turns leaves alone. */
  predicate SameNames(s: System, s': System) {
    SameUpload(s.m, s'.m) && s'.log == s.log && (s'.m.finalName in s'.dir <==> s.m.finalName in s.dir)
  }

  lemma TurnKeepsNames(s: System, want: seq<Bytes>)
    requires Able(s) && !Blocked(s.m.staging) && Wanted(s, want) && s.m.staging.next < s.m.staging.count
    requires Next(s, Turn(s, want)).Some?
    ensures SameNames(s, Next(s, Turn(s, want)).value)
  {
    StepGoesOn(s, Turn(s, want));
  }

  /**
    From every state that is not blocked the upload comes to the point where all of it is on disk, with any content
    that goes on from what it has, in no more steps than the measure says.
   */
  lemma {:induction false} ReachWritten(s: System, want: seq<Bytes>) returns (steps: seq<Step>)
    requires Able(s) && !Blocked(s.m.staging) && Wanted(s, want)
    ensures |steps| <= Remaining(s.m) && OnwardRun(s, steps)
    ensures
      var s' := After(s, steps);
      && Able(s') && Wanted(s', want) && s'.m.staging.next == s'.m.staging.count && SameNames(s, s')
      && s'.finishers == s.finishers
    decreases Remaining(s.m)
  {
    if s.m.staging.next == s.m.staging.count {
      steps := [];
    } else {
      TurnWorks(s, want);
      TurnKeepsNames(s, want);
      var t := Next(s, Turn(s, want)).value;
      var more := ReachWritten(t, want);
      steps := [Turn(s, want)] + more;
      assert steps[1..] == more;
    }
  }

  // ---------------------------------------------------------------- exactly when there is one

  lemma BlockedCall(s: System, step: Step)
    requires Inv(s) && s.m.occupied && Chunked(s) && Blocked(s.m.staging) && IsChunkCall(step) && Onward(s, step)
    requires Do(s, step).Some?
    ensures Blocked(Do(s, step).value.m.staging)
  {
    match step
    case ChunkBeginStep(id, client, authorization, total, offset, length, alloc, now) =>
    case ChunkWriteStep(id, offset, data, now) =>
      if data != [] && ChunkWrite(s.m, id, offset, data, now).result == Ok {
        WriteAccepted(s.m, id, offset, data, now);
      }
    case ChunkFinishStep(id, offset, length, now) =>
      if ChunkFinish(s.m, id, offset, length, now).result == Ok { FinishAccepted(s.m, id, offset, length, now); }
  }

  lemma BlockedWriter(s: System, step: Step)
    requires Inv(s) && s.m.occupied && Chunked(s) && Blocked(s.m.staging) && IsWriterStep(step)
    ensures Do(s, step).None?
  {
  }

  /** Steps that are no chunk calls and not the writer's leave the arrays alone. */
  lemma OthersLeaveArrays(s: System, step: Step)
    requires Inv(s) && s.m.occupied && Chunked(s) && !IsChunkCall(step) && !IsWriterStep(step) && !Empties(step)
    requires Do(s, step).Some?
    ensures Do(s, step).value.m.staging == s.m.staging
    ensures Do(s, step).value.m.chunkTransport && Do(s, step).value.m.occupied
  {
    match step
    case BeginStep(_, _, _, _, _) =>
    case CompleteCall(_, _, _, _) =>
    case CompleteReady(_) =>
    case HashRead(_, _) =>
    case ClearBeginStep =>
    case Outside(_, _) =>
  }

  predicate StillChunked(m: Manager) { m.chunkTransport && m.occupied }

  lemma BeginKeepsTransport(m: Manager, id: Bytes, client: Bytes, authorization: Bytes, total: nat, offset: nat,
                            length: nat, alloc: Option<Bytes>, now: nat)
    requires Shaped(m) && (alloc.Some? ==> |alloc.value| == length) && StillChunked(m)
    ensures StillChunked(ChunkBegin(m, id, client, authorization, total, offset, length, alloc, now).m)
  {
  }

  lemma ChunkCallsKeepTransport(s: System, step: Step)
    requires Shaped(s.m) && StillChunked(s.m) && IsChunkCall(step) && Do(s, step).Some?
    ensures StillChunked(Do(s, step).value.m)
  {
    match step
    case ChunkBeginStep(id, client, authorization, total, offset, length, alloc, now) =>
      BeginKeepsTransport(s.m, id, client, authorization, total, offset, length, alloc, now);
    case ChunkWriteStep(_, _, _, _) =>
    case ChunkFinishStep(_, _, _, _) =>
    case ChunkAbortStep(_, _, _) =>
  }

  /** A blocked upload stays blocked until a chunk is given back or the slot emptied. */
  lemma BlockedStays(s: System, step: Step)
    requires Inv(s) && s.m.occupied && Chunked(s) && Blocked(s.m.staging) && Next(s, step).Some? && Onward(s, step)
    ensures
      var s' := Next(s, step).value;
      Inv(s') && s'.m.occupied && Chunked(s') && Blocked(s'.m.staging)
  {
    StepKeeps(s, step);
    if IsChunkCall(step) {
      BlockedCall(s, step);
      ChunkCallsKeepTransport(s, step);
    } else if IsWriterStep(step) {
      BlockedWriter(s, step);
    } else {
      OthersLeaveArrays(s, step);
    }
    TransportIsChunked(Next(s, step).value);
  }

  lemma {:induction false} BlockedForever(s: System, steps: seq<Step>)
    requires Inv(s) && s.m.occupied && Chunked(s) && Blocked(s.m.staging) && OnwardRun(s, steps)
    ensures
      var s' := After(s, steps);
      Shaped(s'.m) && Blocked(s'.m.staging)
    decreases |steps|
  {
    if steps != [] {
      BlockedStays(s, steps[0]);
      BlockedForever(Next(s, steps[0]).value, steps[1..]);
    }
  }

  /** Every chunk is on disk. */
  predicate AllOnDisk(s: System) { s.m.staging.next == s.m.staging.count }

  /** The bytes each chunk has, filled up with zeros. */
  function Padded(s: System): seq<Bytes> {
    seq(|s.pieces|, i requires 0 <= i < |s.pieces| =>
      var length := ChunkLength(s.m.expected, i);
      if |s.pieces[i]| <= length then s.pieces[i] + Zeros(length - |s.pieces[i]|) else s.pieces[i])
  }

  lemma PaddedIsWanted(s: System)
    requires Able(s)
    ensures Wanted(s, Padded(s))
  {
    forall i | 0 <= i < |s.pieces|
      ensures |Padded(s)[i]| == ChunkLength(s.m.expected, i) && s.pieces[i] <= Padded(s)[i]
    {
      assert ChunkOk(s.m.staging, s.m.expected, s.pieces, i);
    }
  }

  /**
    A chunked upload that nothing has stopped can be brought to the end, without giving a chunk back, if and only if
    it is not blocked: the next chunk to write has begun, or a slot is left for it.
   */
  lemma CompletesExactly(s: System)
    requires Able(s)
    ensures (exists steps :: OnwardRun(s, steps) && AllOnDisk(After(s, steps))) <==> !Blocked(s.m.staging)
  {
    if !Blocked(s.m.staging) {
      PaddedIsWanted(s);
      var steps := ReachWritten(s, Padded(s));
    } else {
      forall steps | OnwardRun(s, steps) ensures !AllOnDisk(After(s, steps)) {
        BlockedForever(s, steps);
      }
    }
  }

  /** In particular when every chunk that holds a buffer lies within twelve of the next one to write. */
  lemma InWindowCompletes(s: System)
    requires Able(s) && InWindow(s.m.staging)
    ensures exists steps :: OnwardRun(s, steps) && AllOnDisk(After(s, steps))
  {
    var g := s.m.staging;
    if g.next < g.count && g.states[g.next] == 0 {
      HeldBound(g, s.m.expected, s.m.received, s.pieces, g.count);
      assert g.states[..g.count] == g.states;
    }
    CompletesExactly(s);
  }

  // ---------------------------------------------------------------- publication

  /** Every system call of a conclusion succeeds; the name is made by link, or by rename where links are refused. */
  predicate AllWell(e: FinishEnv) { e.syncOk && e.closeOk && !e.mode.Refused? }

  /** The hash that was declared, if any, is that of the content. */
  ghost predicate HashAgrees(declared: Bytes, content: Bytes) {
    declared == [] || declared == Sha256.Hex(Sha256.Digest(content))
  }

  lemma AsksForCompletion(s: System)
    requires Able(s) && AllOnDisk(s)
    ensures
      var r := Next(s, CompleteCall(s.m.id, s.m.client, s.m.authorization, s.m.lastActivity));
      && r.Some? && Inv(r.value)
      && r.value == s.(m := s.m.(finalizing := true), finishers := s.finishers + [Waiting(s.m.id)])
  {
    AllWritten(s.m.staging, s.m.expected, s.m.received, s.pieces);
    AllCompleted(s.m.staging, s.m.expected, s.m.received, s.pieces);
    StepKeeps(s, CompleteCall(s.m.id, s.m.client, s.m.authorization, s.m.lastActivity));
  }

  /** A completion that was admitted, over a file that is whole. */
  ghost predicate Completing(s: System, f: nat) {
    && Inv(s) && s.m.occupied && Chunked(s) && s.m.error == 0 && s.m.finalizing && AllOnDisk(s)
    && f < |s.finishers| && s.finishers[f].id == s.m.id
  }

  lemma StartsHashing(s: System, f: nat)
    requires Completing(s, f) && s.finishers[f].Waiting?
    ensures
      var r := Next(s, CompleteReady(f));
      && r.Some? && Completing(r.value, f)
      && r.value == s.(finishers := s.finishers[f := Hashing(s.m.id, true, 0, Sha256.ContextOf([]))])
  {
    StepKeeps(s, CompleteReady(f));
    TransportIsChunked(Next(s, CompleteReady(f)).value);
  }

  /** A pass over the part file of the running upload, with the writer between jobs. */
  ghost predicate Passing(s: System, f: nat) {
    && Inv(s) && s.m.occupied && s.m.finalizing && s.m.job == NoJob
    && f < |s.finishers| && s.finishers[f].Hashing? && s.finishers[f].id == s.m.id
  }

  lemma CompletingPasses(s: System, f: nat)
    requires Completing(s, f) && s.finishers[f].Hashing?
    ensures Passing(s, f)
  {
  }

  /** A pass that starts has a context that can take bytes. */
  lemma ContextReady(s: System, f: nat)
    requires Passing(s, f) && s.finishers[f].position == 0
    ensures Sha256.WellFormed(s.finishers[f].context)
  {
    assert FinisherOk(s, s.finishers[f]);
    Sha256.HoldsAbsorb(s.finishers[f].context, File(s)[..0], []);
  }

  lemma ReadsFrom0(s: System, f: nat)
    requires f < |s.finishers| && s.finishers[f].Hashing? && s.finishers[f].position == 0
    requires s.m.occupied && s.m.id == s.finishers[f].id && Sha256.WellFormed(s.finishers[f].context)
    ensures
      var r := DoHashRead(s, f, |File(s)|);
      && r.Some? && r.value == s.(finishers := r.value.finishers) && |r.value.finishers| == |s.finishers|
      && r.value.finishers[f].Hashing? && r.value.finishers[f].position == |File(s)|
      && r.value.finishers[f].id == s.finishers[f].id
  {
  }

  lemma ReadsItAll(s: System, f: nat)
    requires Passing(s, f) && s.finishers[f].position == 0
    ensures
      var r := Next(s, HashRead(f, |File(s)|));
      && r.Some? && Passing(r.value, f) && r.value == s.(finishers := r.value.finishers)
      && r.value.finishers[f].position == |File(s)|
  {
    ContextReady(s, f);
    ReadsFrom0(s, f);
    StepKeeps(s, HashRead(f, |File(s)|));
  }

  /** The part file of `s` was published in `s'`, and the slot emptied. */
  predicate PublishedAs(s: System, s': System, digest: Bytes) {
    && !s'.m.occupied
    && s'.log == s.log + [Published(s.m.finalName, File(s), s.m.expected, s.m.expectedHash, digest)]
    && s.m.finalName in s'.dir && s'.dir[s.m.finalName] == File(s)
  }

  /** What a conclusion does when the hash agrees and every system call succeeds. */
  lemma ConcludePublishes(s: System, digest: Bytes, e: FinishEnv)
    requires Shaped(s.m) && s.m.partName in s.dir && s.m.finalName !in s.dir && AllWell(e)
    requires s.m.expectedHash == [] || s.m.expectedHash == digest
    ensures PublishedAs(s, Conclude(s, digest, e), digest)
  {
    PublishesInto(s, digest, e);
  }

  lemma PublishesInto(s: System, digest: Bytes, e: FinishEnv)
    requires s.m.partName in s.dir && s.m.finalName !in s.dir && AllWell(e)
    requires s.m.expectedHash == [] || s.m.expectedHash == digest
    ensures
      var r := Publishes(s, digest, e);
      && r.Some? && s.m.finalName in r.value && r.value[s.m.finalName] == File(s)
      && (e.mode == Linked(false) || s.m.partName !in r.value)
  {
  }

  /** The pass is over, and nothing is left to wait for. */
  predicate PassOver(s: System, f: nat) {
    && Shaped(s.m) && s.m.occupied && s.m.finalizing && s.m.job == NoJob && s.m.partName in s.dir
    && f < |s.finishers| && s.finishers[f].Hashing? && s.finishers[f].id == s.m.id
    && s.finishers[f].position == |File(s)|
  }

  lemma PassingIsOver(s: System, f: nat)
    requires Passing(s, f) && s.finishers[f].position == |File(s)|
    ensures PassOver(s, f)
  {
  }

  lemma HashDoneStep(s: System, f: nat, readOk: bool, e: FinishEnv)
    requires Shaped(s.m)
    ensures Next(s, HashDone(f, readOk, e)) == DoHashDone(s, f, readOk, e)
  {
  }

  lemma PassConcludes(s: System, f: nat, e: FinishEnv)
    requires PassOver(s, f)
    ensures DoHashDone(s, f, true, e) ==
            Some(HashOutcome(s.(finishers := Without(s.finishers, f)), s.finishers[f].context, true, e))
  {
  }

  lemma PassDigest(s: System, f: nat)
    requires Passing(s, f) && s.finishers[f].position == |File(s)|
    ensures Sha256.Hex(Sha256.Finish(s.finishers[f].context)) == Sha256.Hex(Sha256.Digest(File(s)))
  {
    HashPassDigest(s, f);
    Sha256.IsHexDigestMeans(Sha256.Hex(Sha256.Finish(s.finishers[f].context)), File(s));
  }

  lemma PassPublishes(s: System, f: nat, digest: Bytes, e: FinishEnv)
    requires PassOver(s, f) && s.m.finalName !in s.dir && (s.m.expectedHash == [] || s.m.expectedHash == digest)
    requires digest == Sha256.Hex(Sha256.Finish(s.finishers[f].context)) && AllWell(e)
    ensures
      var r := Next(s, HashDone(f, true, e));
      r.Some? && PublishedAs(s, r.value, digest)
  {
    HashDoneStep(s, f, true, e);
    PassConcludes(s, f, e);
    ConcludePublishes(s.(finishers := Without(s.finishers, f)), digest, e);
  }

  /** A pass that starts reads the file and publishes it, in two steps. */
  lemma TwoMoreSteps(s: System, f: nat, e: FinishEnv)
    requires Passing(s, f) && s.finishers[f].position == 0 && AllWell(e)
    requires s.m.finalName !in s.dir && HashAgrees(s.m.expectedHash, File(s))
    ensures
      var read := Next(s, HashRead(f, |File(s)|));
      && read.Some?
      && var done := Next(read.value, HashDone(f, true, e));
         done.Some? && PublishedAs(s, done.value, Sha256.Hex(Sha256.Digest(File(s))))
  {
    ReadsItAll(s, f);
    var t := Next(s, HashRead(f, |File(s)|)).value;
    PassDigest(t, f);
    PassingIsOver(t, f);
    PassPublishes(t, f, Sha256.Hex(Sha256.Finish(t.finishers[f].context)), e);
  }

  /** The whole file on disk is what was wanted. */
  lemma WholeIsWanted(s: System, want: seq<Bytes>)
    requires Able(s) && AllOnDisk(s) && Wanted(s, want)
    ensures File(s) == Concat(want) && s.m.job == NoJob
  {
    forall i | 0 <= i < |want| ensures s.pieces[i] == want[i] {
      assert ChunkOk(s.m.staging, s.m.expected, s.pieces, i);
    }
    assert s.pieces == want;
    assert s.pieces[..s.m.staging.next] == want;
  }

  lemma RunSnoc(s: System, steps: seq<Step>, step: Step)
    requires Run(s, steps).Some?
    ensures Run(s, steps + [step]) == Next(Run(s, steps).value, step)
  {
    assert (steps + [step])[..|steps|] == steps;
  }

  /** From the point where all of it is on disk, four more steps publish the file. */
  lemma FourMoreSteps(s0: System, steps: seq<Step>, e: FinishEnv) returns (more: seq<Step>)
    requires Run(s0, steps).Some? && AllWell(e)
    requires
      var s := Run(s0, steps).value;
      Able(s) && AllOnDisk(s) && s.m.finalName !in s.dir && HashAgrees(s.m.expectedHash, File(s))
    ensures |more| == |steps| + 4 && Run(s0, more).Some?
    ensures
      var s := Run(s0, steps).value;
      PublishedAs(s, Run(s0, more).value, Sha256.Hex(Sha256.Digest(File(s))))
  {
    var s := Run(s0, steps).value;
    var f := |s.finishers|;
    var call := CompleteCall(s.m.id, s.m.client, s.m.authorization, s.m.lastActivity);
    AsksForCompletion(s);
    RunSnoc(s0, steps, call);
    var s1 := Next(s, call).value;
    TransportIsChunked(s1);
    StartsHashing(s1, f);
    RunSnoc(s0, steps + [call], CompleteReady(f));
    var s2 := Next(s1, CompleteReady(f)).value;
    var read := HashRead(f, |File(s2)|);
    CompletingPasses(s2, f);
    TwoMoreSteps(s2, f, e);
    RunSnoc(s0, steps + [call] + [CompleteReady(f)], read);
    more := steps + [call] + [CompleteReady(f)] + [read] + [HashDone(f, true, e)];
    RunSnoc(s0, steps + [call] + [CompleteReady(f)] + [read], HashDone(f, true, e));
  }

  /**
    From every chunked upload that nothing has stopped and that is not blocked there is a run, no longer than the
    measure and four steps, that publishes any content going on from what it has, when the name is free and the hash
    that was declared, if any, is that of the content.
   */
  lemma CanBePublished(s: System, want: seq<Bytes>, fe: FinishEnv) returns (steps: seq<Step>)
    requires Able(s) && !Blocked(s.m.staging) && Wanted(s, want) && AllWell(fe)
    requires s.m.finalName !in s.dir && HashAgrees(s.m.expectedHash, Concat(want))
    ensures |steps| <= Remaining(s.m) + 4 && Run(s, steps).Some?
    ensures
      var s' := Run(s, steps).value;
      && !s'.m.occupied && |s'.log| == |s.log| + 1 && s'.log[|s.log|].name == s.m.finalName
      && s'.log[|s.log|].content == Concat(want)
      && s.m.finalName in s'.dir && s'.dir[s.m.finalName] == Concat(want)
  {
    var first := ReachWritten(s, want);
    AfterIsRun(s, first);
    WholeIsWanted(After(s, first), want);
    steps := FourMoreSteps(s, first, fe);
  }

  // ---------------------------------------------------------------- from the start

  /** Contents for every chunk of a file of this size. */
  predicate Sized(want: seq<Bytes>, size: nat) {
    |want| == ChunkCount(size) && forall i :: 0 <= i < |want| ==> |want[i]| == ChunkLength(size, i)
  }

  /** A prepared upload that nothing has stopped. */
  ghost predicate ReadyToStart(s: System) {
    Inv(s) && s.m.occupied && Prepared(s) && !s.m.discard && !s.m.finalizing && s.m.limits.lease > 0
  }

  function FirstBegin(m: Manager, length: nat): Step {
    ChunkBeginStep(m.id, m.client, m.authorization, m.expected, 0, length, Some(Zeros(length)), m.lastActivity)
  }

  lemma FirstBeginAccepted(s: System, want: seq<Bytes>)
    requires ReadyToStart(s) && s.m.expected > 0 && Sized(want, s.m.expected)
    ensures |want| > 0
    ensures
      var r := Next(s, FirstBegin(s.m, |want[0]|));
      && r.Some? && r.value == s.(m := s.m.(staging := Begun(s.m.staging, 0, Zeros(|want[0]|)),
                                           chunkTransport := true, started := true))
  {
    ExtentsTile(s.m.expected, 0);
    AdmittedExtents(s.m.expected, s.m.expected, 0, |want[0]|);
  }

  lemma StartsChunked(s: System, want: seq<Bytes>)
    requires ReadyToStart(s) && s.m.expected > 0 && Sized(want, s.m.expected)
    ensures |want| > 0
    ensures
      var r := Next(s, FirstBegin(s.m, |want[0]|));
      r.Some? && Able(r.value) && !Blocked(r.value.m.staging) && Wanted(r.value, want) && SameNames(s, r.value)
  {
    FirstBeginAccepted(s, want);
    StepKeeps(s, FirstBegin(s.m, |want[0]|));
    TransportIsChunked(Next(s, FirstBegin(s.m, |want[0]|)).value);
  }

  lemma PreparedNow(s: System, r: Request, e: PrepareEnv, now: nat, unlinkOk: bool)
    requires Inv(s) && !s.m.occupied && !s.m.finalizing && DoPrepare(s, r, e, now, unlinkOk).Some?
    requires Prepare(s.m, r, e, now).result == Ok
    ensures
      var s' := DoPrepare(s, r, e, now, unlinkOk).value;
      && Prepared(s') && s'.m.occupied && s'.m.expected == r.size && !s'.m.finalizing && s'.m.discard == s.m.discard
      && s'.m.limits == s.m.limits && e.unique.Some? && s'.m.finalName == e.unique.value && s'.m.expectedHash == r.hash
      && (e.unique.value in s'.dir <==> e.unique.value in s.dir || e.unique.value == s'.m.partName)
      && s'.log == s.log
  {
  }

  /**
    Every accepted prepare of a file that is not empty can be followed by a run that publishes any content of that
    size under the chosen name, if the name is free and the declared hash, if any, is that of the content. So the
    guarantees about what is published are not about nothing.
   */
  lemma NewUploadCanBePublished(s: System, r: Request, e: PrepareEnv, now: nat, unlinkOk: bool, want: seq<Bytes>,
                                fe: FinishEnv)
    returns (steps: seq<Step>)
    requires Inv(s) && !s.m.occupied && !s.m.discard && !s.m.finalizing && s.m.limits.lease > 0 && AllWell(fe)
    requires DoPrepare(s, r, e, now, unlinkOk).Some? && Prepare(s.m, r, e, now).result == Ok
    requires r.size > 0 && Sized(want, r.size) && HashAgrees(r.hash, Concat(want))
    requires e.unique.Some? ==> e.unique.value !in s.dir
    ensures Run(s, steps).Some? && e.unique.Some?
    ensures
      var s' := Run(s, steps).value;
      && |s'.log| == |s.log| + 1 && s'.log[|s.log|].content == Concat(want)
      && e.unique.value in s'.dir && s'.dir[e.unique.value] == Concat(want)
  {
    var prepare := PrepareStep(r, e, now, unlinkOk);
    PreparedNow(s, r, e, now, unlinkOk);
    assert Next(s, prepare) == DoPrepare(s, r, e, now, unlinkOk);
    StepKeeps(s, prepare);
    var s1 := Next(s, prepare).value;
    StartsChunked(s1, want);
    var begin := FirstBegin(s1.m, |want[0]|);
    var s2 := Next(s1, begin).value;
    var more := CanBePublished(s2, want, fe);
    RunCons(s1, begin, more);
    RunCons(s, prepare, [begin] + more);
    steps := [prepare] + ([begin] + more);
  }
}
