/**
  The browser's chunk client and the upload system together. A 2xx answer reaches the client only after the server
  accepted the finish of that chunk; every other answer, failure, timer and server step is free to happen.
 */
module ChunkProtocol {
  import opened Bytes
  import opened Upload
  import opened UploadStaging
  import opened UploadSystem
  import opened UploadInvariant
  import opened UploadStreams
  import opened UploadChunks
  import opened UploadRuns
  import opened UploadSteps
  import C = ChunkClient
  import Sha256

  /** `finished` are the chunks of upload `id` whose upload_chunk_finish returned OK. */
  datatype Joint = Joint(s: System, c: C.Client, id: Bytes, finished: set<nat>)

  datatype Move = Server(step: Step) | Browser(event: C.Event)

  /** The step is an accepted finish of a chunk of upload `id`. */
  predicate FinishesChunk(s: System, id: Bytes, step: Step)
    requires Shaped(s.m)
  {
    step.ChunkFinishStep? && step.id == id && ChunkFinish(s.m, step.id, step.offset, step.length, step.now).result == Ok
  }

  function Go(j: Joint, move: Move): Option<Joint> {
    match move
    case Server(step) =>
      if !Shaped(j.s.m) then None
      else
        (match Next(j.s, step)
         case None => None
         case Some(s') =>
           var finished := if FinishesChunk(j.s, j.id, step) then j.finished + {step.offset / CHUNK} else j.finished;
           Some(j.(s := s', finished := finished)))
    case Browser(e) =>
      if !C.CanHappen(j.c, e) || j.c.nextIndex > j.c.count || (e.Accepted? && e.i !in j.finished) then None
      else Some(j.(c := C.Handle(j.c, e)))
  }

  /** While upload `id` is in the slot, it has its size, and its finished chunks are completed or written. */
  predicate FinishedStay(s: System, id: Bytes, total: nat, finished: set<nat>) {
    s.m.occupied && s.m.id == id ==>
      && s.m.expected == total
      && forall i :: i in finished ==> i < |s.m.staging.states| && s.m.staging.states[i] >= 2
  }

  ghost predicate JInv(j: Joint) {
    && Inv(j.s) && C.CInv(j.c)
    && j.id in j.s.used
    && j.c.acked <= j.finished
    && FinishedStay(j.s, j.id, j.c.total, j.finished)
  }

  // ---------------------------------------------------------------- server steps

  lemma PrepareStays(s: System, id: Bytes, total: nat, finished: set<nat>, r: Request, e: PrepareEnv, now: nat,
                     unlinkOk: bool)
    requires Inv(s) && DoPrepare(s, r, e, now, unlinkOk).Some? && id in s.used && FinishedStay(s, id, total, finished)
    ensures FinishedStay(DoPrepare(s, r, e, now, unlinkOk).value, id, total, finished)
    ensures id in DoPrepare(s, r, e, now, unlinkOk).value.used
  {
    if s.m.occupied && r.size <= s.m.limits.maxFileBytes {
      RefusedPrepareClears(s.m, r, e, now);
    }
  }

  lemma ConcludedIsEmpty(s: System, digest: Bytes, e: FinishEnv)
    requires Shaped(s.m) && s.m.partName in s.dir
    ensures !Conclude(s, digest, e).m.occupied && Conclude(s, digest, e).used == s.used
  {
  }

  lemma HashOutcomeEmpty(s: System, context: Sha256.Context, readOk: bool, e: FinishEnv)
    requires Shaped(s.m) && s.m.partName in s.dir
    ensures !HashOutcome(s, context, readOk, e).m.occupied && HashOutcome(s, context, readOk, e).used == s.used
  {
    if readOk { ConcludedIsEmpty(s, Sha256.Hex(Sha256.Finish(context)), e); }
  }

  lemma FinishDrainedStays(s: System, id: Bytes, total: nat, finished: set<nat>, e: FinishEnv)
    requires Shaped(s.m) && DoFinishDrained(s, e).Some? && id in s.used && FinishedStay(s, id, total, finished)
    ensures FinishedStay(DoFinishDrained(s, e).value, id, total, finished)
    ensures id in DoFinishDrained(s, e).value.used
  {
    if s.m.error == 0 { ConcludedIsEmpty(s, Sha256.Hex(Sha256.Finish(s.m.sha)), e); }
  }

  lemma HashDoneStays(s: System, id: Bytes, total: nat, finished: set<nat>, f: nat, readOk: bool, e: FinishEnv)
    requires Shaped(s.m) && DoHashDone(s, f, readOk, e).Some? && id in s.used && FinishedStay(s, id, total, finished)
    ensures FinishedStay(DoHashDone(s, f, readOk, e).value, id, total, finished)
    ensures id in DoHashDone(s, f, readOk, e).value.used
  {
    var rest := s.(finishers := Without(s.finishers, f));
    if !Stale(s.m, s.finishers[f].id) {
      HashOutcomeEmpty(rest, s.finishers[f].context, readOk, e);
    }
  }

  lemma EmptyingStays(s: System, id: Bytes, total: nat, finished: set<nat>, step: Step)
    requires Inv(s) && Next(s, step).Some? && Empties(step) && id in s.used && FinishedStay(s, id, total, finished)
    ensures FinishedStay(Next(s, step).value, id, total, finished) && id in Next(s, step).value.used
  {
    match step
    case PrepareStep(r, e, now, unlinkOk) => PrepareStays(s, id, total, finished, r, e, now, unlinkOk);
    case HashDone(f, readOk, e) => HashDoneStays(s, id, total, finished, f, readOk, e);
    case FinishDrained(e) => FinishDrainedStays(s, id, total, finished, e);
    case ClearEndStep(_) =>
  }

  lemma ServerStays(s: System, id: Bytes, total: nat, finished: set<nat>, step: Step)
    requires Inv(s) && Next(s, step).Some? && id in s.used && FinishedStay(s, id, total, finished)
    ensures
      var s' := Next(s, step).value;
      && id in s'.used
      && FinishedStay(s', id, total,
                      if FinishesChunk(s, id, step) then finished + {step.offset / CHUNK} else finished)
  {
    if Empties(step) {
      EmptyingStays(s, id, total, finished, step);
    } else {
      StepGoesOn(s, step);
      if FinishesChunk(s, id, step) {
        FinishAccepted(s.m, step.id, step.offset, step.length, step.now);
      }
    }
  }

  lemma ServerKeeps(j: Joint, step: Step)
    requires JInv(j) && Go(j, Server(step)).Some?
    ensures JInv(Go(j, Server(step)).value)
  {
    StepKeeps(j.s, step);
    ServerStays(j.s, j.id, j.c.total, j.finished, step);
  }

  lemma GoKeeps(j: Joint, move: Move)
    requires JInv(j) && Go(j, move).Some?
    ensures JInv(Go(j, move).value)
  {
    match move
    case Server(step) => ServerKeeps(j, step);
    case Browser(e) => C.HandleKeeps(j.c, e);
      AckedGrow(j.c, e);
  }

  /** Only a 2xx answer adds an acknowledgement, and only its own chunk. */
  lemma AckedGrow(c: C.Client, e: C.Event)
    requires c.nextIndex <= c.count && C.CanHappen(c, e)
    ensures C.Handle(c, e).acked <= if e.Accepted? then c.acked + {e.i} else c.acked
    ensures C.Handle(c, e).total == c.total && C.Handle(c, e).count == c.count
  {
    if e.Accepted? {
      FillAcks(C.Acknowledge(c, e.i));
    }
  }

  lemma {:induction false} FillAcks(c: C.Client)
    requires c.nextIndex <= c.count
    ensures C.Fill(c).acked == c.acked && C.Fill(c).total == c.total && C.Fill(c).count == c.count
    decreases c.count - c.nextIndex
  {
    if c.active < c.parallelism && c.nextIndex < c.count {
      FillAcks(C.Start(c, c.nextIndex, false).(nextIndex := c.nextIndex + 1));
    }
  }

  // ---------------------------------------------------------------- the whole exchange

  function GoAll(j: Joint, moves: seq<Move>): Option<Joint> {
    if moves == [] then Some(j)
    else
      match GoAll(j, moves[..|moves| - 1])
      case None => None
      case Some(mid) => Go(mid, moves[|moves| - 1])
  }

  /** The client starts on an upload the server has prepared and not yet received any chunk of. */
  ghost predicate Opening(j: Joint) {
    && Inv(j.s) && j.s.m.occupied && j.s.m.id == j.id && j.finished == {}
    && exists parallelism :: j.c == C.Launch(j.s.m.expected, CHUNK, parallelism)
  }

  lemma {:induction false} GoAllKeeps(j: Joint, moves: seq<Move>)
    requires Opening(j) && GoAll(j, moves).Some?
    ensures JInv(GoAll(j, moves).value)
    ensures GoAll(j, moves).value.id == j.id
    ensures GoAll(j, moves).value.c.total == j.s.m.expected
    ensures GoAll(j, moves).value.c.count == ChunkCount(j.s.m.expected)
  {
    if moves == [] {
      var parallelism :| j.c == C.Launch(j.s.m.expected, CHUNK, parallelism);
      C.LaunchInv(j.s.m.expected, CHUNK, parallelism);
      LaunchFacts(j.s.m.expected, parallelism);
    } else {
      var before := moves[..|moves| - 1];
      GoAllKeeps(j, before);
      GoKeeps(GoAll(j, before).value, moves[|moves| - 1]);
      match moves[|moves| - 1]
      case Server(_) =>
      case Browser(e) => AckedGrow(GoAll(j, before).value.c, e);
    }
  }

  /** The client cuts the file into exactly the server's extents. */
  lemma LaunchFacts(total: nat, parallelism: nat)
    ensures C.CeilDiv(total, CHUNK) == ChunkCount(total)
    ensures
      var c := C.Launch(total, CHUNK, parallelism);
      c.acked == {} && c.total == total && c.count == ChunkCount(total)
  {
    var count := C.CeilDiv(total, CHUNK);
    assert (total + 0x80_0000 - 1) / 0x80_0000 == if total == 0 then 0 else (total - 1) / 0x80_0000 + 1;
    FillAcks(C.Client(total, count, parallelism, 0, 0, 0, false, seq(count, _ => 0), multiset{}, multiset{}, {}, 0));
  }

  /**
    Client and server together. Whatever else happens on the server, once the browser has sent its completion
    request, and the upload is still in the slot, every chunk is complete there and the request is admitted: it finds
    all chunks and all bytes received.
   */
  lemma CompletionFindsEveryChunk(j0: Joint, moves: seq<Move>)
    requires Opening(j0) && GoAll(j0, moves).Some?
    ensures
      var j := GoAll(j0, moves).value;
      j.c.posts == 1 && j.s.m.occupied && j.s.m.id == j.id && !j.s.m.finalizing ==>
        && j.s.m.staging.completed == j.s.m.staging.count && j.s.m.received == j.s.m.expected
        && CompleteStart(j.s.m, j.id, j.s.m.client, j.s.m.authorization).result == Ok
  {
    GoAllKeeps(j0, moves);
    var j := GoAll(j0, moves).value;
    if j.c.posts == 1 && j.s.m.occupied && j.s.m.id == j.id {
      C.AckedBounds(j.c);
      var g := j.s.m.staging;
      assert 0 in j.c.acked;
      assert Chunked(j.s);
      forall i | 0 <= i < g.count ensures 2 <= g.states[i] <= 3 {
        assert i in j.c.acked;
        assert ChunkOk(g, j.s.m.expected, j.s.pieces, i);
      }
      MarksFull(g.states, 2, 3);
      AllCompleted(g, j.s.m.expected, j.s.m.received, j.s.pieces);
    }
  }
}
