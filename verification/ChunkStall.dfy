/**
  The chunk client against the upload system, and when the two come to a stall. The client may have chunk 0 on its
  way while it sends the next twelve; if those are staged first, chunk 0 is refused for want of a buffer, and nothing
  frees one until the lease of the upload runs out. This can happen exactly to files of more than twelve chunks.
 */
module ChunkStall {
  import opened Bytes
  import opened Upload
  import opened UploadStaging
  import opened UploadSystem
  import opened UploadInvariant
  import opened UploadRuns
  import opened UploadSteps
  import opened UploadProgress
  import opened UploadCompletion
  import opened ChunkProtocol
  import C = ChunkClient

  // ---------------------------------------------------------------- a stall lasts

  /** Twelve chunks are complete and staged, none is being received, and the next one to write has not begun. */
  predicate FullBehindGap(g: Staging)
    requires StagingShape(g)
  {
    Blocked(g) && forall i :: 0 <= i < g.count ==> g.states[i] != 1
  }

  predicate Stalled(s: System) {
    && Shaped(s.m) && s.m.occupied && s.m.started && s.m.chunkTransport && s.stream == NoStream
    && s.m.job == NoJob && s.m.ring.queued == 0 && !s.m.finalizing && s.m.activeWrites == 0
    && s.m.staging.completed < s.m.staging.count
    && FullBehindGap(s.m.staging)
  }

  /** The chunk arrays, what the writer looks at, and what the lease depends on are as before. */
  predicate Unmoved(m: Manager, m': Manager) {
    && m'.staging == m.staging && m'.ring == m.ring && m'.job == m.job && m'.id == m.id && m'.expected == m.expected
    && m'.occupied == m.occupied && m'.started == m.started && m'.chunkTransport == m.chunkTransport
    && m'.finalizing == m.finalizing && m'.activeWrites == m.activeWrites && m'.lastActivity == m.lastActivity
    && m'.limits == m.limits
  }

  lemma StalledBegin(m: Manager, id: Bytes, client: Bytes, authorization: Bytes, total: nat, offset: nat, length: nat,
                     alloc: Option<Bytes>, now: nat)
    requires Shaped(m) && FullBehindGap(m.staging) && (alloc.Some? ==> |alloc.value| == length)
    ensures ChunkBegin(m, id, client, authorization, total, offset, length, alloc, now).m == m
    ensures ChunkBegin(m, id, client, authorization, total, offset, length, alloc, now).result != Ok
  {
  }

  lemma StalledCalls(s: System, step: Step)
    requires Stalled(s) && Next(s, step).Some? && IsChunkCall(step)
    ensures Next(s, step).value.m == s.m && Next(s, step).value.stream == NoStream
  {
    match step
    case ChunkBeginStep(id, client, authorization, total, offset, length, alloc, now) =>
      StalledBegin(s.m, id, client, authorization, total, offset, length, alloc, now);
    case ChunkWriteStep(id, offset, data, now) =>
    case ChunkFinishStep(id, offset, length, now) =>
    case ChunkAbortStep(id, offset, now) =>
  }

  lemma StalledWriter(s: System, step: Step)
    requires Stalled(s) && IsWriterStep(step)
    ensures Next(s, step).None?
  {
  }

  lemma StalledStreams(s: System, step: Step)
    requires Stalled(s) && Next(s, step).Some? && IsStreamCall(step)
    ensures Unmoved(s.m, Next(s, step).value.m) && Next(s, step).value.stream == NoStream
  {
    match step
    case BeginStep(id, client, authorization, length, now) =>
  }

  lemma StalledOthers(s: System, step: Step)
    requires Stalled(s) && Next(s, step).Some?
    requires step.FinishCall? || step.CompleteCall? || step.CompleteReady? || step.HashRead? || step.ClearBeginStep? ||
             step.Outside?
    ensures Unmoved(s.m, Next(s, step).value.m) && Next(s, step).value.stream == NoStream
  {
    match step
    case CompleteCall(_, _, _, _) =>
    case CompleteReady(_) =>
    case HashRead(_, _) =>
    case ClearBeginStep =>
    case Outside(_, _) =>
  }

  /** No step but one that empties the slot ends a stall, and none renews the lease. */
  lemma StallStays(s: System, step: Step)
    requires Stalled(s) && Next(s, step).Some? && !Empties(step)
    ensures Stalled(Next(s, step).value) && Unmoved(s.m, Next(s, step).value.m)
  {
    if IsChunkCall(step) {
      StalledCalls(s, step);
    } else if IsWriterStep(step) {
      StalledWriter(s, step);
    } else if IsStreamCall(step) {
      StalledStreams(s, step);
    } else {
      StalledOthers(s, step);
    }
  }

  /** A stalled upload is never complete, so its client never asks for completion. */
  lemma StallNeverCompletes(j: Joint)
    requires JInv(j) && Stalled(j.s) && j.s.m.id == j.id && j.c.count == j.s.m.staging.count
    ensures j.c.posts == 0
  {
    C.AckedBounds(j.c);
    assert j.c.completed == j.c.count ==> j.s.m.staging.next in j.c.acked;
  }

  predicate Keeps(move: Move) { move.Server? ==> !Empties(move.step) }

  /** Whatever client, server and everyone else do, the stall goes on, and the lease runs, until the slot is emptied. */
  lemma {:induction false} StallLasts(j: Joint, moves: seq<Move>)
    requires JInv(j) && Stalled(j.s) && j.s.m.id == j.id && j.c.count == ChunkCount(j.s.m.expected)
    requires GoAll(j, moves).Some? && forall i :: 0 <= i < |moves| ==> Keeps(moves[i])
    ensures
      var j' := GoAll(j, moves).value;
      && JInv(j') && Stalled(j'.s) && j'.s.m.id == j'.id && j'.c.count == j.c.count && j'.c.posts == 0
      && j'.s.m.staging.count == ChunkCount(j.s.m.expected)
      && j'.s.m.lastActivity == j.s.m.lastActivity && j'.s.m.limits == j.s.m.limits
  {
    if moves == [] {
      assert Chunked(j.s);
      StallNeverCompletes(j);
    } else {
      var before, move := moves[..|moves| - 1], moves[|moves| - 1];
      StallLasts(j, before);
      var mid := GoAll(j, before).value;
      GoKeeps(mid, move);
      match move
      case Server(step) => StallStays(mid.s, step);
      case Browser(e) => AckedGrow(mid.c, e);
      StallNeverCompletes(GoAll(j, moves).value);
    }
  }

  // ---------------------------------------------------------------- how a stall ends

  /** Once the lease is over, no chunk is taken or refused before the slot was cleared; then there is no upload. */
  lemma LeaseEndsStall(s: System, now: nat, unlinkOk: bool, id: Bytes, client: Bytes, authorization: Bytes,
                       total: nat, offset: nat, length: nat, alloc: Option<Bytes>)
    requires Stalled(s) && LeaseExpired(s.m, now) && length != 0 && (alloc.Some? ==> |alloc.value| == length)
    ensures
      var call := ChunkBeginStep(id, client, authorization, total, offset, length, alloc, now);
      var r := Run(s, [ClearBeginStep, ClearEndStep(unlinkOk)]);
      && Next(s, call).None?
      && r.Some? && !r.value.m.occupied && Shaped(r.value.m)
      && Next(r.value, call).Some?
      && ChunkBegin(r.value.m, id, client, authorization, total, offset, length, alloc, now).result == NotFound
  {
    var steps := [ClearBeginStep, ClearEndStep(unlinkOk)];
    assert steps[..1] == [ClearBeginStep] && [ClearBeginStep][..0] == [];
    assert Run(s, []) == Some(s);
    assert Run(s, steps[..1]) == Next(s, ClearBeginStep);
  }

  /**
    So a stall ends with the lease. However the run went on, from `lease` seconds after the last accepted call on the
    first call finds the lease over; its answer, upload not found, is no backpressure, and the client gives up without
    ever having asked for completion.
   */
  lemma StallEndsWithLease(j: Joint, moves: seq<Move>, now: nat, i: nat)
    requires JInv(j) && Stalled(j.s) && j.s.m.id == j.id && j.c.count == ChunkCount(j.s.m.expected)
    requires GoAll(j, moves).Some? && forall k :: 0 <= k < |moves| ==> Keeps(moves[k])
    requires j.s.m.lastActivity > 0 && now >= j.s.m.lastActivity + j.s.m.limits.lease
    ensures
      var j' := GoAll(j, moves).value;
      && Stalled(j'.s) && LeaseExpired(j'.s.m, now)
      && (i in j'.c.live ==>
            j'.c.nextIndex <= j'.c.count &&
            C.Handle(j'.c, C.Refused(i, false, false)).settled && C.Handle(j'.c, C.Refused(i, false, false)).posts == 0)
  {
    StallLasts(j, moves);
  }

  // ---------------------------------------------------------------- the client gets there

  /** Chunks 1 to k are complete and staged, chunk 0 has not begun, and the next one is in `state`. */
  predicate StagedTo(m: Manager, k: nat, state: nat) {
    && Shaped(m) && m.occupied && !m.finalizing && (m.started <==> m.chunkTransport)
    && m.limits.lease > 0 && m.activeWrites == 0 && m.staging.completed == k + (if state == 2 then 1 else 0)
    && (k > 0 || state > 0 ==> m.started)
    && m.job == NoJob && m.ring.queued == 0
    && m.staging.count == ChunkCount(m.expected) && m.staging.next == 0
    && m.staging.active == k + (if state > 0 then 1 else 0)
    && k < m.staging.count && (state > 0 ==> k + 1 < m.staging.count)
    && (forall i :: 0 <= i < m.staging.count ==>
        m.staging.states[i] == if 1 <= i <= k then 2 else if i == k + 1 then state else 0)
    && (state == 1 ==> m.staging.buffers[k + 1].Some?)
  }

  lemma ChunkPlace(expected: nat, i: nat)
    requires i < ChunkCount(expected)
    ensures ChunkLength(expected, i) > 0 && i * CHUNK + ChunkLength(expected, i) <= expected
    ensures i * CHUNK / CHUNK == i && i * CHUNK % CHUNK == 0
    ensures ExtentFits(expected, expected, i * CHUNK, ChunkLength(expected, i))
  {
    ExtentsTile(expected, i);
    assert i * 0x80_0000 / 0x80_0000 == i && i * 0x80_0000 % 0x80_0000 == 0;
    AdmittedExtents(expected, expected, i * CHUNK, ChunkLength(expected, i));
  }

  lemma BeginNext(m: Manager, k: nat)
    requires StagedTo(m, k, 0) && k < SLOTS && k + 1 < m.staging.count
    ensures
      var i := k + 1;
      var length := ChunkLength(m.expected, i);
      var out := ChunkBegin(m, m.id, m.client, m.authorization, m.expected, i * CHUNK, length, Some(Zeros(length)),
                            m.lastActivity);
      && out.result == Ok && StagedTo(out.m, k, 1) && out.m.staging.progress[i] == 0 && SameUpload(m, out.m)
  {
    ChunkPlace(m.expected, k + 1);
  }

  lemma WriteNext(m: Manager, k: nat)
    requires StagedTo(m, k, 1) && m.staging.progress[k + 1] == 0
    ensures
      var i := k + 1;
      var length := ChunkLength(m.expected, i);
      var out := ChunkWrite(m, m.id, i * CHUNK, Zeros(length), m.lastActivity);
      && out.result == Ok && StagedTo(out.m, k, 1) && out.m.staging.progress[i] == length && SameUpload(m, out.m)
  {
    ChunkPlace(m.expected, k + 1);
  }

  lemma FinishNext(m: Manager, k: nat)
    requires StagedTo(m, k, 1) && m.staging.progress[k + 1] == ChunkLength(m.expected, k + 1)
    ensures
      var i := k + 1;
      var out := ChunkFinish(m, m.id, i * CHUNK, ChunkLength(m.expected, i), m.lastActivity);
      && out.result == Ok && StagedTo(out.m, k, 2) && SameUpload(m, out.m)
  {
    ChunkPlace(m.expected, k + 1);
  }

  /** The client is waiting for chunk 0 and the chunks beyond k that fit beside it. */
  predicate WaitsBehind(c: C.Client, k: nat) {
    && !c.settled && c.posts == 0 && k < c.count && c.parallelism >= 2
    && c.nextIndex == (if c.count < c.parallelism + k then c.count else c.parallelism + k)
    && c.active == c.nextIndex - k && c.completed == k
    && c.live[0] > 0 && forall i: nat :: k < i < c.nextIndex ==> c.live[i] > 0
  }

  /** After an answer, schedule() starts the one next chunk, if there is one. */
  lemma FillOne(d: C.Client)
    requires d.nextIndex < d.count && d.active == d.parallelism - 1
    ensures C.Fill(d) == C.Start(d, d.nextIndex, false).(nextIndex := d.nextIndex + 1)
  {
    var e := C.Start(d, d.nextIndex, false).(nextIndex := d.nextIndex + 1);
    assert C.Fill(d) == C.Fill(e) == e;
  }

  lemma AcknowledgeNext(c: C.Client, k: nat)
    requires WaitsBehind(c, k) && k + 1 < c.count
    ensures
      var d := C.Acknowledge(c, k + 1);
      d.live[0] > 0 && forall i: nat :: k + 1 < i < d.nextIndex ==> d.live[i] > 0
  {
  }

  /** One more request, when a chunk is left to start. */
  function OneStarted(d: C.Client): C.Client {
    if d.nextIndex < d.count then C.Start(d, d.nextIndex, false).(nextIndex := d.nextIndex + 1) else d
  }

  lemma ScheduleOne(d: C.Client)
    requires !d.settled && d.nextIndex <= d.count && d.completed != d.count
    requires d.nextIndex < d.count ==> d.active == d.parallelism - 1
    ensures C.Schedule(d) == OneStarted(d)
  {
    if d.nextIndex < d.count {
      FillOne(d);
    } else {
      assert C.Fill(d) == d;
    }
  }

  /** What the client is after the answer for chunk k + 1. */
  function Answered(c: C.Client, k: nat): C.Client { OneStarted(C.Acknowledge(c, k + 1)) }

  lemma AnsweredIs(c: C.Client, k: nat)
    requires WaitsBehind(c, k) && k + 1 < c.count && k + 1 in c.live
    ensures C.Handle(c, C.Accepted(k + 1)) == Answered(c, k)
  {
    ScheduleOne(C.Acknowledge(c, k + 1));
  }

  /** One more answer lets the client start one more chunk. */
  lemma AnswerNext(c: C.Client, k: nat)
    requires WaitsBehind(c, k) && k + 1 < c.count
    ensures k + 1 in c.live && WaitsBehind(C.Handle(c, C.Accepted(k + 1)), k + 1)
    ensures C.Handle(c, C.Accepted(k + 1)).count == c.count
  {
    assert c.live[k + 1] > 0;
    AcknowledgeNext(c, k);
    AnsweredIs(c, k);
    assert WaitsBehind(Answered(c, k), k + 1);
  }

  lemma {:induction false} FillWaits(c: C.Client)
    requires !c.settled && c.posts == 0 && c.parallelism >= 2 && c.completed == 0 && c.count > 0
    requires c.active == c.nextIndex <= c.count && c.nextIndex <= c.parallelism
    requires forall i: nat :: i < c.nextIndex ==> c.live[i] > 0
    ensures WaitsBehind(C.Fill(c), 0)
    decreases c.count - c.nextIndex
  {
    if c.active < c.parallelism && c.nextIndex < c.count {
      FillWaits(C.Start(c, c.nextIndex, false).(nextIndex := c.nextIndex + 1));
    }
  }

  lemma LaunchWaits(total: nat, parallelism: nat)
    requires total > 0 && parallelism >= 2
    ensures WaitsBehind(C.Launch(total, CHUNK, parallelism), 0)
  {
    C.CeilPositive(total, CHUNK);
    var count := C.CeilDiv(total, CHUNK);
    FillWaits(C.Client(total, count, parallelism, 0, 0, 0, false, seq(count, _ => 0), multiset{}, multiset{}, {}, 0));
  }

  /** Client and server, k chunks past chunk 0. */
  predicate Ahead(j: Joint, k: nat, state: nat) {
    && StagedTo(j.s.m, k, state) && WaitsBehind(j.c, k)
    && j.s.m.id == j.id && j.s.stream == NoStream && j.c.count == j.s.m.staging.count
  }

  lemma GoSnoc(j: Joint, moves: seq<Move>, move: Move)
    requires GoAll(j, moves).Some?
    ensures GoAll(j, moves + [move]) == Go(GoAll(j, moves).value, move)
  {
    assert (moves + [move])[..|moves|] == moves;
  }

  function BeginMove(m: Manager, i: nat): Move {
    var length := ChunkLength(m.expected, i);
    Server(ChunkBeginStep(m.id, m.client, m.authorization, m.expected, i * CHUNK, length, Some(Zeros(length)),
                          m.lastActivity))
  }

  function WriteMove(m: Manager, i: nat): Move {
    Server(ChunkWriteStep(m.id, i * CHUNK, Zeros(ChunkLength(m.expected, i)), m.lastActivity))
  }

  function FinishMove(m: Manager, i: nat): Move {
    Server(ChunkFinishStep(m.id, i * CHUNK, ChunkLength(m.expected, i), m.lastActivity))
  }

  lemma GoBegin(j: Joint, k: nat)
    requires Ahead(j, k, 0) && k < SLOTS && k + 1 < j.c.count
    ensures
      var r := Go(j, BeginMove(j.s.m, k + 1));
      r.Some? && Ahead(r.value, k, 1) && r.value.s.m.staging.progress[k + 1] == 0
  {
    BeginNext(j.s.m, k);
  }

  lemma GoWrite(j: Joint, k: nat)
    requires Ahead(j, k, 1) && j.s.m.staging.progress[k + 1] == 0
    ensures
      var r := Go(j, WriteMove(j.s.m, k + 1));
      && r.Some? && Ahead(r.value, k, 1)
      && r.value.s.m.staging.progress[k + 1] == ChunkLength(r.value.s.m.expected, k + 1)
  {
    WriteNext(j.s.m, k);
  }

  lemma GoFinish(j: Joint, k: nat)
    requires Ahead(j, k, 1) && j.s.m.staging.progress[k + 1] == ChunkLength(j.s.m.expected, k + 1)
    ensures
      var r := Go(j, FinishMove(j.s.m, k + 1));
      r.Some? && Ahead(r.value, k, 2) && k + 1 in r.value.finished
  {
    FinishNext(j.s.m, k);
    ChunkPlace(j.s.m.expected, k + 1);
  }

  lemma GoAnswer(j: Joint, k: nat)
    requires Ahead(j, k, 2) && k + 1 in j.finished
    ensures
      var r := Go(j, Browser(C.Accepted(k + 1)));
      r.Some? && Ahead(r.value, k + 1, 0)
  {
    AnswerNext(j.c, k);
  }

  /** One chunk goes through while chunk 0 is still on its way. */
  lemma OneRound(j0: Joint, moves: seq<Move>, k: nat) returns (more: seq<Move>)
    requires GoAll(j0, moves).Some? && Ahead(GoAll(j0, moves).value, k, 0)
    requires k < SLOTS && k + 1 < GoAll(j0, moves).value.c.count
    ensures GoAll(j0, more).Some? && Ahead(GoAll(j0, more).value, k + 1, 0)
  {
    var j := GoAll(j0, moves).value;
    GoBegin(j, k);
    GoSnoc(j0, moves, BeginMove(j.s.m, k + 1));
    more := moves + [BeginMove(j.s.m, k + 1)];
    var j1 := GoAll(j0, more).value;
    GoWrite(j1, k);
    GoSnoc(j0, more, WriteMove(j1.s.m, k + 1));
    more := more + [WriteMove(j1.s.m, k + 1)];
    var j2 := GoAll(j0, more).value;
    GoFinish(j2, k);
    GoSnoc(j0, more, FinishMove(j2.s.m, k + 1));
    more := more + [FinishMove(j2.s.m, k + 1)];
    var j3 := GoAll(j0, more).value;
    GoAnswer(j3, k);
    GoSnoc(j0, more, Browser(C.Accepted(k + 1)));
    more := more + [Browser(C.Accepted(k + 1))];
  }

  /** A client that sends at least two chunks at a time starts on an upload that was prepared and nothing else. */
  ghost predicate ClientOpening(j: Joint) {
    && Opening(j) && Prepared(j.s) && !j.s.m.finalizing && j.s.m.limits.lease > 0
    && exists parallelism :: parallelism >= 2 && j.c == C.Launch(j.s.m.expected, CHUNK, parallelism)
  }

  ghost predicate LongOpening(j: Joint) { ClientOpening(j) && ChunkCount(j.s.m.expected) > SLOTS }

  /** Every accepted prepare leads to such a start, once the client has the answer. */
  lemma PrepareOpens(s: System, r: Request, e: PrepareEnv, now: nat, unlinkOk: bool, parallelism: nat)
    requires Inv(s) && !s.m.occupied && !s.m.finalizing && DoPrepare(s, r, e, now, unlinkOk).Some?
    requires Prepare(s.m, r, e, now).result == Ok && s.m.limits.lease > 0 && parallelism >= 2
    ensures
      var s' := DoPrepare(s, r, e, now, unlinkOk).value;
      ClientOpening(Joint(s', C.Launch(r.size, CHUNK, parallelism), s'.m.id, {}))
  {
    PrepareOkKeeps(s, r, e, now, unlinkOk);
    PreparedNow(s, r, e, now, unlinkOk);
    var s' := DoPrepare(s, r, e, now, unlinkOk).value;
    var c := C.Launch(r.size, CHUNK, parallelism);
    assert parallelism >= 2 && c == C.Launch(s'.m.expected, CHUNK, parallelism);
  }

  lemma OpeningIsAhead(j: Joint)
    requires LongOpening(j)
    ensures Ahead(j, 0, 0)
  {
    var parallelism :| parallelism >= 2 && j.c == C.Launch(j.s.m.expected, CHUNK, parallelism);
    LaunchWaits(j.s.m.expected, parallelism);
    LaunchFacts(j.s.m.expected, parallelism);
  }

  lemma {:induction false} ReachesAhead(j0: Joint, k: nat) returns (moves: seq<Move>)
    requires LongOpening(j0) && k <= SLOTS
    ensures GoAll(j0, moves).Some? && Ahead(GoAll(j0, moves).value, k, 0)
  {
    if k == 0 {
      OpeningIsAhead(j0);
      moves := [];
    } else {
      var before := ReachesAhead(j0, k - 1);
      GoAllKeeps(j0, before);
      moves := OneRound(j0, before, k - 1);
    }
  }

  /**
    From the start of any upload of 13 chunks or more, with any parallelism the client accepts, there is a run of
    client and server into a stall; chunk 0 is still on its way, and is refused until the lease
    is over (StallLasts, StallEndsWithLease).
   */
  lemma ClientReachesFullWindow(j0: Joint) returns (moves: seq<Move>)
    requires LongOpening(j0)
    ensures GoAll(j0, moves).Some?
    ensures
      var j := GoAll(j0, moves).value;
      && JInv(j) && Stalled(j.s) && j.s.m.id == j.id && j.c.count == ChunkCount(j.s.m.expected)
      && 0 in j.c.live && !j.c.settled
  {
    moves := ReachesAhead(j0, SLOTS);
    GoAllKeeps(j0, moves);
    var j := GoAll(j0, moves).value;
    assert j.c.live[0] > 0;
  }

  // ---------------------------------------------------------------- exactly when

  /** The upload the exchange is about is in a stall. */
  predicate StalledHere(j: Joint) { Stalled(j.s) && j.s.m.id == j.id }

  /** A stall needs more chunks than there are slots. */
  lemma StallNeedsChunks(s: System)
    requires Inv(s) && Stalled(s)
    ensures ChunkCount(s.m.expected) > SLOTS
  {
    assert Chunked(s);
    FreeChunkFreesSlot(s.m.staging.states, s.m.staging.next);
  }

  /**
    Client and server can come to a stall if and only if the file has more than twelve chunks, which the client knows
    before it starts.
   */
  lemma StallsExactly(j0: Joint)
    requires ClientOpening(j0)
    ensures (exists moves :: GoAll(j0, moves).Some? && StalledHere(GoAll(j0, moves).value))
            <==> ChunkCount(j0.s.m.expected) > SLOTS
  {
    if ChunkCount(j0.s.m.expected) > SLOTS {
      var moves := ClientReachesFullWindow(j0);
    }
    forall moves | GoAll(j0, moves).Some? && StalledHere(GoAll(j0, moves).value)
      ensures ChunkCount(j0.s.m.expected) > SLOTS
    {
      GoAllKeeps(j0, moves);
      StallNeedsChunks(GoAll(j0, moves).value.s);
    }
  }

  /** And with twelve chunks or fewer no begin of a free chunk is ever refused for want of a slot. */
  lemma ShortFilesAreNeverRefused(s: System, i: nat, buffer: Bytes, now: nat)
    requires Inv(s) && s.m.occupied && (Chunked(s) || Prepared(s)) && !s.m.finalizing
    requires ChunkCount(s.m.expected) <= SLOTS && i < s.m.staging.count && s.m.staging.states[i] == 0
    requires |buffer| == ChunkLength(s.m.expected, i)
    ensures
      var m := s.m;
      ChunkBegin(m, m.id, m.client, m.authorization, m.expected, i * CHUNK, |buffer|, Some(buffer), now).result == Ok
  {
    if !Chunked(s) { FreshInv(s.m.expected); }
    FreeChunkFreesSlot(s.m.staging.states, i);
    BackpressureExactly(s.m, s.pieces, i, Some(buffer), now);
  }
}
