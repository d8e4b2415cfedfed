/**
  Streamed uploads come to an end as well: what upload_finish answers, and from every healthy stream, queued or
  direct, a run that takes the rest of the content in whatever pieces the connection hands over, and publishes it.
 */
module UploadStreamCompletion {
  import opened Bytes
  import opened Upload
  import opened UploadRing
  import opened UploadStaging
  import opened UploadSystem
  import opened UploadInvariant
  import opened UploadStreams
  import opened UploadChunks
  import opened UploadRuns
  import opened UploadSteps
  import opened UploadPublication
  import opened UploadCompletion
  import opened UploadOvertaken
  import Sha256

  // ---------------------------------------------------------------- upload_finish

  /** The queue was flushed and is waited for, or the part file is to be read back. */
  predicate GoesOnToFinish(s: System, s': System)
    requires Shaped(s.m) && Shaped(s'.m)
  {
    && s'.m.occupied && s'.dir == s.dir && s'.accepted == s.accepted
    && if s.m.direct then
         && s'.m == s.m.(finalizing := true) && s'.stream == NoStream
         && s'.finishers == s.finishers + [Hashing(s.m.id, false, 0, Sha256.ContextOf([]))]
       else
         && s'.stream == Draining && s'.finishers == s.finishers
         && s'.m.ring.buffered == 0 && Contents(s'.m.ring) == Contents(s.m.ring)
  }

  /** A flush of the partial tail that the source does not refuse. */
  predicate CanFlush(m: Manager) { m.direct || m.ring.buffered == 0 || !m.discard }

  lemma QueuedFinishes(s: System)
    requires Inv(s) && s.m.occupied && Queued(s) && s.stream == Open
    requires s.m.received == s.m.expected && s.m.error == 0 && CanFlush(s.m)
    ensures DoFinishCall(s).Some? && Shaped(DoFinishCall(s).value.m) && GoesOnToFinish(s, DoFinishCall(s).value)
  {
    if s.m.ring.buffered > 0 {
      EnqueueKeeps(s.m.ring);
    }
  }

  /**
    upload_finish on an open stream whose lease runs goes on to drain the queue, or to read the part file back, if
    and only if every announced byte was received, no write failed, and the partial tail can still be handed over.
    Otherwise it starts clearing the slot.
   */
  lemma FinishCallExactly(s: System, now: nat)
    requires Inv(s) && s.stream == Open && !LeaseExpired(s.m, now)
    ensures
      var r := Next(s, FinishCall(now));
      && r.Some? && Shaped(s.m) && Shaped(r.value.m)
      && if s.m.received == s.m.expected && s.m.error == 0 && CanFlush(s.m) then GoesOnToFinish(s, r.value)
         else r.value == s.(m := ClearBegin(s.m), stream := NoStream)
  {
    assert Next(s, FinishCall(now)) == DoFinishCall(s);
    if s.m.received == s.m.expected && s.m.error == 0 && CanFlush(s.m) && !s.m.direct {
      QueuedFinishes(s);
    }
  }

  // ---------------------------------------------------------------- runs, and what was handed over in them

  /** The data of the upload_write calls of a run, or of its upload_write_direct calls, in order. */
  function Sent(steps: seq<Step>, direct: bool): seq<Bytes> {
    if steps == [] then []
    else Sent(steps[..|steps| - 1], direct) + Handed(steps[|steps| - 1], direct)
  }

  function Handed(step: Step, direct: bool): seq<Bytes> {
    match step
    case WriteCall(data, _) => if direct then [] else [data]
    case DirectCall(data, _) => if direct then [data] else []
    case _ => []
  }

  lemma {:induction false} SentJoin(first: seq<Step>, more: seq<Step>, direct: bool)
    ensures Sent(first + more, direct) == Sent(first, direct) + Sent(more, direct)
    decreases |more|
  {
    if more == [] {
      assert first + more == first;
    } else {
      var all := first + more;
      SentJoin(first, more[..|more| - 1], direct);
      assert all[..|all| - 1] == first + more[..|more| - 1];
    }
  }

  /** Some run leads from `s` to `t`, in which the calls handed over `sent`. */
  ghost predicate Leads(s: System, t: System, sent: seq<Bytes>, direct: bool) {
    exists steps :: Run(s, steps) == Some(t) && Sent(steps, direct) == sent
  }

  lemma StaysLeads(s: System, direct: bool)
    ensures Leads(s, s, [], direct)
  {
    assert Run(s, []) == Some(s) && Sent([], direct) == [];
  }

  lemma StepLeads(s: System, step: Step, direct: bool)
    requires Next(s, step).Some?
    ensures Leads(s, Next(s, step).value, Handed(step, direct), direct)
  {
    RunSnoc(s, [], step);
    assert [] + [step] == [step];
    SentJoin([], [step], direct);
    assert [step][..0] == [];
    assert Sent([step], direct) == Handed(step, direct);
    assert Run(s, [step]) == Next(s, step);
  }

  lemma LeadsOn(s: System, t: System, u: System, a: seq<Bytes>, b: seq<Bytes>, direct: bool)
    requires Leads(s, t, a, direct) && Leads(t, u, b, direct)
    ensures Leads(s, u, a + b, direct)
  {
    var first :| Run(s, first) == Some(t) && Sent(first, direct) == a;
    var more :| Run(t, more) == Some(u) && Sent(more, direct) == b;
    RunJoin(s, first, more);
    SentJoin(first, more, direct);
    assert Run(s, first + more) == Some(u);
  }

  /** Nothing was handed over in the first part, or in the second. */
  lemma LeadsQuietly(s: System, t: System, u: System, sent: seq<Bytes>, direct: bool)
    ensures Leads(s, t, [], direct) && Leads(t, u, sent, direct) ==> Leads(s, u, sent, direct)
    ensures Leads(s, t, sent, direct) && Leads(t, u, [], direct) ==> Leads(s, u, sent, direct)
  {
    assert [] + sent == sent == sent + [];
    if Leads(s, t, [], direct) && Leads(t, u, sent, direct) { LeadsOn(s, t, u, [], sent, direct); }
    if Leads(s, t, sent, direct) && Leads(t, u, [], direct) { LeadsOn(s, t, u, sent, [], direct); }
  }

  /** One more step at the end, handing over nothing. */
  lemma LeadsToNext(s: System, t: System, step: Step, sent: seq<Bytes>, direct: bool)
    requires Leads(s, t, sent, direct) && Next(t, step).Some? && Handed(step, direct) == []
    ensures Leads(s, Next(t, step).value, sent, direct)
  {
    StepLeads(t, step, direct);
    LeadsQuietly(s, t, Next(t, step).value, sent, direct);
  }

  /** A step of this upload's own keeps its names, the log, and whether its final name is free. */
  lemma OwnStepKeepsNames(s: System, step: Step)
    requires Inv(s) && s.m.occupied && Next(s, step).Some? && !Empties(step) && !step.Outside?
    ensures SameNames(s, Next(s, step).value)
  {
    StepGoesOn(s, step);
    if Writes(step) {
      PartOfLive(s);
      WritesOnlyPart(s, step);
    }
  }

  // ---------------------------------------------------------------- the writer drains the queue

  /** Nothing has stopped this upload. */
  ghost predicate Healthy(s: System) {
    Inv(s) && s.m.occupied && s.m.error == 0 && !s.m.discard && !s.m.finalizing && s.m.limits.lease > 0
  }

  /** A healthy queued stream. */
  ghost predicate Streaming(s: System) { Healthy(s) && Queued(s) }

  /** What the writer does next. */
  function DrainStep(m: Manager): Step {
    if m.job.RingJob? then
      if m.job.written < m.job.size then WriterWroteStep(m.job.size - m.job.written) else WriterEndStep(0)
    else WriterStartStep
  }

  /** How many steps the writer has left: start, write and end of each buffer. */
  function DrainLeft(m: Manager): nat {
    var done := if !m.job.RingJob? then 0 else if m.job.written < m.job.size then 1 else 2;
    if 3 * m.ring.queued >= done then 3 * m.ring.queued - done else 0
  }

  /** The connection is where it was, and nothing was taken in. */
  predicate SameStream(s: System, t: System) {
    && t.stream == s.stream && t.accepted == s.accepted && t.m.ring.buffered == s.m.ring.buffered
    && t.m.started && !t.m.chunkTransport && !t.m.direct && t.m.received == s.m.received
    && t.m.error == 0 && t.m.discard == s.m.discard && t.m.finalizing == s.m.finalizing
  }

  lemma DrainStarts(s: System)
    requires Streaming(s) && s.m.ring.queued > 0 && s.m.job == NoJob
    ensures DoWriterStart(s).Some? && SameStream(s, DoWriterStart(s).value)
    ensures DrainLeft(DoWriterStart(s).value.m) < DrainLeft(s.m)
  {
  }

  lemma DrainWrites(s: System)
    requires Streaming(s) && s.m.job.RingJob? && s.m.job.written < s.m.job.size
    ensures
      var r := DoWriterWrote(s, s.m.job.size - s.m.job.written);
      r.Some? && SameStream(s, r.value) && DrainLeft(r.value.m) < DrainLeft(s.m)
  {
    WriterMemoryLive(s);
    WroteMovesJob(s.m, s.m.job.size - s.m.job.written);
  }

  lemma DrainEnds(s: System)
    requires Streaming(s) && s.m.job.RingJob? && s.m.job.written >= s.m.job.size
    ensures DoWriterEnd(s, 0).Some? && SameStream(s, DoWriterEnd(s, 0).value)
    ensures DrainLeft(DoWriterEnd(s, 0).value.m) < DrainLeft(s.m)
  {
  }

  lemma DrainTurn(s: System)
    requires Streaming(s) && s.m.ring.queued > 0
    ensures
      var r := Do(s, DrainStep(s.m));
      r.Some? && SameStream(s, r.value) && DrainLeft(r.value.m) < DrainLeft(s.m)
  {
    if s.m.job == NoJob {
      DrainStarts(s);
    } else if s.m.job.written < s.m.job.size {
      DrainWrites(s);
    } else {
      DrainEnds(s);
    }
  }

  lemma QueuedAgain(s: System, t: System)
    requires Streaming(s) && Inv(t) && SameNames(s, t) && t.m.started && !t.m.chunkTransport && !t.m.direct
    requires t.m.error == 0 && !t.m.discard && !t.m.finalizing
    ensures Streaming(t)
  {
  }

  /** The writer empties the queue while the connection stands still. */
  lemma {:induction false} Drains(s: System) returns (t: System)
    requires Streaming(s)
    ensures Leads(s, t, [], false) && Streaming(t) && SameStream(s, t) && SameNames(s, t)
    ensures t.m.ring.queued == 0 && t.m.job == NoJob
    decreases DrainLeft(s.m)
  {
    if s.m.ring.queued == 0 {
      StaysLeads(s, false);
      t := s;
    } else {
      var step := DrainStep(s.m);
      DrainTurn(s);
      assert Next(s, step) == Do(s, step);
      StepKeeps(s, step);
      OwnStepKeepsNames(s, step);
      var mid := Next(s, step).value;
      QueuedAgain(s, mid);
      t := Drains(mid);
      StepLeads(s, step, false);
      LeadsQuietly(s, mid, t, [], false);
    }
  }

  // ---------------------------------------------------------------- upload_write takes its data

  /** One turn of upload_write took `n` bytes, or made room. */
  predicate TookBytes(s: System, t: System, n: nat)
    requires s.stream.Writing?
  {
    && n <= |s.stream.rest| && t.accepted == s.accepted + s.stream.rest[..n]
    && t.stream == (if n == |s.stream.rest| then Open else Writing(s.stream.rest[n..]))
    && (n > 0 || t.m.ring.buffered < s.m.ring.buffered)
    && t.m.started && !t.m.chunkTransport && !t.m.direct
    && t.m.error == 0 && !t.m.discard && !t.m.finalizing
  }

  lemma TurnResult(m: Manager, data: Bytes, now: nat)
    requires Shaped(m) && m.error == 0 && !m.discard && m.ring.queued < DEPTH
    ensures
      var out := WriteTurn(m, data, now);
      && out.result == Ok && out.m == m.(ring := out.m.ring, sha := out.m.sha, received := out.m.received,
                                         lastActivity := now)
      && (TurnCount(m.ring, data) == 0 && data != [] ==> out.m.ring.buffered < m.ring.buffered)
  {
  }

  lemma TurnTakes(s: System, now: nat)
    requires Streaming(s) && s.stream.Writing? && s.m.ring.queued == 0
    ensures
      var r := Next(s, WriteTurnStep(now));
      r.Some? && TookBytes(s, r.value, TurnCount(s.m.ring, s.stream.rest))
  {
    TurnResult(s.m, s.stream.rest, now);
    assert Next(s, WriteTurnStep(now)) == DoWriteTurn(s, now);
  }

  lemma TurnLeavesHealthy(s: System, now: nat)
    requires Streaming(s) && s.stream.Writing? && s.m.ring.queued == 0
    ensures
      var r := Next(s, WriteTurnStep(now));
      && r.Some? && Streaming(r.value) && SameNames(s, r.value)
      && TookBytes(s, r.value, TurnCount(s.m.ring, s.stream.rest))
  {
    TurnTakes(s, now);
    StepKeeps(s, WriteTurnStep(now));
    OwnStepKeepsNames(s, WriteTurnStep(now));
    QueuedAgain(s, Next(s, WriteTurnStep(now)).value);
  }

  /** The writer drains the queue, and upload_write takes a turn. */
  lemma TakesTurn(s: System) returns (t: System, n: nat)
    requires Streaming(s) && s.stream.Writing?
    ensures Leads(s, t, [], false) && Streaming(t) && SameNames(s, t) && TookBytes(s, t, n)
  {
    var u := Drains(s);
    var turn := WriteTurnStep(u.m.lastActivity);
    TurnLeavesHealthy(u, u.m.lastActivity);
    t, n := Next(u, turn).value, TurnCount(u.m.ring, u.stream.rest);
    LeadsToNext(s, u, turn, [], false);
  }

  lemma TookOn(accepted: Bytes, rest: Bytes, n: nat)
    requires n <= |rest|
    ensures accepted + rest[..n] + rest[n..] == accepted + rest
  {
    assert rest[..n] + rest[n..] == rest;
  }

  /** upload_write comes back with all its data taken. */
  lemma {:induction false} Takes(s: System) returns (t: System)
    requires Streaming(s) && s.stream.Writing?
    ensures Leads(s, t, [], false) && Streaming(t) && SameNames(s, t)
    ensures t.stream == Open && t.accepted == s.accepted + s.stream.rest
    decreases |s.stream.rest|, s.m.ring.buffered
  {
    var u, n := TakesTurn(s);
    TookOn(s.accepted, s.stream.rest, n);
    if n == |s.stream.rest| {
      t := u;
    } else {
      t := Takes(u);
      LeadsQuietly(s, u, t, [], false);
    }
  }

  lemma CallEnters(s: System, data: Bytes)
    requires Streaming(s) && s.stream == Open && |s.accepted| + |data| <= s.m.expected
    ensures Next(s, WriteCall(data, s.m.lastActivity)) == Some(if data == [] then s else s.(stream := Writing(data)))
  {
  }

  /** One upload_write. */
  lemma Sends(s: System, data: Bytes) returns (t: System)
    requires Streaming(s) && s.stream == Open && |s.accepted| + |data| <= s.m.expected
    ensures Leads(s, t, [data], false) && Streaming(t) && SameNames(s, t)
    ensures t.stream == Open && t.accepted == s.accepted + data
  {
    var call := WriteCall(data, s.m.lastActivity);
    CallEnters(s, data);
    StepLeads(s, call, false);
    if data == [] {
      t := s;
    } else {
      StepKeeps(s, call);
      var u := Next(s, call).value;
      QueuedAgain(s, u);
      t := Takes(u);
      LeadsQuietly(s, u, t, [data], false);
    }
  }

  /** The last piece, and what the others leave room for. */
  lemma LastPiece(pieces: seq<Bytes>)
    requires pieces != []
    ensures
      var first, last := pieces[..|pieces| - 1], pieces[|pieces| - 1];
      && Concat(pieces) == Concat(first) + last && first + [last] == pieces
      && |Concat(pieces)| == |Concat(first)| + |last|
  {
  }

  lemma TookPieces(accepted: Bytes, pieces: seq<Bytes>)
    requires pieces != []
    ensures accepted + Concat(pieces[..|pieces| - 1]) + pieces[|pieces| - 1] == accepted + Concat(pieces)
  {
    LastPiece(pieces);
  }

  /** All the calls of the connection. */
  lemma {:induction false} SendsAll(s: System, pieces: seq<Bytes>) returns (t: System)
    requires Streaming(s) && s.stream == Open && |s.accepted| + |Concat(pieces)| <= s.m.expected
    ensures Leads(s, t, pieces, false) && Streaming(t) && SameNames(s, t)
    ensures t.stream == Open && t.accepted == s.accepted + Concat(pieces)
  {
    if pieces == [] {
      StaysLeads(s, false);
      t := s;
    } else {
      LastPiece(pieces);
      var first, last := pieces[..|pieces| - 1], pieces[|pieces| - 1];
      var u := SendsAll(s, first);
      t := Sends(u, last);
      LeadsOn(s, u, t, first, [last], false);
      TookPieces(s.accepted, pieces);
    }
  }

  // ---------------------------------------------------------------- the end of a queued stream

  /** The upload in the slot of `s` was published with this content, and the slot emptied. */
  predicate PublishedWith(s: System, t: System, content: Bytes) {
    && !t.m.occupied && |t.log| == |s.log| + 1
    && t.log == s.log + [Published(s.m.finalName, content, s.m.expected, s.m.expectedHash,
                                   Sha256.Hex(Sha256.Digest(content)))]
    && s.m.finalName in t.dir && t.dir[s.m.finalName] == content
  }

  lemma DrainedDigest(s: System)
    requires Streaming(s) && s.m.ring.queued == 0 && s.m.ring.buffered == 0 && s.m.job == NoJob
    ensures File(s) == s.accepted && s.m.partName in s.dir
    ensures Sha256.Hex(Sha256.Finish(s.m.sha)) == Sha256.Hex(Sha256.Digest(s.accepted))
  {
    DrainedIsOnDisk(s);
    Sha256.HoldsFinish(s.m.sha, s.accepted);
    Sha256.IsHexDigestMeans(Sha256.Hex(Sha256.Finish(s.m.sha)), s.accepted);
  }

  lemma FinishDrainedStep(s: System, e: FinishEnv)
    requires Shaped(s.m)
    ensures Next(s, FinishDrained(e)) == DoFinishDrained(s, e)
  {
  }

  lemma DrainedConcludes(s: System, e: FinishEnv)
    requires Shaped(s.m) && s.stream == Draining && s.m.partName in s.dir && s.m.job == NoJob && s.m.error == 0
    requires s.m.ring.queued == 0
    ensures DoFinishDrained(s, e) == Some(Conclude(s, Sha256.Hex(Sha256.Finish(s.m.sha)), e))
  {
  }

  lemma DrainedPublishes(s: System, e: FinishEnv) returns (t: System)
    requires Streaming(s) && s.stream == Draining && s.m.ring.queued == 0 && s.m.job == NoJob && AllWell(e)
    requires s.m.finalName !in s.dir && HashAgrees(s.m.expectedHash, s.accepted)
    ensures Leads(s, t, [], false) && PublishedWith(s, t, s.accepted)
  {
    DrainedDigest(s);
    FinishDrainedStep(s, e);
    DrainedConcludes(s, e);
    StepLeads(s, FinishDrained(e), false);
    t := Next(s, FinishDrained(e)).value;
    ConcludePublishes(s, Sha256.Hex(Sha256.Finish(s.m.sha)), e);
  }

  /** Publishing what goes on from `s` publishes what is in the slot of `s`. */
  lemma SameNamesSamePublication(s: System, u: System, t: System, content: Bytes)
    requires SameNames(s, u) && PublishedWith(u, t, content)
    ensures PublishedWith(s, t, content)
  {
  }

  /** From the wait of upload_finish. */
  lemma DrainsAndPublishes(s: System, e: FinishEnv) returns (t: System)
    requires Streaming(s) && s.stream == Draining && AllWell(e)
    requires s.m.finalName !in s.dir && HashAgrees(s.m.expectedHash, s.accepted)
    ensures Leads(s, t, [], false) && PublishedWith(s, t, s.accepted)
  {
    var u := Drains(s);
    t := DrainedPublishes(u, e);
    SameNamesSamePublication(s, u, t, s.accepted);
    LeadsQuietly(s, u, t, [], false);
  }

  /** From an open stream that took every byte. */
  lemma FinishesQueued(s: System, e: FinishEnv) returns (t: System)
    requires Streaming(s) && s.stream == Open && s.m.received == s.m.expected && AllWell(e)
    requires s.m.finalName !in s.dir && HashAgrees(s.m.expectedHash, s.accepted)
    ensures Leads(s, t, [], false) && PublishedWith(s, t, s.accepted)
  {
    var call := FinishCall(s.m.lastActivity);
    FinishCallExactly(s, s.m.lastActivity);
    StepKeeps(s, call);
    OwnStepKeepsNames(s, call);
    var u := Next(s, call).value;
    FinishKeepsHealth(s, u);
    QueuedAgain(s, u);
    t := DrainsAndPublishes(u, e);
    StepLeads(s, call, false);
    LeadsQuietly(s, u, t, [], false);
  }

  lemma FinishKeepsHealth(s: System, u: System)
    requires Streaming(s) && s.stream == Open && DoFinishCall(s) == Some(u) && u.stream == Draining
    ensures u.m == s.m.(ring := u.m.ring)
  {
  }

  /** What a stream call that is still running has yet to take. */
  function Pending(stream: Stream): Bytes {
    match stream
    case Writing(rest) => rest
    case Direct(data, _) => data
    case _ => []
  }

  /** The rest of the connection's calls, once upload_write is not running. */
  lemma OpenCanBePublished(s: System, pieces: seq<Bytes>, content: Bytes, e: FinishEnv) returns (t: System)
    requires Streaming(s) && s.stream == Open && AllWell(e)
    requires content == s.accepted + Concat(pieces) && |content| == s.m.expected
    requires s.m.finalName !in s.dir && HashAgrees(s.m.expectedHash, content)
    ensures Leads(s, t, pieces, false) && PublishedWith(s, t, content)
  {
    var u := SendsAll(s, pieces);
    t := FinishesQueued(u, e);
    LeadsQuietly(s, u, t, pieces, false);
  }

  lemma AnyCanBePublished(s: System, pieces: seq<Bytes>, content: Bytes, e: FinishEnv) returns (t: System)
    requires Streaming(s) && s.stream != NoStream && (s.stream.Draining? ==> pieces == []) && AllWell(e)
    requires content == s.accepted + Pending(s.stream) + Concat(pieces) && |content| == s.m.expected
    requires s.m.finalName !in s.dir && HashAgrees(s.m.expectedHash, content)
    ensures Leads(s, t, pieces, false) && PublishedWith(s, t, content)
  {
    if s.stream == Draining {
      assert content == s.accepted;
      t := DrainsAndPublishes(s, e);
    } else if s.stream == Open {
      assert content == s.accepted + Concat(pieces);
      t := OpenCanBePublished(s, pieces, content, e);
    } else {
      var u := Takes(s);
      t := OpenCanBePublished(u, pieces, content, e);
      SameNamesSamePublication(s, u, t, content);
      LeadsQuietly(s, u, t, pieces, false);
    }
  }

  /**
    From every healthy queued stream, with any number of buffers queued and the writer anywhere in its work: whatever
    the connection still has to say, in whatever pieces it hands it to upload_write, there is a run with exactly those
    calls that publishes what was accepted, followed by the rest, if that has the announced size and the declared
    hash and the name is free.
   */
  lemma StreamCanBePublished(s: System, pieces: seq<Bytes>, content: Bytes, e: FinishEnv) returns (steps: seq<Step>)
    requires Streaming(s) && s.stream != NoStream && (s.stream.Draining? ==> pieces == []) && AllWell(e)
    requires content == s.accepted + Pending(s.stream) + Concat(pieces) && |content| == s.m.expected
    requires s.m.finalName !in s.dir && HashAgrees(s.m.expectedHash, content)
    ensures Run(s, steps).Some? && Sent(steps, false) == pieces && PublishedWith(s, Run(s, steps).value, content)
  {
    var t := AnyCanBePublished(s, pieces, content, e);
    steps :| Run(s, steps) == Some(t) && Sent(steps, false) == pieces;
  }

  // ---------------------------------------------------------------- the direct stream

  /** A healthy direct stream. */
  ghost predicate Directing(s: System) { Healthy(s) && Directed(s) }

  lemma DirectedAgain(s: System, t: System)
    requires Directing(s) && Inv(t) && SameNames(s, t) && t.m.started && !t.m.chunkTransport && t.m.direct
    requires t.m.error == 0 && !t.m.discard && !t.m.finalizing
    ensures Directing(t)
  {
  }

  /** Everything but the connection, the file and the counters of the write is as it was. */
  predicate StillDirect(t: System) {
    t.m.started && !t.m.chunkTransport && t.m.direct && t.m.error == 0 && !t.m.discard && !t.m.finalizing
  }

  lemma DirectCallEnters(s: System, data: Bytes)
    requires Directing(s) && s.stream == Open && data != [] && |s.accepted| + |data| <= s.m.expected
    ensures
      var r := Next(s, DirectCall(data, s.m.lastActivity));
      && r.Some? && r.value.stream == Direct(data, 0) && r.value.accepted == s.accepted && StillDirect(r.value)
  {
  }

  lemma DirectWriteGoesOn(s: System)
    requires Directing(s) && s.stream.Direct?
    ensures
      var r := Next(s, DirectWrote(|s.stream.data| - s.stream.written));
      && r.Some? && r.value.stream == Direct(s.stream.data, |s.stream.data|) && r.value.accepted == s.accepted
      && StillDirect(r.value)
  {
  }

  lemma DirectWriteEnds(s: System, now: nat)
    requires Directing(s) && s.stream.Direct? && s.stream.written == |s.stream.data|
    ensures
      var r := Next(s, DirectDone(0, now));
      && r.Some? && r.value.stream == Open && r.value.accepted == s.accepted + s.stream.data && StillDirect(r.value)
  {
  }

  /** A step of a direct stream that leaves it one. */
  lemma DirectStepLeads(s: System, step: Step)
    requires Directing(s) && (step.DirectCall? || step.DirectWrote? || step.DirectDone?)
    requires Next(s, step).Some? && StillDirect(Next(s, step).value)
    ensures Directing(Next(s, step).value) && SameNames(s, Next(s, step).value)
    ensures Leads(s, Next(s, step).value, Handed(step, true), true)
  {
    StepKeeps(s, step);
    OwnStepKeepsNames(s, step);
    DirectedAgain(s, Next(s, step).value);
    StepLeads(s, step, true);
  }

  /** The unlocked write that is under way comes to its end. */
  lemma DirectWrites(s: System) returns (t: System)
    requires Directing(s) && s.stream.Direct?
    ensures Leads(s, t, [], true) && Directing(t) && SameNames(s, t)
    ensures t.stream == Open && t.accepted == s.accepted + s.stream.data
  {
    var write := DirectWrote(|s.stream.data| - s.stream.written);
    DirectWriteGoesOn(s);
    DirectStepLeads(s, write);
    var u := Next(s, write).value;
    DirectWriteEnds(u, u.m.lastActivity);
    DirectStepLeads(u, DirectDone(0, u.m.lastActivity));
    t := Next(u, DirectDone(0, u.m.lastActivity)).value;
    LeadsQuietly(s, u, t, [], true);
  }

  /** One upload_write_direct. */
  lemma SendsDirect(s: System, data: Bytes) returns (t: System)
    requires Directing(s) && s.stream == Open && data != [] && |s.accepted| + |data| <= s.m.expected
    ensures Leads(s, t, [data], true) && Directing(t) && SameNames(s, t)
    ensures t.stream == Open && t.accepted == s.accepted + data
  {
    var call := DirectCall(data, s.m.lastActivity);
    DirectCallEnters(s, data);
    DirectStepLeads(s, call);
    var u := Next(s, call).value;
    t := DirectWrites(u);
    LeadsQuietly(s, u, t, [data], true);
  }

  lemma {:induction false} SendsAllDirect(s: System, pieces: seq<Bytes>) returns (t: System)
    requires Directing(s) && s.stream == Open && |s.accepted| + |Concat(pieces)| <= s.m.expected && [] !in pieces
    ensures Leads(s, t, pieces, true) && Directing(t) && SameNames(s, t)
    ensures t.stream == Open && t.accepted == s.accepted + Concat(pieces)
  {
    if pieces == [] {
      StaysLeads(s, true);
      t := s;
    } else {
      LastPiece(pieces);
      var first, last := pieces[..|pieces| - 1], pieces[|pieces| - 1];
      var u := SendsAllDirect(s, first);
      t := SendsDirect(u, last);
      LeadsOn(s, u, t, first, [last], true);
      TookPieces(s.accepted, pieces);
    }
  }

  /** upload_finish of a direct stream that took every byte starts a pass over the whole file. */
  lemma DirectFinishPasses(s: System, now: nat)
    requires Directing(s) && s.stream == Open && s.m.received == s.m.expected && !LeaseExpired(s.m, now)
    ensures
      var r := Next(s, FinishCall(now));
      && r.Some? && Passing(r.value, |s.finishers|) && r.value.finishers[|s.finishers|].position == 0
      && File(r.value) == s.accepted
  {
    FinishCallExactly(s, now);
    StepKeeps(s, FinishCall(now));
  }

  lemma FinishesDirect(s: System, e: FinishEnv) returns (t: System)
    requires Directing(s) && s.stream == Open && s.m.received == s.m.expected && AllWell(e)
    requires s.m.finalName !in s.dir && HashAgrees(s.m.expectedHash, s.accepted)
    ensures Leads(s, t, [], true) && PublishedWith(s, t, s.accepted)
  {
    var call := FinishCall(s.m.lastActivity);
    DirectFinishPasses(s, s.m.lastActivity);
    OwnStepKeepsNames(s, call);
    var u := Next(s, call).value;
    StepLeads(s, call, true);
    t := PassLeads(u, |s.finishers|, e, s.accepted);
    SameNamesSamePublication(s, u, t, s.accepted);
    LeadsQuietly(s, u, t, [], true);
  }

  /** The pass reads the file and concludes. */
  lemma PassLeads(s: System, f: nat, e: FinishEnv, content: Bytes) returns (t: System)
    requires Passing(s, f) && s.finishers[f].position == 0 && AllWell(e) && File(s) == content
    requires s.m.finalName !in s.dir && HashAgrees(s.m.expectedHash, content)
    ensures Leads(s, t, [], true) && PublishedWith(s, t, content)
  {
    TwoMoreSteps(s, f, e);
    var u := Next(s, HashRead(f, |File(s)|)).value;
    t := Next(u, HashDone(f, true, e)).value;
    StepLeads(s, HashRead(f, |File(s)|), true);
    StepLeads(u, HashDone(f, true, e), true);
    LeadsQuietly(s, u, t, [], true);
  }

  lemma AnyDirectCanBePublished(s: System, pieces: seq<Bytes>, content: Bytes, e: FinishEnv) returns (t: System)
    requires Directing(s) && s.stream != NoStream && [] !in pieces && AllWell(e)
    requires content == s.accepted + Pending(s.stream) + Concat(pieces) && |content| == s.m.expected
    requires s.m.finalName !in s.dir && HashAgrees(s.m.expectedHash, content)
    ensures Leads(s, t, pieces, true) && PublishedWith(s, t, content)
  {
    var u := s;
    StaysLeads(s, true);
    if s.stream.Direct? { u := DirectWrites(s); }
    assert content == u.accepted + Concat(pieces);
    var v := SendsAllDirect(u, pieces);
    t := FinishesDirect(v, e);
    SameNamesSamePublication(s, v, t, content);
    LeadsQuietly(s, u, v, pieces, true);
    LeadsQuietly(s, v, t, pieces, true);
  }

  /**
    From every healthy direct stream, its unlocked write anywhere in its work: whatever the connection still has to
    say, in whatever pieces, there is a run with exactly those upload_write_direct calls that publishes what was
    accepted, followed by the rest, on the same conditions.
   */
  lemma DirectCanBePublished(s: System, pieces: seq<Bytes>, content: Bytes, e: FinishEnv) returns (steps: seq<Step>)
    requires Directing(s) && s.stream != NoStream && [] !in pieces && AllWell(e)
    requires content == s.accepted + Pending(s.stream) + Concat(pieces) && |content| == s.m.expected
    requires s.m.finalName !in s.dir && HashAgrees(s.m.expectedHash, content)
    ensures Run(s, steps).Some? && Sent(steps, true) == pieces && PublishedWith(s, Run(s, steps).value, content)
  {
    var t := AnyDirectCanBePublished(s, pieces, content, e);
    steps :| Run(s, steps) == Some(t) && Sent(steps, true) == pieces;
  }

  // ---------------------------------------------------------------- from the start

  lemma BeginsStreaming(s: System)
    requires ReadyToStart(s)
    ensures
      var r := Next(s, BeginCall(s.m));
      && r.Some? && Streaming(r.value) && r.value.stream == Open && r.value.accepted == [] && SameNames(s, r.value)
      && RingEmpty(r.value.m.ring) && r.value.m.received == 0 && r.value.m.job == NoJob
  {
    BeginsStream(s);
  }

  lemma SwitchesToDirect(s: System)
    requires Streaming(s) && s.stream == Open && RingEmpty(s.m.ring) && s.m.received == 0 && s.m.job == NoJob
    ensures
      var r := Next(s, EnableDirectStep);
      && r.Some? && Directing(r.value) && r.value.stream == Open && r.value.accepted == [] && SameNames(s, r.value)
  {
    StepKeeps(s, EnableDirectStep);
    OwnStepKeepsNames(s, EnableDirectStep);
  }

  /** A prepared upload, begun and, if asked for, switched to the direct stream. */
  lemma StartsStream(s: System, direct: bool) returns (t: System)
    requires ReadyToStart(s)
    ensures Leads(s, t, [], direct) && t.stream == Open && t.accepted == [] && SameNames(s, t)
    ensures if direct then Directing(t) else Streaming(t)
  {
    BeginsStreaming(s);
    t := Next(s, BeginCall(s.m)).value;
    StepLeads(s, BeginCall(s.m), direct);
    if direct {
      SwitchesToDirect(t);
      LeadsToNext(s, t, EnableDirectStep, [], direct);
      t := Next(t, EnableDirectStep).value;
    }
  }

  lemma PreparedStreamPublishes(s: System, direct: bool, pieces: seq<Bytes>, e: FinishEnv) returns (t: System)
    requires ReadyToStart(s) && |Concat(pieces)| == s.m.expected && (direct ==> [] !in pieces) && AllWell(e)
    requires s.m.finalName !in s.dir && HashAgrees(s.m.expectedHash, Concat(pieces))
    ensures Leads(s, t, pieces, direct) && PublishedWith(s, t, Concat(pieces))
  {
    var u := StartsStream(s, direct);
    assert Concat(pieces) == u.accepted + Pending(u.stream) + Concat(pieces);
    if direct {
      t := AnyDirectCanBePublished(u, pieces, Concat(pieces), e);
    } else {
      t := AnyCanBePublished(u, pieces, Concat(pieces), e);
    }
    SameNamesSamePublication(s, u, t, Concat(pieces));
    LeadsQuietly(s, u, t, pieces, direct);
  }

  lemma PrepareLeads(s: System, r: Request, e: PrepareEnv, now: nat, unlinkOk: bool, direct: bool) returns (t: System)
    requires Inv(s) && !s.m.occupied && !s.m.discard && !s.m.finalizing && s.m.limits.lease > 0
    requires DoPrepare(s, r, e, now, unlinkOk).Some? && Prepare(s.m, r, e, now).result == Ok
    requires e.unique.Some? ==> e.unique.value !in s.dir
    ensures Leads(s, t, [], direct) && ReadyToStart(t) && e.unique.Some? && t.m.finalName == e.unique.value
    ensures t.m.finalName !in t.dir && t.m.expected == r.size && t.m.expectedHash == r.hash && t.log == s.log
  {
    var prepare := PrepareStep(r, e, now, unlinkOk);
    PreparedNow(s, r, e, now, unlinkOk);
    assert Next(s, prepare) == DoPrepare(s, r, e, now, unlinkOk);
    StepKeeps(s, prepare);
    StepLeads(s, prepare, direct);
    t := Next(s, prepare).value;
    PartOfLive(t);
  }

  /**
    Every accepted prepare, of an empty file too, can be followed by a run that streams any content of that size, cut
    into any pieces, through the queue or directly, and publishes it under the chosen name, if the name is free and
    the declared hash, if any, is that of the content.
   */
  lemma NewStreamCanBePublished(s: System, r: Request, e: PrepareEnv, now: nat, unlinkOk: bool, direct: bool,
                                pieces: seq<Bytes>, fe: FinishEnv)
    returns (steps: seq<Step>)
    requires Inv(s) && !s.m.occupied && !s.m.discard && !s.m.finalizing && s.m.limits.lease > 0 && AllWell(fe)
    requires DoPrepare(s, r, e, now, unlinkOk).Some? && Prepare(s.m, r, e, now).result == Ok
    requires |Concat(pieces)| == r.size && HashAgrees(r.hash, Concat(pieces)) && (direct ==> [] !in pieces)
    requires e.unique.Some? ==> e.unique.value !in s.dir
    ensures Run(s, steps).Some? && e.unique.Some? && Sent(steps, direct) == pieces
    ensures
      var s' := Run(s, steps).value;
      && |s'.log| == |s.log| + 1 && s'.log[|s.log|].content == Concat(pieces)
      && e.unique.value in s'.dir && s'.dir[e.unique.value] == Concat(pieces)
  {
    var u := PrepareLeads(s, r, e, now, unlinkOk, direct);
    var t := PreparedStreamPublishes(u, direct, pieces, fe);
    LeadsQuietly(s, u, t, pieces, direct);
    steps :| Run(s, steps) == Some(t) && Sent(steps, direct) == pieces;
  }
}
