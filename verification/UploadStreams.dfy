/** The steps of the streaming connection and of the writer thread keep the invariant. */
module UploadStreams {
  import opened Bytes
  import opened Upload
  import opened UploadRing
  import opened UploadStaging
  import opened UploadSystem
  import opened UploadInvariant
  import Sha256

  lemma EmptyContents(r: Ring)
    requires RingShape(r) && RingEmpty(r)
    ensures Contents(r) == []
  {
    assert r.slots[r.tail][..0] == [];
  }

  /** Steps that change neither what a finisher relies on nor what names the upload. */
  lemma LiveStays(s: System, s': System)
    requires Inv(s) && s.m.occupied && s'.m.occupied && Shaped(s'.m) && Running(s')
    requires s'.finishers == s.finishers && s'.log == s.log && s'.used == s.used && s'.dir == s.dir
    requires s'.m.limits == s.m.limits && s'.m.id == s.m.id && s'.m.partName == s.m.partName
    requires s'.m.finalName == s.m.finalName && s'.m.fdOpen && s'.m.expected == s.m.expected
    requires
      || Unfinished(s)
      || (s'.m.started == s.m.started && s'.m.received == s.m.received && s'.m.staging == s.m.staging &&
          s'.m.error == s.m.error && s'.m.chunkTransport == s.m.chunkTransport &&
          s'.accepted == s.accepted && s'.pieces == s.pieces)
    ensures Inv(s')
  {
    if Unfinished(s) {
      assert forall f :: 0 <= f < |s'.finishers| ==> s'.finishers[f].id != s'.m.id;
    } else {
      FinishersStay(s, s');
    }
  }

  /** An accepted begin starts an empty stream. */
  lemma BegunIsQueued(s: System, id: Bytes, client: Bytes, authorization: Bytes, length: nat, now: nat)
    requires Inv(s) && Begin(s.m, id, client, authorization, length, now).result == Ok
    ensures s.m.occupied && !s.m.started
    ensures
      var s' := DoBegin(s, id, client, authorization, length, now).value;
      Shaped(s'.m) && s'.m.occupied && Queued(s')
  {
    EmptyContents(s.m.ring);
    Sha256.HoldsMeans(Sha256.ContextOf([]), []);
  }

  lemma BeginKeeps(s: System, id: Bytes, client: Bytes, authorization: Bytes, length: nat, now: nat)
    requires Inv(s)
    ensures Inv(DoBegin(s, id, client, authorization, length, now).value)
  {
    var s' := DoBegin(s, id, client, authorization, length, now).value;
    if Begin(s.m, id, client, authorization, length, now).result == Ok {
      BegunIsQueued(s, id, client, authorization, length, now);
      UnfinishedWhileReceiving(s);
      LiveStays(s, s');
    } else {
      assert s' == s;
    }
  }

  lemma EnableDirectKeeps(s: System)
    requires Inv(s) && DoEnableDirect(s).Some?
    ensures Inv(DoEnableDirect(s).value)
  {
    var s' := DoEnableDirect(s).value;
    if EnableDirect(s.m, s.m.id).result == Ok && !s.m.direct {
      EmptyContents(s.m.ring);
      assert s.accepted == [] && File(s) == [];
      assert Directed(s');
    } else {
      assert Running(s');
    }
    LiveStays(s, s');
  }

  lemma WriteCallKeeps(s: System, data: Bytes)
    requires Inv(s) && DoWriteCall(s, data).Some?
    ensures Inv(DoWriteCall(s, data).value)
  {
    var s' := DoWriteCall(s, data).value;
    assert Queued(s');
    LiveStays(s, s');
  }

  // ---------------------------------------------------------------- upload_write

  /** A turn that copies `data` conserves bytes and extends the hash; a full buffer goes to the writer. */
  lemma TurnConserves(s: System, now: nat)
    requires Inv(s) && s.m.occupied && Queued(s) && s.stream.Writing? && s.m.error == 0 && s.m.ring.queued < DEPTH
    ensures
      var data := s.stream.rest[..TurnCount(s.m.ring, s.stream.rest)];
      var r := WriteTurn(s.m, s.stream.rest, now).m.ring;
      && RingShape(r) && Contents(r) == Contents(s.m.ring) + data
      && (r.buffered > 0 ==> r.queued < DEPTH)
      && RingJobOk(r, s.m.job)
  {
    var data := s.stream.rest[..TurnCount(s.m.ring, s.stream.rest)];
    var r1 := FillTail(s.m.ring, data);
    FillAppends(s.m.ring, data);
    if r1.buffered == CAP && !s.m.discard {
      EnqueueKeeps(r1);
    }
  }

  lemma WriteTurnKeeps(s: System, now: nat)
    requires Inv(s) && DoWriteTurn(s, now).Some?
    ensures Inv(DoWriteTurn(s, now).value)
  {
    var s' := DoWriteTurn(s, now).value;
    if s.m.error != 0 {
      assert s.accepted + s.stream.rest[..0] == s.accepted;
      assert Queued(s');
    } else {
      var n := TurnCount(s.m.ring, s.stream.rest);
      TurnConserves(s, now);
      Sha256.HoldsAbsorb(s.m.sha, s.accepted, s.stream.rest[..n]);
      ConservedAppend(File(s), s.m.ring, s'.m.ring, s.m.job, s.accepted, s.stream.rest[..n]);
      assert s.m.ring.queued < DEPTH;
      TurnFields(s, now);
      assert Queued(s');
    }
    UnfinishedWhileReceiving(s);
    LiveStays(s, s');
  }

  lemma TurnFields(s: System, now: nat)
    requires Shaped(s.m) && s.stream.Writing? && s.m.error == 0 && s.m.ring.queued < DEPTH
    ensures
      var data := s.stream.rest[..TurnCount(s.m.ring, s.stream.rest)];
      var m := WriteTurn(s.m, s.stream.rest, now).m;
      m == Taken(s.m, data, now).(ring := m.ring)
  {
  }

  lemma ConservedAppend(file: Bytes, r: Ring, r': Ring, job: Job, accepted: Bytes, data: Bytes)
    requires RingShape(r) && RingShape(r') && Conserved(file, r, job, accepted)
    requires Contents(r') == Contents(r) + data
    ensures Conserved(file, r', job, accepted + data)
  {
    SliceAppend(file, Contents(r), Offset(job), data);
  }

  lemma SliceAppend(file: Bytes, held: Bytes, k: nat, data: Bytes)
    requires k <= |held|
    ensures file + (held + data)[k..] == file + held[k..] + data
  {
  }

  // ---------------------------------------------------------------- upload_write_direct

  lemma DirectCallKeeps(s: System, data: Bytes, now: nat)
    requires Inv(s) && DoDirectCall(s, data, now).Some?
    ensures Inv(DoDirectCall(s, data, now).value)
  {
    var s' := DoDirectCall(s, data, now).value;
    assert s.accepted + data[..0] == s.accepted;
    assert Directed(s');
    LiveStays(s, s');
  }

  lemma DirectDoneKeeps(s: System, error: nat, now: nat)
    requires Inv(s) && DoDirectDone(s, error, now).Some?
    ensures Inv(DoDirectDone(s, error, now).value)
  {
    var s' := DoDirectDone(s, error, now).value;
    assert s.stream.data[..|s.stream.data|] == s.stream.data;
    assert Directed(s');
    UnfinishedWhileReceiving(s);
    LiveStays(s, s');
  }

  // ---------------------------------------------------------------- bytes reaching the part file

  /** The part file grows by `data` while the upload still runs. */
  lemma GrowKeeps(s: System, s': System, data: Bytes)
    requires Inv(s) && s.m.occupied && Shaped(s'.m)
    requires s' == s.(m := s.m.(job := s'.m.job), stream := s'.stream, dir := s.dir[s.m.partName := File(s) + data])
    requires Running(s')
    requires forall f :: 0 <= f < |s.finishers| && s.finishers[f].id == s.m.id && s.finishers[f].Hashing? ==> data == []
    ensures Inv(s')
  {
    forall f | 0 <= f < |s'.finishers| && s'.finishers[f].id == s'.m.id ensures FinisherOk(s', s'.finishers[f]) {
      assert FinisherOk(s, s.finishers[f]);
      if s.finishers[f].Hashing? {
        assert File(s') == File(s);
      }
    }
  }

  lemma DirectWroteKeeps(s: System, k: nat)
    requires Inv(s) && DoDirectWrote(s, k).Some?
    ensures Inv(DoDirectWrote(s, k).value)
  {
    DirectWroteRuns(s, k);
    UnfinishedWhileReceiving(s);
    var w := s.stream.written;
    GrowKeeps(s, DoDirectWrote(s, k).value, s.stream.data[w..w + k]);
  }

  lemma DirectWroteRuns(s: System, k: nat)
    requires Inv(s) && DoDirectWrote(s, k).Some?
    ensures s.m.occupied && Directed(DoDirectWrote(s, k).value)
  {
    var Direct(data, w) := s.stream;
    assert data[..w] + data[w..w + k] == data[..w + k];
  }

  /** The memory the writer reads is live and unchanged: CanWrite holds for the rest of any job. */
  lemma WriterMemoryLive(s: System)
    requires Inv(s) && s.m.job != NoJob
    ensures s.m.occupied && s.m.job.written <= s.m.job.size
    ensures CanWrite(s.m, s.m.job.size - s.m.job.written)
    ensures s.m.job.RingJob? ==>
              && s.m.job.index == s.m.ring.head && s.m.job.size == s.m.ring.sizes[s.m.ring.head]
              && (s.m.ring.buffered > 0 ==> s.m.ring.tail != s.m.ring.head)
    ensures s.m.job.ChunkJob? ==>
              s.m.job.index < |s.pieces| && JobBuffer(s.m) == Some(s.pieces[s.m.job.index])
  {
    if s.m.job.RingJob? {
      if s.m.ring.buffered > 0 {
        WrapDistinct(s.m.ring.head, 0, s.m.ring.queued);
      }
    } else {
      assert ChunkOk(s.m.staging, s.m.expected, s.pieces, s.m.staging.next);
    }
  }

  lemma WriterStartKeeps(s: System)
    requires Inv(s) && DoWriterStart(s).Some?
    ensures Inv(DoWriterStart(s).value)
  {
    var s' := DoWriterStart(s).value;
    if Chunked(s) {
      assert s.pieces[s.m.staging.next][..0] == [];
      assert Chunked(s');
    } else {
      assert Queued(s');
    }
    LiveStays(s, s');
  }

  /** A write of the ring job takes the next bytes of the queue. */
  lemma RingWriteConserves(file: Bytes, r: Ring, job: Job, accepted: Bytes, k: nat)
    requires RingShape(r) && RingJobOk(r, job) && job.RingJob? && Conserved(file, r, job, accepted)
    requires job.written + k <= job.size
    ensures Conserved(file + r.slots[job.index][job.written..job.written + k], r,
                      RingJob(job.index, job.size, job.written + k), accepted)
    ensures |accepted| >= |file| + k
  {
    PopDropsFront(r);
    var front := r.slots[r.head][..r.sizes[r.head]];
    assert Contents(r) == front + Contents(r)[|front|..];
    assert front[job.written..job.written + k] == r.slots[job.index][job.written..job.written + k];
    MoveToFile(file, front, Contents(r)[|front|..], job.written, k);
  }

  /** Bytes move from the queue to the file, and the whole stays. */
  lemma MoveToFile(file: Bytes, front: Bytes, back: Bytes, w: nat, k: nat)
    requires w + k <= |front|
    ensures file + front[w..w + k] + (front + back)[w + k..] == file + (front + back)[w..]
    ensures |file + (front + back)[w..]| >= |file| + k
  {
  }

  lemma RingWroteKeeps(s: System, k: nat)
    requires Inv(s) && s.m.job.RingJob? && DoWriterWrote(s, k).Some?
    ensures Inv(DoWriterWrote(s, k).value)
  {
    var s' := DoWriterWrote(s, k).value;
    var data := WrittenNow(s.m, k);
    RingWriteConserves(File(s), s.m.ring, s.m.job, s.accepted, k);
    assert Queued(s');
    forall f | 0 <= f < |s.finishers| && s.finishers[f].id == s.m.id && s.finishers[f].Hashing? ensures data == [] {
      assert FinisherOk(s, s.finishers[f]);
    }
    GrowKeeps(s, s', data);
  }

  /** While the writer is on a chunk, no hash pass of that upload has begun. */
  lemma NoHashDuringChunkJob(s: System)
    requires Inv(s) && s.m.job.ChunkJob?
    ensures Chunked(s)
    ensures forall f :: 0 <= f < |s.finishers| && s.finishers[f].id == s.m.id ==> !s.finishers[f].Hashing?
  {
    forall f | 0 <= f < |s.finishers| && s.finishers[f].id == s.m.id ensures !s.finishers[f].Hashing? {
      assert FinisherOk(s, s.finishers[f]);
    }
  }

  lemma ChunkWroteKeeps(s: System, k: nat)
    requires Inv(s) && s.m.job.ChunkJob? && DoWriterWrote(s, k).Some?
    ensures Inv(DoWriterWrote(s, k).value)
  {
    var s' := DoWriterWrote(s, k).value;
    NoHashDuringChunkJob(s);
    ChunkWriteGrows(s, k);
    assert Chunked(s');
    GrowKeeps(s, s', WrittenNow(s.m, k));
  }

  lemma WriterWroteKeeps(s: System, k: nat)
    requires Inv(s) && DoWriterWrote(s, k).Some?
    ensures Inv(DoWriterWrote(s, k).value)
  {
    if s.m.job.RingJob? {
      RingWroteKeeps(s, k);
    } else {
      ChunkWroteKeeps(s, k);
    }
  }

  lemma ChunkWriteGrows(s: System, k: nat)
    requires Inv(s) && s.m.job.ChunkJob? && CanWrite(s.m, k)
    ensures Chunked(s)
    ensures
      var g := s.m.staging;
      JobBytes(g, s.pieces, s.m.job) + WrittenNow(s.m, k) == JobBytes(g, s.pieces, WriterWrote(s.m, k).job)
  {
    WriterMemoryLive(s);
    var piece, w := s.pieces[s.m.staging.next], s.m.job.written;
    assert piece[..w] + piece[w..w + k] == piece[..w + k];
  }

  // ---------------------------------------------------------------- the writer back under the mutex

  /** A job with bytes left belongs to an upload that no hash pass has reached. */
  lemma NoHashWithBytesLeft(s: System)
    requires Inv(s) && s.m.job.RingJob? && s.m.job.written < s.m.job.size
    ensures forall f :: 0 <= f < |s.finishers| && s.finishers[f].id == s.m.id ==> !s.finishers[f].Hashing?
  {
    PopDropsFront(s.m.ring);
    forall f | 0 <= f < |s.finishers| && s.finishers[f].id == s.m.id ensures !s.finishers[f].Hashing? {
      assert FinisherOk(s, s.finishers[f]);
    }
  }

  lemma RingJobEnds(s: System)
    requires Inv(s) && s.m.job.RingJob? && DoWriterEnd(s, 0).Some?
    ensures Inv(DoWriterEnd(s, 0).value)
  {
    var s' := DoWriterEnd(s, 0).value;
    var r := s.m.ring;
    PopDropsFront(r);
    assert s'.m.ring == Popped(r);
    var front := r.slots[r.head][..r.sizes[r.head]];
    assert Contents(r)[|front|..] == Contents(Popped(r));
    assert Contents(Popped(r))[0..] == Contents(Popped(r));
    assert Queued(s');
    LiveStays(s, s');
  }

  lemma RingJobFails(s: System, error: nat)
    requires Inv(s) && s.m.job.RingJob? && error != 0 && DoWriterEnd(s, error).Some?
    ensures Inv(DoWriterEnd(s, error).value)
  {
    var s' := DoWriterEnd(s, error).value;
    PopDropsFront(s.m.ring);
    assert s'.m.ring == Popped(s.m.ring);
    NoHashWithBytesLeft(s);
    assert Queued(s');
    forall f | 0 <= f < |s'.finishers| && s'.finishers[f].id == s'.m.id ensures FinisherOk(s', s'.finishers[f]) {
      assert FinisherOk(s, s.finishers[f]);
    }
  }

  lemma ChunkJobFails(s: System, error: nat)
    requires Inv(s) && s.m.job.ChunkJob? && error != 0 && DoWriterEnd(s, error).Some?
    ensures Inv(DoWriterEnd(s, error).value)
  {
    var s' := DoWriterEnd(s, error).value;
    NoHashDuringChunkJob(s);
    assert Chunked(s');
    forall f | 0 <= f < |s'.finishers| && s'.finishers[f].id == s'.m.id ensures FinisherOk(s', s'.finishers[f]) {
      assert FinisherOk(s, s.finishers[f]);
    }
  }

  lemma ChunkJobEnds(s: System)
    requires Inv(s) && s.m.job.ChunkJob? && DoWriterEnd(s, 0).Some?
    ensures Inv(DoWriterEnd(s, 0).value)
  {
    var s' := DoWriterEnd(s, 0).value;
    var g := s.m.staging;
    NoHashDuringChunkJob(s);
    WriterMemoryLive(s);
    WrittenKeeps(g, s.m.expected, s.m.received, s.pieces);
    assert s'.m.staging == Written(g);
    var piece := s.pieces[g.next];
    assert piece[..|piece|] == piece;
    assert s.pieces[..g.next + 1][..g.next] == s.pieces[..g.next];
    assert Concat(s.pieces[..g.next + 1]) == Concat(s.pieces[..g.next]) + piece;
    assert Chunked(s');
    forall f | 0 <= f < |s'.finishers| && s'.finishers[f].id == s'.m.id ensures FinisherOk(s', s'.finishers[f]) {
      assert FinisherOk(s, s.finishers[f]);
    }
  }

  lemma WriterEndKeeps(s: System, error: nat)
    requires Inv(s) && DoWriterEnd(s, error).Some?
    ensures Inv(DoWriterEnd(s, error).value)
  {
    if s.m.job.RingJob? {
      if error == 0 {
        RingJobEnds(s);
      } else {
        RingJobFails(s, error);
      }
    } else if error != 0 {
      ChunkJobFails(s, error);
    } else {
      ChunkJobEnds(s);
    }
  }
}
