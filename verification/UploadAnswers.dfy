/** When each call on the running upload is accepted, by the bytes that were accepted before. */
module UploadAnswers {
  import opened Bytes
  import opened Upload
  import opened UploadRing
  import opened UploadStaging
  import opened UploadSystem
  import opened UploadInvariant
  import opened UploadRuns

  // ---------------------------------------------------------------- streams

  /**
    upload_write is entered exactly with data that still fits what was announced; with more the stream is over, and
    nothing was taken.
   */
  lemma WriteExactly(s: System, data: Bytes, now: nat)
    requires Inv(s) && s.stream == Open && !s.m.direct && !LeaseExpired(s.m, now)
    ensures Next(s, WriteCall(data, now)) ==
            if |s.accepted| + |data| > s.m.expected then Some(s.(stream := NoStream))
            else if data == [] then Some(s)
            else Some(s.(stream := Writing(data)))
  {
  }

  /** upload_write_direct starts its unlocked write exactly with data that still fits. */
  lemma DirectExactly(s: System, data: Bytes, now: nat)
    requires Inv(s) && s.stream == Open && s.m.direct && data != [] && !LeaseExpired(s.m, now)
    ensures
      var r := Next(s, DirectCall(data, now));
      && r.Some? && r.value.accepted == s.accepted
      && r.value.stream == if |s.accepted| + |data| > s.m.expected then NoStream else Direct(data, 0)
  {
  }

  /** The switch to the direct stream is possible exactly before the first byte. */
  lemma EnableDirectExactly(s: System)
    requires Inv(s) && s.stream == Open
    ensures EnableDirect(s.m, s.m.id).result == if s.accepted == [] && RingEmpty(s.m.ring) then Ok else Busy
  {
  }

  // ---------------------------------------------------------------- chunks

  /** The request names one of the extents. */
  predicate IsExtent(expected: nat, total: nat, offset: nat, length: nat) {
    var i := offset / CHUNK;
    total == expected && i < ChunkCount(expected) && offset == i * CHUNK && length == ChunkLength(expected, i)
  }

  lemma ArraysFit(s: System)
    requires Inv(s) && s.m.occupied
    ensures |s.m.staging.states| == s.m.staging.count == ChunkCount(s.m.expected)
    ensures s.m.staging.active == Marks(s.m.staging.states, 1, 2) <= SLOTS
  {
    if !Chunked(s) {
      FreshInv(s.m.expected);
    }
  }

  /**
    upload_chunk_begin by the owner is accepted exactly for an extent of the file that has not begun, while fewer than
    twelve chunks hold a buffer, there is memory, no stream has begun and the upload is not being finished.
   */
  lemma ChunkBeginExactly(s: System, total: nat, offset: nat, length: nat, alloc: Option<Bytes>, now: nat)
    requires Inv(s) && s.m.occupied && length > 0 && (alloc.Some? ==> |alloc.value| == length)
    ensures
      var m := s.m;
      ChunkBegin(m, m.id, m.client, m.authorization, total, offset, length, alloc, now).result ==
      if m.finalizing || (m.started && !m.chunkTransport) then Busy
      else if !IsExtent(m.expected, total, offset, length) then SizeMismatch
      else if offset / CHUNK >= |m.staging.states| || m.staging.states[offset / CHUNK] != 0 then Busy
      else if Marks(m.staging.states, 1, 2) == SLOTS then Backpressure
      else if alloc.None? then IoError
      else Ok
  {
    ArraysFit(s);
    AdmittedExtents(s.m.expected, total, offset, length);
  }

  /** `n` bytes at `offset` go on where the accepted bytes of a chunk end, and stay inside it. */
  predicate GoesOnAt(expected: nat, pieces: seq<Bytes>, offset: nat, n: nat) {
    var i := offset / CHUNK;
    i < |pieces| && offset == i * CHUNK + |pieces[i]| && |pieces[i]| + n <= ChunkLength(expected, i)
  }

  /**
    upload_chunk_write is accepted exactly when its chunk has begun and is not finished, and its data goes on where
    the bytes accepted for that chunk end; so any cut of a chunk into pieces is, in order and only in order.
   */
  lemma ChunkWriteExactly(s: System, offset: nat, data: Bytes, now: nat)
    requires Inv(s) && s.m.occupied && Chunked(s) && data != []
    ensures
      var i, out := offset / CHUNK, ChunkWrite(s.m, s.m.id, offset, data, now);
      && (out.result == Ok <==>
            i < |s.m.staging.states| && s.m.staging.states[i] == 1 && GoesOnAt(s.m.expected, s.pieces, offset, |data|))
      && (out.result != Ok ==> out.m == s.m)
  {
    var i := offset / 0x80_0000;
    ExtentsTile(s.m.expected, i);
    assert offset == i * 0x80_0000 + offset % 0x80_0000;
    if i < s.m.staging.count {
      assert ChunkOk(s.m.staging, s.m.expected, s.pieces, i);
    }
  }

  /**
    upload_chunk_finish is accepted exactly for a chunk that is receiving and has its whole length, which is also the
    length the request names.
   */
  lemma ChunkFinishExactly(s: System, offset: nat, length: nat, now: nat)
    requires Inv(s) && s.m.occupied && Chunked(s) && length > 0
    ensures
      var i := offset / CHUNK;
      ChunkFinish(s.m, s.m.id, offset, length, now).result ==
      if offset >= s.m.expected || offset != i * CHUNK then SizeMismatch
      else if i >= |s.m.staging.states| || s.m.staging.states[i] != 1 then Busy
      else if i < |s.pieces| && length == |s.pieces[i]| == ChunkLength(s.m.expected, i) then Ok
      else SizeMismatch
  {
    var i := offset / 0x80_0000;
    assert offset == i * 0x80_0000 + offset % 0x80_0000;
    if i < s.m.staging.count {
      assert ChunkOk(s.m.staging, s.m.expected, s.pieces, i);
    }
  }

  // ---------------------------------------------------------------- completion

  /** Every chunk was finished; a stream has none only if its file is empty. */
  predicate AllFinished(s: System) { forall i :: 0 <= i < |s.m.staging.states| ==> s.m.staging.states[i] >= 2 }

  /** The completion of chunks by the owner is admitted exactly once every chunk was finished, to one call at a time. */
  lemma CompleteExactly(s: System)
    requires Inv(s) && s.m.occupied
    ensures
      CompleteStart(s.m, s.m.id, s.m.client, s.m.authorization).result ==
      if s.m.finalizing then Busy else if s.m.started && AllFinished(s) then Ok else SizeMismatch
  {
    ArraysFit(s);
    var g := s.m.staging;
    if Chunked(s) {
      forall i | 0 <= i < g.count ensures g.states[i] <= 3 {
        assert ChunkOk(g, s.m.expected, s.pieces, i);
      }
      MarksFull(g.states, 2, 3);
      if g.completed == g.count { AllCompleted(g, s.m.expected, s.m.received, s.pieces); }
    } else if g.count > 0 {
      assert g.states[0] == 0;
    }
  }
}
