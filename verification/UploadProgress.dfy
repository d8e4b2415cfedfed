/** The staging window of the chunked transport: when it lets the upload go on, and when it cannot. */
module UploadProgress {
  import opened Bytes
  import opened Upload
  import opened UploadStaging

  // ---------------------------------------------------------------- a window that works

  /** Every chunk holding a buffer lies less than UPLOAD_CHUNK_BUFFER_SLOTS beyond the next chunk to write. */
  predicate InWindow(g: Staging)
    requires StagingShape(g)
  {
    forall i :: 0 <= i < g.count && g.buffers[i].Some? ==> i < g.next + SLOTS
  }

  /** At most k - next - 1 of the first k chunks hold a buffer when chunk `next` holds none. */
  lemma {:induction false} HeldBound(g: Staging, expected: nat, received: nat, pieces: seq<Bytes>, k: nat)
    requires StagingInv(g, expected, received, pieces) && g.next < g.count && g.states[g.next] == 0 && InWindow(g)
    requires k <= g.count
    ensures Marks(g.states[..k], 1, 2) <=
            if k <= g.next + 1 then 0 else if k <= g.next + SLOTS then k - g.next - 1 else SLOTS - 1
  {
    if k > 0 {
      HeldBound(g, expected, received, pieces, k - 1);
      assert g.states[..k][..k - 1] == g.states[..k - 1];
      assert ChunkOk(g, expected, pieces, k - 1);
    }
  }

  /** Inside the window, a well-formed request for the next chunk is never refused for want of a slot. */
  lemma NextChunkAdmitted(m: Manager, pieces: seq<Bytes>, buffer: Bytes, now: nat)
    requires Shaped(m) && StagingInv(m.staging, m.expected, m.received, pieces) && InWindow(m.staging)
    requires m.occupied && m.started && m.chunkTransport && !m.finalizing
    requires m.staging.next < m.staging.count && m.staging.states[m.staging.next] == 0
    requires |buffer| == ChunkLength(m.expected, m.staging.next)
    ensures m.staging.active < SLOTS
    ensures
      var i := m.staging.next;
      ChunkBegin(m, m.id, m.client, m.authorization, m.expected, i * CHUNK, |buffer|, Some(buffer), now).result == Ok
  {
    var i := m.staging.next;
    HeldBound(m.staging, m.expected, m.received, pieces, m.staging.count);
    assert m.staging.states[..m.staging.count] == m.staging.states;
    ExtentsTile(m.expected, i);
    assert i * 0x80_0000 / 0x80_0000 == i;
    AdmittedExtents(m.expected, m.expected, i * CHUNK, |buffer|);
  }

  // ---------------------------------------------------------------- exactly when a begin is refused

  /**
    A begin of a chunk that is free, with its own extent and binding, is refused for want of a slot exactly when all
    twelve are taken; with a slot left it succeeds if there is memory.
   */
  lemma BackpressureExactly(m: Manager, pieces: seq<Bytes>, i: nat, alloc: Option<Bytes>, now: nat)
    requires Shaped(m) && StagingInv(m.staging, m.expected, m.received, pieces)
    requires m.occupied && (m.started ==> m.chunkTransport) && !m.finalizing
    requires i < m.staging.count && m.staging.states[i] == 0
    requires alloc.Some? ==> |alloc.value| == ChunkLength(m.expected, i)
    ensures
      var length := ChunkLength(m.expected, i);
      var r := ChunkBegin(m, m.id, m.client, m.authorization, m.expected, i * CHUNK, length, alloc, now).result;
      && (r == Backpressure <==> Marks(m.staging.states, 1, 2) == SLOTS)
      && (Marks(m.staging.states, 1, 2) < SLOTS ==> r == if alloc.Some? then Ok else IoError)
  {
    ExtentsTile(m.expected, i);
    assert i * 0x80_0000 / 0x80_0000 == i;
    AdmittedExtents(m.expected, m.expected, i * CHUNK, ChunkLength(m.expected, i));
  }

  /** While a chunk has not begun, fewer slots are taken than the file has chunks. */
  lemma FreeChunkFreesSlot(states: seq<nat>, i: nat)
    requires i < |states| && states[i] == 0
    ensures Marks(states, 1, 2) < |states|
  {
    MarksUpdate(states, i, 1, 1, 2);
  }

  // ---------------------------------------------------------------- a chunk given back

  /** Chunk `i` is as if it had never begun: its slot and its bytes are no longer counted, and no other chunk moved. */
  predicate GivenBack(m: Manager, m': Manager, i: nat)
    requires Shaped(m) && i < m.staging.count
  {
    var g, g' := m.staging, m'.staging;
    && Shaped(m') && g'.count == g.count && g'.next == g.next && g'.completed == g.completed
    && g'.states == g.states[i := 0] && g'.buffers == g.buffers[i := None] && g'.progress == g.progress[i := 0]
    && g.active == g'.active + 1 && m.received == m'.received + g.progress[i]
    && m' == m.(staging := g', received := m'.received, lastActivity := m'.lastActivity)
  }

  lemma ReleaseGivesBack(m: Manager, pieces: seq<Bytes>, i: nat, alloc: Option<Bytes>, now: nat)
    requires Shaped(m) && StagingInv(m.staging, m.expected, m.received, pieces)
    requires m.occupied && m.started && m.chunkTransport && !m.finalizing
    requires i < m.staging.count && m.staging.states[i] == 1
    requires alloc.Some? ==> |alloc.value| == ChunkLength(m.expected, i)
    ensures GivenBack(m, Release(m, i), i)
    ensures Beginnable(Release(m, i), i, alloc, now)
  {
    ReleaseKeeps(m, pieces, i);
    var m' := Release(m, i);
    MarksUpdate(m.staging.states, i, 0, 1, 2);
    BackpressureExactly(m', pieces[i := []], i, alloc, now);
  }

  /** Its owner may begin chunk `i`: it takes nothing but memory. */
  predicate Beginnable(m: Manager, i: nat, alloc: Option<Bytes>, now: nat)
    requires Shaped(m) && (alloc.Some? ==> |alloc.value| == ChunkLength(m.expected, i))
  {
    var length := ChunkLength(m.expected, i);
    ChunkBegin(m, m.id, m.client, m.authorization, m.expected, i * CHUNK, length, alloc, now).result ==
    if alloc.Some? then Ok else IoError
  }

  /** When a begin was made does not change what it takes. */
  lemma BeginnableLater(m: Manager, i: nat, alloc: Option<Bytes>, now: nat, activity: nat)
    requires Shaped(m) && (alloc.Some? ==> |alloc.value| == ChunkLength(m.expected, i)) && Beginnable(m, i, alloc, now)
    ensures Beginnable(m.(lastActivity := activity), i, alloc, now)
  {
  }

  /**
    An abort of a chunk that is receiving gives it back, slot and bytes, and it can be begun again at once; of any
    other chunk it changes nothing.
   */
  lemma AbortGivesBack(m: Manager, pieces: seq<Bytes>, i: nat, alloc: Option<Bytes>, now: nat, later: nat)
    requires Shaped(m) && StagingInv(m.staging, m.expected, m.received, pieces)
    requires m.occupied && m.started && m.chunkTransport && !m.finalizing && i < m.staging.count
    requires alloc.Some? ==> |alloc.value| == ChunkLength(m.expected, i)
    ensures
      var m' := ChunkAbort(m, m.id, i * CHUNK, now);
      if m.staging.states[i] == 1 then GivenBack(m, m', i) && m'.lastActivity == now && Beginnable(m', i, alloc, later)
      else m' == m
  {
    ExtentsTile(m.expected, i);
    assert i * 0x80_0000 / 0x80_0000 == i && i * 0x80_0000 % 0x80_0000 == 0;
    if m.staging.states[i] == 1 {
      ReleaseGivesBack(m, pieces, i, alloc, later);
      BeginnableLater(Release(m, i), i, alloc, later, now);
    }
  }

  /** A finish of a receiving chunk that is not full gives it back in the same way. */
  lemma ShortFinishGivesBack(m: Manager, pieces: seq<Bytes>, i: nat, length: nat, alloc: Option<Bytes>, now: nat,
                             later: nat)
    requires Shaped(m) && StagingInv(m.staging, m.expected, m.received, pieces)
    requires m.occupied && m.started && m.chunkTransport && !m.finalizing
    requires i < m.staging.count && m.staging.states[i] == 1 && length > 0
    requires length != ChunkLength(m.expected, i) || m.staging.progress[i] != length
    requires alloc.Some? ==> |alloc.value| == ChunkLength(m.expected, i)
    ensures
      var out := ChunkFinish(m, m.id, i * CHUNK, length, now);
      out.result == SizeMismatch && GivenBack(m, out.m, i) && Beginnable(out.m, i, alloc, later)
  {
    ExtentsTile(m.expected, i);
    assert i * 0x80_0000 / 0x80_0000 == i && i * 0x80_0000 % 0x80_0000 == 0;
    assert ChunkOk(m.staging, m.expected, pieces, i);
    ReleaseGivesBack(m, pieces, i, alloc, later);
  }

  // ---------------------------------------------------------------- a window that is full

  /** Thirteen whole chunks, of which chunks 1 to k have been begun and the first has not. */
  function LaterBegun(k: nat): Staging
    requires k <= SLOTS
    ensures StagingShape(LaterBegun(k)) && LaterBegun(k).count == 13
  {
    if k == 0 then FreshStaging(13) else Begun(LaterBegun(k - 1), k, Zeros(CHUNK))
  }

  lemma {:induction false} LaterBegunInv(k: nat)
    requires k <= SLOTS
    ensures StagingInv(LaterBegun(k), 13 * CHUNK, 0, NoPieces(13))
    ensures LaterBegun(k).active == k && LaterBegun(k).next == 0
    ensures forall i :: 0 <= i < 13 ==> LaterBegun(k).states[i] == if 1 <= i <= k then 1 else 0
  {
    if k == 0 {
      FreshInv(13 * CHUNK);
    } else {
      LaterBegunInv(k - 1);
      BegunKeeps(LaterBegun(k - 1), 13 * CHUNK, 0, NoPieces(13), k, Zeros(CHUNK));
    }
  }

  /** The window premise is needed: twelve later chunks fill the staging area, and chunk 0 is refused. */
  lemma LaterChunksShutOutTheNext(m: Manager, buffer: Bytes, now: nat)
    requires Shaped(m) && m.staging == LaterBegun(SLOTS) && m.expected == 13 * CHUNK && |buffer| == CHUNK
    requires m.occupied && m.started && m.chunkTransport && !m.finalizing
    ensures StagingInv(m.staging, m.expected, 0, NoPieces(13))
    ensures m.staging.states[0] == 0 && !InWindow(m.staging)
    ensures ChunkBegin(m, m.id, m.client, m.authorization, m.expected, 0, CHUNK, Some(buffer), now) ==
            Out(Backpressure, m)
  {
    LaterBegunInv(SLOTS);
    assert ChunkOk(m.staging, m.expected, NoPieces(13), 12);
    AdmittedExtents(m.expected, m.expected, 0, CHUNK);
  }

  /**
    And it stays so: once the staging area is full of completed chunks that are not the next one, no chunk
    call is accepted and the writer has nothing to do, until the slot is cleared.
   */
  lemma FullWindowIsStuck(m: Manager, pieces: seq<Bytes>, id: Bytes, client: Bytes, authorization: Bytes, total: nat,
                          offset: nat, length: nat, alloc: Option<Bytes>, data: Bytes, now: nat)
    requires Shaped(m) && StagingInv(m.staging, m.expected, m.received, pieces) && RingJobless(m)
    requires m.staging.next < m.staging.count && m.staging.states[m.staging.next] == 0 && m.staging.active == SLOTS
    requires forall i :: 0 <= i < m.staging.count ==> m.staging.states[i] != 1
    requires (alloc.Some? ==> |alloc.value| == length) && data != []
    ensures ChunkBegin(m, id, client, authorization, total, offset, length, alloc, now).result != Ok
    ensures ChunkWrite(m, id, offset, data, now).result != Ok
    ensures ChunkFinish(m, id, offset, length, now).result != Ok
    ensures !WriterRuns(m)
  {
  }

  predicate RingJobless(m: Manager) { m.ring.queued == 0 }
}
