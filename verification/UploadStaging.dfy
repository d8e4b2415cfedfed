/** The chunk arrays: the accounting the source keeps by hand, and what each chunk buffer holds. */
module UploadStaging {
  import opened Bytes
  import opened Upload

  function Sum(s: seq<nat>): nat {
    if s == [] then 0 else Sum(s[..|s| - 1]) + s[|s| - 1]
  }

  /** How many of `states` lie between `lo` and `hi`. */
  function Marks(states: seq<nat>, lo: nat, hi: nat): (n: nat)
    ensures n <= |states|
  {
    if states == [] then 0
    else Marks(states[..|states| - 1], lo, hi) + (if lo <= states[|states| - 1] <= hi then 1 else 0)
  }

  function Mark(state: nat, lo: nat, hi: nat): nat { if lo <= state <= hi then 1 else 0 }

  lemma {:induction false} SumUpdate(s: seq<nat>, i: nat, v: nat)
    requires i < |s|
    ensures Sum(s[i := v]) + s[i] == Sum(s) + v
  {
    var n := |s| - 1;
    if i == n {
      assert s[i := v][..n] == s[..n];
    } else {
      SumUpdate(s[..n], i, v);
      assert s[i := v][..n] == s[..n][i := v];
    }
  }

  lemma {:induction false} MarksUpdate(s: seq<nat>, i: nat, v: nat, lo: nat, hi: nat)
    requires i < |s|
    ensures Marks(s[i := v], lo, hi) + Mark(s[i], lo, hi) == Marks(s, lo, hi) + Mark(v, lo, hi)
  {
    var n := |s| - 1;
    if i == n {
      assert s[i := v][..n] == s[..n];
    } else {
      MarksUpdate(s[..n], i, v, lo, hi);
      assert s[i := v][..n] == s[..n][i := v];
    }
  }

  lemma {:induction false} MarksNone(s: seq<nat>, lo: nat, hi: nat)
    requires forall i :: 0 <= i < |s| ==> !(lo <= s[i] <= hi)
    ensures Marks(s, lo, hi) == 0
  {
    if s != [] {
      MarksNone(s[..|s| - 1], lo, hi);
    }
  }

  lemma {:induction false} SumZero(s: seq<nat>)
    requires forall i :: 0 <= i < |s| ==> s[i] == 0
    ensures Sum(s) == 0
  {
    if s != [] {
      SumZero(s[..|s| - 1]);
    }
  }

  /** Every element is marked exactly when the count reaches the length. */
  lemma {:induction false} MarksFull(s: seq<nat>, lo: nat, hi: nat)
    ensures Marks(s, lo, hi) == |s| <==> forall i :: 0 <= i < |s| ==> lo <= s[i] <= hi
  {
    if s != [] {
      var n := |s| - 1;
      MarksFull(s[..n], lo, hi);
      assert forall i :: 0 <= i < n ==> s[..n][i] == s[i];
      if forall i :: 0 <= i < n ==> lo <= s[i] <= hi {
      } else {
        assert Marks(s[..n], lo, hi) < n;
      }
    }
  }

  // ---------------------------------------------------------------- the invariant

  /** What state, progress and buffer of chunk `i` say about its accepted bytes. */
  predicate ChunkOk(g: Staging, expected: nat, pieces: seq<Bytes>, i: nat)
    requires StagingShape(g) && |pieces| == g.count && i < g.count
  {
    var state, progress, buffer, piece := g.states[i], g.progress[i], g.buffers[i], pieces[i];
    var length := ChunkLength(expected, i);
    && state <= 3
    && |piece| == progress <= length
    && (state == 0 ==> buffer.None? && progress == 0)
    && (state == 1 ==> buffer.Some? && |buffer.value| == length && buffer.value[..progress] == piece)
    && (state == 2 ==> buffer.Some? && buffer.value == piece && progress == length)
    && (state == 3 ==> buffer.None? && progress == length)
    && (state == 3 <==> i < g.next)
  }

  predicate StagingInv(g: Staging, expected: nat, received: nat, pieces: seq<Bytes>) {
    && StagingShape(g)
    && g.count == |pieces| == ChunkCount(expected)
    && g.next <= g.count
    && (forall i :: 0 <= i < g.count ==> ChunkOk(g, expected, pieces, i))
    && received == Sum(g.progress)
    && g.active == Marks(g.states, 1, 2) <= SLOTS
    && g.completed == Marks(g.states, 2, 3)
  }

  function NoPieces(n: nat): (p: seq<Bytes>)
    ensures |p| == n
  {
    seq(n, _ => [])
  }

  lemma FreshInv(expected: nat)
    ensures StagingInv(FreshStaging(ChunkCount(expected)), expected, 0, NoPieces(ChunkCount(expected)))
  {
    var g := FreshStaging(ChunkCount(expected));
    SumZero(g.progress);
    MarksNone(g.states, 1, 2);
    MarksNone(g.states, 2, 3);
  }

  // ---------------------------------------------------------------- what each operation keeps

  function Begun(g: Staging, i: nat, buffer: Bytes): Staging
    requires StagingShape(g) && i < g.count
  {
    g.(buffers := g.buffers[i := Some(buffer)], active := g.active + 1, states := g.states[i := 1],
       progress := g.progress[i := 0])
  }

  lemma BegunKeeps(g: Staging, expected: nat, received: nat, pieces: seq<Bytes>, i: nat, buffer: Bytes)
    requires StagingInv(g, expected, received, pieces) && i < g.count
    requires g.states[i] == 0 && g.active < SLOTS && |buffer| == ChunkLength(expected, i)
    ensures StagingInv(Begun(g, i, buffer), expected, received, pieces)
  {
    assert ChunkOk(g, expected, pieces, i);
    SumUpdate(g.progress, i, 0);
    MarksUpdate(g.states, i, 1, 1, 2);
    MarksUpdate(g.states, i, 1, 2, 3);
    forall j | 0 <= j < g.count ensures ChunkOk(Begun(g, i, buffer), expected, pieces, j) {
      assert ChunkOk(g, expected, pieces, j);
    }
  }

  function Received(g: Staging, i: nat, data: Bytes): Staging
    requires StagingShape(g) && i < g.count && g.buffers[i].Some?
    requires g.progress[i] + |data| <= |g.buffers[i].value|
  {
    g.(buffers := g.buffers[i := Some(Fill(g.buffers[i].value, g.progress[i], data))],
       progress := g.progress[i := g.progress[i] + |data|])
  }

  lemma WriteKeeps(g: Staging, expected: nat, received: nat, pieces: seq<Bytes>, i: nat, data: Bytes)
    requires StagingInv(g, expected, received, pieces) && i < g.count && g.states[i] == 1
    requires g.progress[i] + |data| <= ChunkLength(expected, i)
    ensures g.buffers[i].Some? && |g.buffers[i].value| == ChunkLength(expected, i)
    ensures StagingInv(Received(g, i, data), expected, received + |data|, pieces[i := pieces[i] + data])
  {
    assert ChunkOk(g, expected, pieces, i);
    var g', pieces' := Received(g, i, data), pieces[i := pieces[i] + data];
    SumUpdate(g.progress, i, g.progress[i] + |data|);
    var p := g.progress[i];
    assert g'.buffers[i].value[..p + |data|] == g.buffers[i].value[..p] + data;
    forall j | 0 <= j < g.count ensures ChunkOk(g', expected, pieces', j) {
      assert ChunkOk(g, expected, pieces, j);
    }
  }

  function Finished(g: Staging, i: nat): Staging
    requires StagingShape(g) && i < g.count
  {
    g.(states := g.states[i := 2], completed := g.completed + 1)
  }

  lemma FinishKeeps(g: Staging, expected: nat, received: nat, pieces: seq<Bytes>, i: nat)
    requires StagingInv(g, expected, received, pieces) && i < g.count
    requires g.states[i] == 1 && g.progress[i] == ChunkLength(expected, i)
    ensures StagingInv(Finished(g, i), expected, received, pieces)
  {
    assert ChunkOk(g, expected, pieces, i);
    var b := g.buffers[i].value;
    assert b[..|b|] == b;
    MarksUpdate(g.states, i, 2, 1, 2);
    MarksUpdate(g.states, i, 2, 2, 3);
    forall j | 0 <= j < g.count ensures ChunkOk(Finished(g, i), expected, pieces, j) {
      assert ChunkOk(g, expected, pieces, j);
    }
  }

  /** A released chunk: the guards of the source against underflow never fire. */
  lemma ReleaseKeeps(m: Manager, pieces: seq<Bytes>, i: nat)
    requires Shaped(m) && StagingInv(m.staging, m.expected, m.received, pieces)
    requires i < m.staging.count && m.staging.states[i] == 1
    ensures m.received >= m.staging.progress[i] && m.staging.active > 0
    ensures StagingInv(Release(m, i).staging, m.expected, Release(m, i).received, pieces[i := []])
  {
    var g := m.staging;
    assert ChunkOk(g, m.expected, pieces, i);
    SumUpdate(g.progress, i, 0);
    MarksUpdate(g.states, i, 0, 1, 2);
    MarksUpdate(g.states, i, 0, 2, 3);
    var g', pieces' := Release(m, i).staging, pieces[i := []];
    forall j | 0 <= j < g.count ensures ChunkOk(g', m.expected, pieces', j) {
      assert ChunkOk(g, m.expected, pieces, j);
    }
  }

  function Written(g: Staging): Staging
    requires StagingShape(g) && g.next < g.count
  {
    g.(buffers := g.buffers[g.next := None], states := g.states[g.next := 3], next := g.next + 1,
       active := if g.active > 0 then g.active - 1 else 0)
  }

  lemma WrittenKeeps(g: Staging, expected: nat, received: nat, pieces: seq<Bytes>)
    requires StagingInv(g, expected, received, pieces) && g.next < g.count && g.states[g.next] == 2
    ensures g.active > 0
    ensures StagingInv(Written(g), expected, received, pieces)
  {
    var i := g.next;
    assert ChunkOk(g, expected, pieces, i);
    MarksUpdate(g.states, i, 3, 1, 2);
    MarksUpdate(g.states, i, 3, 2, 3);
    forall j | 0 <= j < g.count ensures ChunkOk(Written(g), expected, pieces, j) {
      assert ChunkOk(g, expected, pieces, j);
    }
  }

  // ---------------------------------------------------------------- extents

  /** The extents tile the file: each is inside it, they meet end to end, and every byte lies in one. */
  lemma ExtentsTile(expected: nat, index: nat)
    ensures index < ChunkCount(expected) <==> index * CHUNK < expected
    ensures index < ChunkCount(expected) ==> ChunkLength(expected, index) > 0
    ensures index + 1 < ChunkCount(expected) ==> ChunkLength(expected, index) == CHUNK
    ensures index + 1 == ChunkCount(expected) ==> index * CHUNK + ChunkLength(expected, index) == expected
  {
    if expected > 0 {
      var q := (expected - 1) / 0x80_0000;
      assert q * 0x80_0000 <= expected - 1 < (q + 1) * 0x80_0000;
      if index <= q {
        assert index * 0x80_0000 <= q * 0x80_0000;
      } else {
        assert index * 0x80_0000 >= (q + 1) * 0x80_0000;
      }
      if index < q {
        assert (index + 1) * 0x80_0000 <= q * 0x80_0000;
      }
    }
  }

  /** The requests upload_chunk_begin admits are exactly the ChunkCount extents, each named by its own offset. */
  lemma AdmittedExtents(expected: nat, total: nat, offset: nat, length: nat)
    requires length > 0
    ensures
      var index := offset / CHUNK;
      (ExtentFits(expected, total, offset, length) && index < ChunkCount(expected) &&
       ChunkLength(expected, index) == length)
      <==>
      (total == expected && index < ChunkCount(expected) && offset == index * CHUNK &&
       length == ChunkLength(expected, index))
  {
    var index := offset / 0x80_0000;
    ExtentsTile(expected, index);
    assert offset == index * 0x80_0000 + offset % 0x80_0000;
    if offset == index * CHUNK && index < ChunkCount(expected) && length == ChunkLength(expected, index) {
      assert offset % 0x80_0000 == 0;
      assert length == CHUNK || offset + length == expected;
    }
  }

  /** Every byte of the file lies in exactly one extent. */
  lemma EveryByteInOneExtent(expected: nat, x: nat, index: nat)
    requires x < expected && index < ChunkCount(expected)
    ensures x / CHUNK < ChunkCount(expected)
    ensures index * CHUNK <= x < index * CHUNK + ChunkLength(expected, index) <==> index == x / CHUNK
  {
    var q := x / 0x80_0000;
    assert q * 0x80_0000 <= x < (q + 1) * 0x80_0000;
    ExtentsTile(expected, q);
    ExtentsTile(expected, index);
    if index < q {
      assert (index + 1) * 0x80_0000 <= q * 0x80_0000;
    } else if index > q {
      assert index * 0x80_0000 >= (q + 1) * 0x80_0000;
    }
  }

  // ---------------------------------------------------------------- completion

  /** The first `k` chunks, all complete, are `k` whole extents of the file. */
  lemma {:induction false} PrefixLength(expected: nat, pieces: seq<Bytes>, k: nat)
    requires |pieces| == ChunkCount(expected) && k <= |pieces|
    requires forall i :: 0 <= i < k ==> |pieces[i]| == ChunkLength(expected, i)
    ensures |Concat(pieces[..k])| == if k < |pieces| then k * CHUNK else expected
  {
    if k == 0 {
    } else {
      PrefixLength(expected, pieces, k - 1);
      ExtentsTile(expected, k - 1);
      assert pieces[..k][..k - 1] == pieces[..k - 1];
    }
  }

  lemma {:induction false} SumOfLengths(progress: seq<nat>, pieces: seq<Bytes>)
    requires |progress| == |pieces|
    requires forall i :: 0 <= i < |pieces| ==> |pieces[i]| == progress[i]
    ensures Sum(progress) == |Concat(pieces)|
  {
    if pieces != [] {
      SumOfLengths(progress[..|progress| - 1], pieces[..|pieces| - 1]);
    }
  }

  /** All chunks completed means every byte was received. */
  lemma AllCompleted(g: Staging, expected: nat, received: nat, pieces: seq<Bytes>)
    requires StagingInv(g, expected, received, pieces) && g.completed == g.count
    ensures received == expected == |Concat(pieces)|
    ensures forall i :: 0 <= i < g.count ==> g.states[i] == 2 || g.states[i] == 3
  {
    MarksFull(g.states, 2, 3);
    forall i | 0 <= i < g.count ensures |pieces[i]| == ChunkLength(expected, i) == g.progress[i] {
      assert ChunkOk(g, expected, pieces, i);
    }
    assert pieces[..g.count] == pieces;
    PrefixLength(expected, pieces, g.count);
    forall i | 0 <= i < g.count ensures |pieces[i]| == g.progress[i] {
      assert ChunkOk(g, expected, pieces, i);
    }
    SumOfLengths(g.progress, pieces);
  }

  /** All chunks written means all completed. */
  lemma AllWritten(g: Staging, expected: nat, received: nat, pieces: seq<Bytes>)
    requires StagingInv(g, expected, received, pieces) && g.next == g.count
    ensures g.completed == g.count && g.active == 0
    ensures forall i :: 0 <= i < g.count ==> g.states[i] == 3
  {
    forall i | 0 <= i < g.count ensures g.states[i] == 3 {
      assert ChunkOk(g, expected, pieces, i);
    }
    MarksFull(g.states, 2, 3);
    MarksNone(g.states, 1, 2);
  }
}
