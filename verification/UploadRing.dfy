/** The bounded write queue as a byte string: what it holds, and what each operation does to that. */
module UploadRing {
  import opened Bytes
  import opened Upload

  predicate SlotsFit(sizes: seq<nat>, slots: seq<Bytes>) {
    && |sizes| == DEPTH && |slots| == DEPTH
    && forall i :: 0 <= i < DEPTH ==> sizes[i] <= |slots[i]|
  }

  /** The `n` queued buffers from slot `h` on. */
  function QueueBytes(sizes: seq<nat>, slots: seq<Bytes>, h: nat, n: nat): Bytes
    requires SlotsFit(sizes, slots) && h < DEPTH
    decreases n
  {
    if n == 0 then [] else slots[h][..sizes[h]] + QueueBytes(sizes, slots, Wrap(h, 1), n - 1)
  }

  /** Every byte the ring still holds, in the order it was accepted: queued buffers, then the partial tail. */
  function Contents(r: Ring): Bytes
    requires RingShape(r)
  {
    QueueBytes(r.sizes, r.slots, r.head, r.queued) + r.slots[r.tail][..r.buffered]
  }

  lemma WrapNext(h: nat, k: nat)
    ensures Wrap(Wrap(h, 1), k) == Wrap(h, k + 1)
  {
  }

  /** Changing slot `at` is not seen by a queue that does not reach it. */
  lemma {:induction false} QueueFrame(sizes: seq<nat>, slots: seq<Bytes>, h: nat, n: nat, at: nat, size: nat,
                                      slot: Bytes)
    requires SlotsFit(sizes, slots) && h < DEPTH && at < DEPTH && size <= |slot|
    requires forall k :: 0 <= k < n ==> Wrap(h, k) != at
    ensures QueueBytes(sizes, slots, h, n) == QueueBytes(sizes[at := size], slots[at := slot], h, n)
    decreases n
  {
    if n > 0 {
      assert Wrap(h, 0) == h;
      forall k | 0 <= k < n - 1
        ensures Wrap(Wrap(h, 1), k) != at
      {
        WrapNext(h, k);
      }
      QueueFrame(sizes, slots, Wrap(h, 1), n - 1, at, size, slot);
    }
  }

  lemma {:induction false} QueueSnoc(sizes: seq<nat>, slots: seq<Bytes>, h: nat, n: nat)
    requires SlotsFit(sizes, slots) && h < DEPTH
    ensures QueueBytes(sizes, slots, h, n + 1) ==
            QueueBytes(sizes, slots, h, n) + slots[Wrap(h, n)][..sizes[Wrap(h, n)]]
    decreases n
  {
    if n > 0 {
      WrapNext(h, n - 1);
      QueueSnoc(sizes, slots, Wrap(h, 1), n - 1);
    } else {
      assert Wrap(h, 0) == h;
    }
  }

  lemma WrapDistinct(h: nat, k: nat, n: nat)
    requires h < DEPTH && k < n < DEPTH
    ensures Wrap(h, k) != Wrap(h, n)
  {
    assert Wrap(h, k) == if h + k < 4 then h + k else h + k - 4;
    assert Wrap(h, n) == if h + n < 4 then h + n else h + n - 4;
  }

  /** A queue with room does not reach its tail, nor does the rest of a queue reach the head it leaves. */
  lemma TailIsFree(h: nat, n: nat)
    requires h < DEPTH && n < DEPTH
    ensures forall k :: 0 <= k < n ==> Wrap(h, k) != Wrap(h, n)
    ensures forall k :: 0 <= k < n ==> Wrap(Wrap(h, 1), k) != h
  {
    forall k | 0 <= k < n ensures Wrap(h, k) != Wrap(h, n) {
      WrapDistinct(h, k, n);
    }
    forall k | 0 <= k < n ensures Wrap(Wrap(h, 1), k) != h {
      WrapNext(h, k);
      WrapDistinct(h, 0, k + 1);
    }
  }

  /** Filling the tail buffer appends, and touches no queued buffer while the queue has room. */
  lemma FillAppends(r: Ring, data: Bytes)
    requires RingShape(r) && r.queued < DEPTH && r.buffered + |data| <= CAP
    ensures Contents(FillTail(r, data)) == Contents(r) + data
    ensures r.queued > 0 ==> r.tail != r.head
  {
    var r' := FillTail(r, data);
    TailIsFree(r.head, r.queued);
    assert r.sizes[r.tail := r.sizes[r.tail]] == r.sizes;
    QueueFrame(r.sizes, r.slots, r.head, r.queued, r.tail, r.sizes[r.tail], r'.slots[r.tail]);
    assert r'.slots[r.tail][..r'.buffered] == r.slots[r.tail][..r.buffered] + data;
    assert Wrap(r.head, 0) == r.head;
  }

  /** Handing the tail buffer to the writer moves no byte. */
  lemma EnqueueKeeps(r: Ring)
    requires RingShape(r) && r.queued < DEPTH && r.buffered > 0
    ensures RingShape(Enqueue(r, 0, false).ring)
    ensures Contents(Enqueue(r, 0, false).ring) == Contents(r)
  {
    var r' := Enqueue(r, 0, false).ring;
    assert r'.sizes == r.sizes[r.tail := r.buffered] && r'.queued == r.queued + 1 && r'.head == r.head;
    assert RingShape(r') by {
      WrapNextTail(r.head, r.queued);
    }
    TailIsFree(r.head, r.queued);
    assert r.slots[r.tail := r.slots[r.tail]] == r.slots;
    QueueFrame(r.sizes, r.slots, r.head, r.queued, r.tail, r.buffered, r.slots[r.tail]);
    QueueSnoc(r'.sizes, r.slots, r.head, r.queued);
    assert r'.slots[r'.tail][..0] == [];
  }

  function Popped(r: Ring): Ring
    requires RingShape(r)
  {
    r.(sizes := r.sizes[r.head := 0], head := Wrap(r.head, 1), queued := if r.queued > 0 then r.queued - 1 else 0)
  }

  /** The writer takes the front buffer off. */
  lemma PopDropsFront(r: Ring)
    requires RingShape(r) && r.queued > 0
    ensures RingShape(Popped(r))
    ensures Contents(r) == r.slots[r.head][..r.sizes[r.head]] + Contents(Popped(r))
  {
    var r' := Popped(r);
    TailIsFree(r.head, r'.queued);
    WrapNext(r.head, r'.queued);
    assert r.slots[r.head := r.slots[r.head]] == r.slots;
    QueueFrame(r.sizes, r.slots, r'.head, r'.queued, r.head, 0, r.slots[r.head]);
  }
}
