/** The memory of the write queue, in place: one allocation cut into four buffers, and the array of their sizes. */
module WriteQueues {
  import opened Bytes
  import opened U = Upload
  import opened UploadRing

  class WriteQueue {
    const sizes: array<nat>
    const memory: array<byte>
    var head: nat
    var tail: nat
    var queued: nat
    var buffered: nat

    ghost predicate Laid() {
      sizes.Length == DEPTH && memory.Length == DEPTH * CAP && sizes as object != memory
    }

    /** The memory at write_queue_buffer(manager, i), for each i. */
    ghost function Slots(): (s: seq<Bytes>)
      requires memory.Length == DEPTH * CAP
      reads memory
      ensures |s| == DEPTH && forall i :: 0 <= i < DEPTH ==> s[i] == memory[i * CAP..(i + 1) * CAP]
    {
      seq(DEPTH, i requires 0 <= i < DEPTH && memory.Length == DEPTH * CAP reads memory =>
        memory[i * CAP..(i + 1) * CAP])
    }

    ghost function View(): Ring
      requires Laid()
      reads this, sizes, memory
    {
      Ring(head, tail, queued, sizes[..], Slots(), buffered)
    }

    ghost predicate Valid()
      reads this, sizes, memory
    {
      Laid() && RingShape(View())
    }

    constructor ()
      ensures Valid() && fresh(sizes) && fresh(memory)
      ensures View().queued == 0 && Contents(View()) == []
    {
      sizes := new nat[4](_ => 0);
      memory := new byte[4 * 0x40_0000];
      head, tail, queued, buffered := 0, 0, 0, 0;
      new;
      assert View().slots[0][..0] == [];
    }

    /** memcpy or memset into the buffer of one slot. */
    method FillSlot(slot: nat, at: nat, data: Bytes)
      requires Laid() && slot < DEPTH && at + |data| <= CAP
      modifies memory
      ensures Slots() == old(Slots())[slot := Fill(old(Slots())[slot], at, data)]
    {
      var base := slot * CAP + at;
      forall k | 0 <= k < |data| { memory[base + k] := data[k]; }
      ghost var was := old(Slots());
      assert Slots()[slot] == Fill(was[slot], at, data);
      forall i | 0 <= i < DEPTH && i != slot ensures Slots()[i] == was[i] {
        assert forall k :: i * CAP <= k < (i + 1) * CAP ==> memory[k] == old(memory[k]);
      }
    }

    /** The memcpy of upload_write into the tail buffer: the queue holds the new bytes after all earlier ones. */
    method Append(data: Bytes)
      requires Valid() && queued < DEPTH && buffered + |data| <= CAP
      modifies `buffered, memory
      ensures Valid() && View() == FillTail(old(View()), data)
      ensures Contents(View()) == Contents(old(View())) + data
    {
      FillAppends(View(), data);
      FillSlot(tail, buffered, data);
      buffered := buffered + |data|;
    }

    /** enqueue_write_buffer_locked: the tail buffer goes to the writer, and no byte moves. */
    method Enqueue(error: nat, discard: bool) returns (errno: nat)
      requires Valid() && queued < DEPTH
      modifies `tail, `queued, `buffered, sizes
      ensures Valid() && Enqueued(errno, View()) == U.Enqueue(old(View()), error, discard)
      ensures Contents(View()) == Contents(old(View()))
    {
      if buffered == 0 { return 0; }
      if error != 0 { return error; }
      if discard { return ECANCELED; }
      EnqueueKeeps(View());
      sizes[tail] := buffered;
      tail := (tail + 1) % 4;
      queued := queued + 1;
      buffered := 0;
      assert View().sizes == old(View()).sizes[old(tail) := old(buffered)];
      return 0;
    }

    /** The queue part of the writer's return under the mutex: its buffer leaves the front. */
    method Pop() returns (ghost front: Bytes)
      requires Valid() && queued > 0
      modifies `head, `queued, sizes
      ensures Valid() && View() == Popped(old(View()))
      ensures front == old(View()).slots[old(head)][..old(sizes[head])]
      ensures Contents(old(View())) == front + Contents(View())
    {
      PopDropsFront(View());
      front := View().slots[head][..sizes[head]];
      sizes[head] := 0;
      head := (head + 1) % 4;
      queued := queued - 1;
      assert View().sizes == old(View()).sizes[old(head) := 0];
    }

    /** The queue part of clear_slot: the partial tail is wiped. */
    method Clear()
      requires Valid()
      modifies this, sizes, memory
      ensures Valid() && View() == ClearRing(old(View()))
    {
      if buffered > 0 {
        FillSlot(tail, 0, Zeros(buffered));
      }
      forall i | 0 <= i < 4 { sizes[i] := 0; }
      head, tail, queued, buffered := 0, 0, 0, 0;
      assert sizes[..] == [0, 0, 0, 0];
    }
  }
}
