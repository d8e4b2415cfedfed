/**
  Hashing a message block by block, apart from any one compression function: padding to whole blocks of 64 bytes
  (section 5.1.1 of FIPS 180-4), the chain of compressions, and the buffered context that src/sha256.c keeps.
  `f` is the compression function and `h0` the initial hash value.
 */
module BlockStream {
  import opened Bytes

  /** The compressions of the whole blocks of `data`, in order, from `h`. */
  function Chain<H>(f: (H, Bytes) -> H, h: H, data: Bytes): H
    requires |data| % 64 == 0
    decreases |data|
  {
    if data == [] then h else Chain(f, f(h, data[..64]), data[64..])
  }

  lemma {:induction false} ChainAppend<H>(f: (H, Bytes) -> H, h: H, x: Bytes, y: Bytes)
    requires |x| % 64 == 0 && |y| % 64 == 0
    ensures |x + y| % 64 == 0
    ensures Chain(f, h, x + y) == Chain(f, Chain(f, h, x), y)
    decreases |x|
  {
    if x == [] {
      assert x + y == y;
    } else {
      ChainAppend(f, f(h, x[..64]), x[64..], y);
      assert (x + y)[..64] == x[..64];
      assert (x + y)[64..] == x[64..] + y;
    }
  }

  // ---------------------------------------------------------------- padding

  function LowByte(n: nat): byte { (n % 256) as byte }

  /** `n` without its last `k` bytes: `n >> 8 * k`. */
  function ShiftBytes(n: nat, k: nat): nat {
    if k == 0 then n else ShiftBytes(n, k - 1) / 256
  }

  /** `n` as eight bytes, most significant first. */
  function LengthField(n: nat): (f: Bytes)
    ensures |f| == 8
  {
    seq(8, i requires 0 <= i < 8 => LowByte(ShiftBytes(n, 7 - i)))
  }

  /** The number of zero bytes of section 5.1.1 for a message of `n` bytes. */
  function ZeroCount(n: nat): (k: nat)
    ensures (n + 1 + k) % 64 == 56 && k < 64
  {
    (119 - n % 64) % 64
  }

  lemma WholeBlocksDropOut(x: nat, y: nat)
    requires x % 64 == 0
    ensures (x + y) % 64 == y % 64
  {
  }

  lemma PaddedLength(n: nat)
    ensures (n + 1 + ZeroCount(n) + 8) % 64 == 0
  {
  }

  /** `tail`, the end marker, zeros, and the 64-bit length field of the whole message. */
  function PadTail(tail: Bytes, field: Bytes): (p: Bytes)
    requires |field| == 8
    ensures |p| == |tail| + 1 + ZeroCount(|tail|) + 8
    ensures |p| % 64 == 0
  {
    PaddedLength(|tail|);
    tail + [0x80] + Zeros(ZeroCount(|tail|)) + field
  }

  /** Section 5.1.1. */
  function Pad(m: Bytes): (p: Bytes)
    ensures |p| % 64 == 0
  {
    PadTail(m, LengthField(8 * |m|))
  }

  // ---------------------------------------------------------------- streaming

  /** What matters of the C context: bytes of `block` beyond `block_size` are never read. */
  datatype Context<H> = Context(hash: H, bits: nat, pending: Bytes)

  predicate WellFormed<H>(c: Context<H>) {
    |c.pending| < 64 && c.bits < U64_LIMIT
  }

  /** The length of the whole blocks at the front of `m`. */
  function Whole(m: Bytes): (n: nat)
    ensures n <= |m| && n % 64 == 0 && |m| - n < 64
  {
    |m| - |m| % 64
  }

  /** The context that stands for a message absorbed so far. */
  function ContextOf<H>(f: (H, Bytes) -> H, h0: H, m: Bytes): (c: Context<H>)
    ensures WellFormed(c)
  {
    Context(Chain(f, h0, m[..Whole(m)]), 8 * |m| % U64_LIMIT, m[Whole(m)..])
  }

  /** sha256_update on values. */
  function Absorb<H>(f: (H, Bytes) -> H, c: Context<H>, data: Bytes): (c': Context<H>)
    requires WellFormed(c)
    ensures WellFormed(c')
  {
    var all := c.pending + data;
    Context(Chain(f, c.hash, all[..Whole(all)]), (c.bits + 8 * |data|) % U64_LIMIT, all[Whole(all)..])
  }

  /** The hash value sha256_final leaves: the pending bytes padded and compressed. */
  function Finish<H>(f: (H, Bytes) -> H, c: Context<H>): H {
    Chain(f, c.hash, PadTail(c.pending, LengthField(c.bits)))
  }

  lemma SplitWhole(m: Bytes, data: Bytes)
    ensures
      var all := m[Whole(m)..] + data;
      && (m + data)[..Whole(m + data)] == m[..Whole(m)] + all[..Whole(all)]
      && (m + data)[Whole(m + data)..] == all[Whole(all)..]
  {
    var done := m[..Whole(m)];
    var all := m[Whole(m)..] + data;
    assert m + data == done + all;
    WholeBlocksDropOut(|done|, |all|);
    assert Whole(m + data) == |done| + Whole(all);
  }

  lemma BitsAdd(bits: nat, n: nat, k: nat)
    ensures ((bits + 8 * n) % U64_LIMIT + 8 * k) % U64_LIMIT == (bits + 8 * (n + k)) % U64_LIMIT
  {
    var x := bits + 8 * n;
    var q := x / 0x1_0000_0000_0000_0000;
    var y := x % 0x1_0000_0000_0000_0000 + 8 * k;
    assert bits + 8 * (n + k) == q * 0x1_0000_0000_0000_0000 + y;
  }

  /** Two updates in a row are one update with the bytes of both. */
  lemma AbsorbTwice<H>(f: (H, Bytes) -> H, c: Context<H>, x: Bytes, y: Bytes)
    requires WellFormed(c)
    ensures Absorb(f, Absorb(f, c, x), y) == Absorb(f, c, x + y)
  {
    var all := c.pending + x;
    assert c.pending + (x + y) == all + y;
    SplitWhole(all, y);
    BitsAdd(c.bits, |x|, |y|);
    var more := all[Whole(all)..] + y;
    ChainAppend(f, c.hash, all[..Whole(all)], more[..Whole(more)]);
  }

  /** Hash and pending bytes do not depend on the bit counter. */
  lemma AbsorbOn<H>(f: (H, Bytes) -> H, cur: Context<H>, c: Context<H>, data: Bytes, i: nat, n: nat)
    requires WellFormed(cur) && WellFormed(c) && i + n <= |data|
    requires cur.hash == Absorb(f, c, data[..i]).hash && cur.pending == Absorb(f, c, data[..i]).pending
    ensures Absorb(f, cur, data[i..][..n]).hash == Absorb(f, c, data[..i + n]).hash
    ensures Absorb(f, cur, data[i..][..n]).pending == Absorb(f, c, data[..i + n]).pending
  {
    AbsorbTwice(f, c, data[..i], data[i..][..n]);
    assert data[..i] + data[i..][..n] == data[..i + n];
  }

  lemma ContextIsAbsorbed<H>(f: (H, Bytes) -> H, h0: H, m: Bytes)
    ensures ContextOf(f, h0, m) == Absorb(f, Context(h0, 0, []), m)
  {
    assert [] + m == m;
  }

  /** Absorbing another piece moves the context of `m` to the context of `m + data`. */
  lemma AbsorbExtends<H>(f: (H, Bytes) -> H, h0: H, m: Bytes, data: Bytes)
    ensures Absorb(f, ContextOf(f, h0, m), data) == ContextOf(f, h0, m + data)
  {
    ContextIsAbsorbed(f, h0, m);
    ContextIsAbsorbed(f, h0, m + data);
    AbsorbTwice(f, Context(h0, 0, []), m, data);
  }

  lemma ChainOne<H>(f: (H, Bytes) -> H, h: H, b: Bytes)
    requires |b| == 64
    ensures Chain(f, h, b) == f(h, b)
  {
    assert b[..64] == b && b[64..] == [];
  }

  lemma ChainTwo<H>(f: (H, Bytes) -> H, h: H, x: Bytes, y: Bytes)
    requires |x| == 64 && |y| == 64
    ensures Chain(f, h, x + y) == f(f(h, x), y)
  {
    ChainAppend(f, h, x, y);
    ChainOne(f, h, x);
    ChainOne(f, f(h, x), y);
  }

  /** A piece that does not overfill the pending block. */
  lemma AbsorbUpToBlock<H>(f: (H, Bytes) -> H, c: Context<H>, piece: Bytes)
    requires WellFormed(c) && |c.pending| + |piece| <= 64
    ensures
      var all := c.pending + piece;
      var c' := Absorb(f, c, piece);
      if |all| == 64 then c'.hash == f(c.hash, all) && c'.pending == []
      else c'.hash == c.hash && c'.pending == all
  {
    var all := c.pending + piece;
    if |all| == 64 {
      assert Whole(all) == 64 && all[..64] == all;
      ChainOne(f, c.hash, all);
    } else {
      assert Whole(all) == 0 && all[..0] == [] && all[0..] == all;
    }
  }

  /** The last one or two blocks that sha256_final compresses. */
  lemma FinishBlocks<H>(f: (H, Bytes) -> H, c: Context<H>, field: Bytes)
    requires |c.pending| < 64 && field == LengthField(c.bits)
    ensures
      var n := |c.pending|;
      if n < 56 then Finish(f, c) == f(c.hash, c.pending + [0x80] + Zeros(55 - n) + field)
      else Finish(f, c) == f(f(c.hash, c.pending + [0x80] + Zeros(63 - n)), Zeros(56) + field)
  {
    FinishBlocksOf(f, c.hash, c.pending, field);
  }

  lemma FinishBlocksOf<H>(f: (H, Bytes) -> H, h: H, tail: Bytes, field: Bytes)
    requires |tail| < 64 && |field| == 8
    ensures
      var n := |tail|;
      if n < 56 then Chain(f, h, PadTail(tail, field)) == f(h, tail + [0x80] + Zeros(55 - n) + field)
      else Chain(f, h, PadTail(tail, field)) == f(f(h, tail + [0x80] + Zeros(63 - n)), Zeros(56) + field)
  {
    var n := |tail|;
    if n < 56 {
      assert ZeroCount(n) == 55 - n;
      ChainOne(f, h, PadTail(tail, field));
    } else {
      assert ZeroCount(n) == 63 - n + 56;
      assert Zeros(ZeroCount(n)) == Zeros(63 - n) + Zeros(56);
      var x := tail + [0x80] + Zeros(63 - n);
      assert PadTail(tail, field) == x + (Zeros(56) + field);
      ChainTwo(f, h, x, Zeros(56) + field);
    }
  }

  lemma PadSplits(m: Bytes, field: Bytes)
    requires |field| == 8
    ensures PadTail(m, field) == m[..Whole(m)] + PadTail(m[Whole(m)..], field)
  {
    var done, tail := m[..Whole(m)], m[Whole(m)..];
    assert m == done + tail;
    WholeBlocksDropOut(|done|, |tail|);
    assert ZeroCount(|tail|) == ZeroCount(|m|);
  }

  /** Closing the context of `m` hashes the padded `m`, in one padding block or two. */
  lemma FinishHashesPadded<H>(f: (H, Bytes) -> H, h0: H, m: Bytes)
    requires 8 * |m| < U64_LIMIT
    ensures Finish(f, ContextOf(f, h0, m)) == Chain(f, h0, Pad(m))
  {
    var field := LengthField(8 * |m|);
    PadSplits(m, field);
    ChainAppend(f, h0, m[..Whole(m)], PadTail(m[Whole(m)..], field));
  }
}
