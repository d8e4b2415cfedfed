/**
  SHA-256 as FIPS 180-4 defines it, and the C code of src/sha256.c.

  `Digest` is the standard's definition on a whole message. Class `Sha256Context` is the C struct, updated in
  place; its methods are proved against the value-level stream of module BlockStream.
 */
module Sha256 {
  import opened Bytes
  import BlockStream

  type Word = bv32

  /** The eight working variables, or the eight words of a hash value. */
  datatype Regs = Regs(a: Word, b: Word, c: Word, d: Word, e: Word, f: Word, g: Word, h: Word)

  // ---------------------------------------------------------------- FIPS 180-4

  // Section 4.2.2, sixteen to a constant.
  const K0: seq<Word> := [
    0x428a2f98, 0x71374491, 0xb5c0fbcf, 0xe9b5dba5, 0x3956c25b, 0x59f111f1, 0x923f82a4, 0xab1c5ed5,
    0xd807aa98, 0x12835b01, 0x243185be, 0x550c7dc3, 0x72be5d74, 0x80deb1fe, 0x9bdc06a7, 0xc19bf174]

  const K16: seq<Word> := [
    0xe49b69c1, 0xefbe4786, 0x0fc19dc6, 0x240ca1cc, 0x2de92c6f, 0x4a7484aa, 0x5cb0a9dc, 0x76f988da,
    0x983e5152, 0xa831c66d, 0xb00327c8, 0xbf597fc7, 0xc6e00bf3, 0xd5a79147, 0x06ca6351, 0x14292967]

  const K32: seq<Word> := [
    0x27b70a85, 0x2e1b2138, 0x4d2c6dfc, 0x53380d13, 0x650a7354, 0x766a0abb, 0x81c2c92e, 0x92722c85,
    0xa2bfe8a1, 0xa81a664b, 0xc24b8b70, 0xc76c51a3, 0xd192e819, 0xd6990624, 0xf40e3585, 0x106aa070]

  const K48: seq<Word> := [
    0x19a4c116, 0x1e376c08, 0x2748774c, 0x34b0bcb5, 0x391c0cb3, 0x4ed8aa4a, 0x5b9cca4f, 0x682e6ff3,
    0x748f82ee, 0x78a5636f, 0x84c87814, 0x8cc70208, 0x90befffa, 0xa4506ceb, 0xbef9a3f7, 0xc67178f2]

  const K: seq<Word> := K0 + K16 + K32 + K48

  /** Section 5.3.3. */
  const H0: Regs := Regs(0x6a09e667, 0xbb67ae85, 0x3c6ef372, 0xa54ff53a,
                         0x510e527f, 0x9b05688c, 0x1f83d9ab, 0x5be0cd19)

  /** Addition modulo 2^32. */
  function Plus(x: Word, y: Word): Word { x + y }

  // Section 4.1.2. Each ROTR(n, x) is written as section 3.2 defines it, and as rotate_right computes it:
  // (x >> n) | (x << 32 - n).
  function Ch(x: Word, y: Word, z: Word): Word { (x & y) ^ (!x & z) }
  function Maj(x: Word, y: Word, z: Word): Word { (x & y) ^ (x & z) ^ (y & z) }
  function BigSigma0(x: Word): Word { ((x >> 2) | (x << 30)) ^ ((x >> 13) | (x << 19)) ^ ((x >> 22) | (x << 10)) }
  function BigSigma1(x: Word): Word { ((x >> 6) | (x << 26)) ^ ((x >> 11) | (x << 21)) ^ ((x >> 25) | (x << 7)) }
  function SmallSigma0(x: Word): Word { ((x >> 7) | (x << 25)) ^ ((x >> 18) | (x << 14)) ^ (x >> 3) }
  function SmallSigma1(x: Word): Word { ((x >> 17) | (x << 15)) ^ ((x >> 19) | (x << 13)) ^ (x >> 10) }

  /** Four bytes as a big-endian word (section 3.1). */
  function BigEndian(b0: byte, b1: byte, b2: byte, b3: byte): Word {
    ((b0 as Word) << 24) | ((b1 as Word) << 16) | ((b2 as Word) << 8) | (b3 as Word)
  }

  /** Section 6.2.2, step 1: word t of the schedule, of the words `w` before it. */
  function NextWord(block: Bytes, w: seq<Word>): Word
    requires |block| == 64
  {
    var t := |w|;
    if t < 16 then BigEndian(block[4 * t], block[4 * t + 1], block[4 * t + 2], block[4 * t + 3])
    else Derived(w[t - 16], w[t - 15], w[t - 7], w[t - 2])
  }

  /** The terms are added in the order of the code; the standard lists them the other way round. */
  function Derived(w16: Word, w15: Word, w7: Word, w2: Word): Word {
    Plus(Plus(Plus(w16, SmallSigma0(w15)), w7), SmallSigma1(w2))
  }

  /** The first `n` words of the message schedule. */
  function Schedule(block: Bytes, n: nat): (w: seq<Word>)
    requires |block| == 64
    ensures |w| == n
  {
    if n == 0 then []
    else
      var w := Schedule(block, n - 1);
      w + [NextWord(block, w)]
  }

  /** Section 6.2.2, step 3: one round. */
  function Round(r: Regs, k: Word, w: Word): Regs {
    var t1 := Plus(Plus(Plus(Plus(r.h, BigSigma1(r.e)), Ch(r.e, r.f, r.g)), k), w);
    var t2 := Plus(BigSigma0(r.a), Maj(r.a, r.b, r.c));
    Regs(Plus(t1, t2), r.a, r.b, r.c, Plus(r.d, t1), r.e, r.f, r.g)
  }

  /** The working variables after `t` rounds. */
  function Rounds(r: Regs, w: seq<Word>, t: nat): Regs
    requires t <= |w| == |K|
    decreases t, 1
  {
    if t == 0 then r else NextRound(r, w, t - 1)
  }

  function NextRound(r: Regs, w: seq<Word>, t: nat): Regs
    requires t < |w| == |K|
    decreases t + 1, 0
  {
    Round(Rounds(r, w, t), K[t], w[t])
  }

  /** Section 6.2.2, step 4. */
  function AddRegs(h: Regs, r: Regs): Regs {
    Regs(Plus(h.a, r.a), Plus(h.b, r.b), Plus(h.c, r.c), Plus(h.d, r.d),
         Plus(h.e, r.e), Plus(h.f, r.f), Plus(h.g, r.g), Plus(h.h, r.h))
  }

  /** Section 6.2.2: the next intermediate hash value. */
  function CompressBlock(h: Regs, block: Bytes): Regs
    requires |block| == 64
  {
    AddRegs(h, Rounds(h, Schedule(block, |K|), |K|))
  }

  /** The compression function on every byte string; only blocks of 64 bytes are ever compressed. */
  function Compress(h: Regs, block: Bytes): Regs {
    if |block| == 64 then CompressBlock(h, block) else h
  }

  function WordBytes(w: Word): (b: Bytes)
    ensures |b| == 4
  {
    [((w >> 24) & 0xff) as byte, ((w >> 16) & 0xff) as byte, ((w >> 8) & 0xff) as byte, (w & 0xff) as byte]
  }

  function WordsBytes(ws: seq<Word>): (b: Bytes)
    ensures |b| == 4 * |ws|
  {
    if ws == [] then [] else WordsBytes(ws[..|ws| - 1]) + WordBytes(ws[|ws| - 1])
  }

  function RegsBytes(r: Regs): (b: Bytes)
    ensures |b| == 32
  {
    WordsBytes([r.a, r.b, r.c, r.d, r.e, r.f, r.g, r.h])
  }

  /** The digest of a message (section 6.2). */
  function Digest(m: Bytes): (d: Bytes)
    ensures |d| == 32
  {
    RegsBytes(BlockStream.Chain(Compress, H0, BlockStream.Pad(m)))
  }

  // ---------------------------------------------------------------- streaming, on values

  type Context = BlockStream.Context<Regs>

  predicate WellFormed(c: Context) { BlockStream.WellFormed(c) }

  /** The context after sha256_init and any updates that add up to `m`. */
  function ContextOf(m: Bytes): (c: Context)
    ensures WellFormed(c)
  {
    BlockStream.ContextOf(Compress, H0, m)
  }

  /** sha256_update. */
  function Absorb(c: Context, data: Bytes): (c': Context)
    requires WellFormed(c)
    ensures WellFormed(c')
  {
    BlockStream.Absorb(Compress, c, data)
  }

  /** sha256_final. */
  function Finish(c: Context): (d: Bytes)
    ensures |d| == 32
  {
    RegsBytes(BlockStream.Finish(Compress, c))
  }

  /** The struct after memset to zero, as calloc and clear_slot leave it. */
  const ZEROED: Context := BlockStream.Context(Regs(0, 0, 0, 0, 0, 0, 0, 0), 0, [])

  lemma AbsorbExtends(m: Bytes, data: Bytes)
    ensures Absorb(ContextOf(m), data) == ContextOf(m + data)
  {
    BlockStream.AbsorbExtends(Compress, H0, m, data);
  }

  lemma FinishIsDigest(m: Bytes)
    requires |m| < 0x2000_0000_0000_0000
    ensures Finish(ContextOf(m)) == Digest(m)
  {
    BlockStream.FinishHashesPadded(Compress, H0, m);
  }

  /** `c` is the context of `m`, said so that a caller need not look inside ContextOf. */
  ghost predicate Holds(c: Context, m: Bytes) {
    forall n: Bytes {:trigger ContextOf(n)} :: n == m ==> c == ContextOf(n)
  }

  /** `t` is the digest of `m` in hexadecimal. */
  ghost predicate IsHexDigest(t: Bytes, m: Bytes) {
    forall n: Bytes {:trigger Digest(n)} :: n == m ==> t == Hex(Digest(n))
  }

  lemma HoldsMeans(c: Context, m: Bytes)
    ensures Holds(c, m) <==> c == ContextOf(m)
  {
  }

  lemma IsHexDigestMeans(t: Bytes, m: Bytes)
    ensures IsHexDigest(t, m) <==> t == Hex(Digest(m))
  {
  }

  lemma HoldsAbsorb(c: Context, m: Bytes, data: Bytes)
    requires Holds(c, m)
    ensures WellFormed(c) && Holds(Absorb(c, data), m + data)
  {
    HoldsMeans(c, m);
    AbsorbExtends(m, data);
    HoldsMeans(Absorb(c, data), m + data);
  }

  lemma HoldsFinish(c: Context, m: Bytes)
    requires Holds(c, m) && |m| < 0x2000_0000_0000_0000
    ensures IsHexDigest(Hex(Finish(c)), m)
  {
    HoldsMeans(c, m);
    FinishIsDigest(m);
    IsHexDigestMeans(Hex(Finish(c)), m);
  }

  function AbsorbAll(c: Context, pieces: seq<Bytes>): (c': Context)
    requires WellFormed(c)
    ensures WellFormed(c')
  {
    if pieces == [] then c else Absorb(AbsorbAll(c, pieces[..|pieces| - 1]), pieces[|pieces| - 1])
  }

  /** The digest does not depend on how a message was split into updates. */
  lemma {:induction false} AnySplitGivesDigest(pieces: seq<Bytes>)
    ensures AbsorbAll(ContextOf([]), pieces) == ContextOf(Concat(pieces))
    ensures |Concat(pieces)| < 0x2000_0000_0000_0000 ==>
              Finish(AbsorbAll(ContextOf([]), pieces)) == Digest(Concat(pieces))
  {
    if pieces != [] {
      AnySplitGivesDigest(pieces[..|pieces| - 1]);
      AbsorbExtends(Concat(pieces[..|pieces| - 1]), pieces[|pieces| - 1]);
    }
    if |Concat(pieces)| < 0x2000_0000_0000_0000 {
      FinishIsDigest(Concat(pieces));
    }
  }

  // ---------------------------------------------------------------- the C code

  lemma EmptyContext()
    ensures ContextOf([]) == BlockStream.Context(H0, 0, [])
  {
  }

  /** `f` is the compression function. Callers that only buffer bytes need not look inside it. */
  ghost predicate IsCompress(f: (Regs, Bytes) -> Regs) {
    forall h: Regs, b: Bytes {:trigger Compress(h, b)} :: f(h, b) == Compress(h, b)
  }

  class Sha256Context {
    const state: array<Word>
    var bitCount: nat
    const block: array<byte>
    var blockSize: nat

    ghost predicate Valid()
      reads this
    {
      Shape() && blockSize < 64 && bitCount < U64_LIMIT
    }

    ghost predicate Shape()
      reads this
    {
      state.Length == 8 && block.Length == 64 && state as object != block
    }

    ghost function Hash(): Regs
      requires state.Length == 8
      reads this, state
    {
      Regs(state[0], state[1], state[2], state[3], state[4], state[5], state[6], state[7])
    }

    ghost function View(): (c: Context)
      requires Valid()
      reads this, state, block
      ensures WellFormed(c)
    {
      BlockStream.Context(Hash(), bitCount, block[..blockSize])
    }

    /** A zeroed struct, then sha256_init. */
    constructor ()
      ensures Valid() && fresh(state) && fresh(block)
      ensures View() == ContextOf([])
    {
      state := new Word[8];
      block := new byte[64];
      bitCount, blockSize := 0, 0;
      new;
      Init();
    }

    method Init()
      requires Shape()
      modifies this, state, block
      ensures Valid()
      ensures View() == ContextOf([])
    {
      forall i | 0 <= i < 64 { block[i] := 0; }
      bitCount, blockSize := 0, 0;
      state[0], state[1], state[2], state[3] := 0x6a09e667, 0xbb67ae85, 0x3c6ef372, 0xa54ff53a;
      state[4], state[5], state[6], state[7] := 0x510e527f, 0x9b05688c, 0x1f83d9ab, 0x5be0cd19;
      EmptyContext();
    }

    /** The first loops of transform: the sixteen words of the block, then the 48 derived ones. */
    method Expand(chunk: Bytes) returns (words: array<Word>)
      requires |chunk| == 64
      ensures fresh(words) && words.Length == |K|
      ensures words[..] == Schedule(chunk, |K|)
    {
      words := new Word[64];
      var index := 0;
      while index < 16
        invariant 0 <= index <= 16
        invariant words[..index] == Schedule(chunk, index)
      {
        words[index] := BigEndian(chunk[index * 4], chunk[index * 4 + 1], chunk[index * 4 + 2], chunk[index * 4 + 3]);
        index := index + 1;
        assert words[..index] == words[..index - 1] + [words[index - 1]];
      }
      while index < 64
        invariant 16 <= index <= 64
        invariant words[..index] == Schedule(chunk, index)
      {
        words[index] := DerivedWord(words[index - 16], words[index - 15], words[index - 7], words[index - 2]);
        index := index + 1;
        assert words[..index] == words[..index - 1] + [words[index - 1]];
      }
      assert words[..] == words[..index];
    }

    /** The sixty-four rounds of transform on the eight working variables. */
    method Mix(words: array<Word>)
      returns (a: Word, b: Word, c: Word, d: Word, e: Word, f: Word, g: Word, h: Word)
      requires Shape() && words.Length == |K|
      ensures Regs(a, b, c, d, e, f, g, h) == Rounds(Hash(), words[..], |K|)
    {
      a, b, c, d := state[0], state[1], state[2], state[3];
      e, f, g, h := state[4], state[5], state[6], state[7];
      var index := 0;
      while index < 64
        invariant 0 <= index <= 64
        invariant Regs(a, b, c, d, e, f, g, h) == Rounds(Hash(), words[..], index)
      {
        a, b, c, d, e, f, g, h := RoundStep(a, b, c, d, e, f, g, h, K[index], words[..][index]);
        index := index + 1;
      }
    }

    /** The last two lines of transform. */
    method AddInto(a: Word, b: Word, c: Word, d: Word, e: Word, f: Word, g: Word, h: Word)
      requires Shape()
      modifies state
      ensures Hash() == AddRegs(old(Hash()), Regs(a, b, c, d, e, f, g, h))
    {
      state[0], state[1], state[2], state[3] :=
        Plus(state[0], a), Plus(state[1], b), Plus(state[2], c), Plus(state[3], d);
      state[4], state[5], state[6], state[7] :=
        Plus(state[4], e), Plus(state[5], f), Plus(state[6], g), Plus(state[7], h);
    }

    method Transform(ghost f: (Regs, Bytes) -> Regs, chunk: Bytes)
      requires Shape() && IsCompress(f) && |chunk| == 64
      modifies state
      ensures Hash() == f(old(Hash()), chunk)
    {
      ghost var h0 := Hash();
      var words := Expand(chunk);
      var a, b, c, d, e, f, g, h := Mix(words);
      ghost var r := Regs(a, b, c, d, e, f, g, h);
      assert Compress(h0, chunk) == AddRegs(h0, r);
      AddInto(a, b, c, d, e, f, g, h);
    }

    /** One turn of the loop of sha256_update: a whole input block is compressed in place when nothing is pending. */
    method Turn(ghost f: (Regs, Bytes) -> Regs, rest: Bytes) returns (n: nat)
      requires Valid() && IsCompress(f) && rest != []
      modifies this`blockSize, state, block
      ensures Valid() && 0 < n <= |rest|
      ensures Hash() == BlockStream.Absorb(f, old(View()), rest[..n]).hash
      ensures block[..blockSize] == BlockStream.Absorb(f, old(View()), rest[..n]).pending
    {
      ghost var c := View();
      if blockSize == 0 && |rest| >= 64 {
        n := 64;
        BlockStream.AbsorbUpToBlock(f, c, rest[..64]);
        assert c.pending + rest[..64] == rest[..64];
        Transform(f, rest[..64]);
      } else {
        n := if 64 - blockSize > |rest| then |rest| else 64 - blockSize;
        BlockStream.AbsorbUpToBlock(f, c, rest[..n]);
        CopyIn(rest[..n]);
        assert block[..blockSize] == c.pending + rest[..n];
        if blockSize == 64 {
          assert block[..] == block[..64];
          Transform(f, block[..]);
          blockSize := 0;
        }
      }
    }

    /** The loop of sha256_update. */
    method TakeAll(ghost f: (Regs, Bytes) -> Regs, data: Bytes)
      requires Valid() && IsCompress(f)
      modifies this`blockSize, state, block
      ensures Valid()
      ensures Hash() == BlockStream.Absorb(f, old(View()), data).hash
      ensures block[..blockSize] == BlockStream.Absorb(f, old(View()), data).pending
    {
      ghost var c0 := View();
      var i := 0;
      BlockStream.AbsorbUpToBlock(f, c0, []);
      while i < |data|
        invariant 0 <= i <= |data| && Valid()
        invariant Hash() == BlockStream.Absorb(f, c0, data[..i]).hash
        invariant block[..blockSize] == BlockStream.Absorb(f, c0, data[..i]).pending
      {
        ghost var cur := View();
        var n := Turn(f, data[i..]);
        BlockStream.AbsorbOn(f, cur, c0, data, i, n);
        ghost var next := BlockStream.Absorb(f, cur, data[i..][..n]);
        i := i + n;
        assert Hash() == next.hash;
        assert next.hash == BlockStream.Absorb(f, c0, data[..i]).hash;
      }
      assert data[..i] == data;
    }

    method Update(data: Bytes)
      requires Valid()
      modifies this, state, block
      ensures Valid()
      ensures View() == Absorb(old(View()), data)
    {
      TakeAll(Compress, data);
      bitCount := (bitCount + 8 * |data|) % U64_LIMIT;
    }

    /** sha256_final: one padding block, or two when fewer than nine bytes are left in the pending one. */
    method Final(digest: array<byte>)
      requires Valid() && digest.Length == 32 && digest != block && digest as object != state
      modifies this, state, block, digest
      ensures Valid() && View() == ZEROED
      ensures digest[..] == Finish(old(View()))
    {
      ghost var h := Close(Compress);
      Emit(digest);
      Zero();
    }

    /** memset of the whole struct. */
    method Zero()
      requires Shape()
      modifies this, state, block
      ensures Valid() && View() == ZEROED
    {
      forall i | 0 <= i < 8 { state[i] := 0; }
      forall i | 0 <= i < 64 { block[i] := 0; }
      bitCount, blockSize := 0, 0;
    }

    /** The padding part of sha256_final. */
    method Close(ghost f: (Regs, Bytes) -> Regs) returns (ghost h: Regs)
      requires Valid() && IsCompress(f)
      modifies this`blockSize, state, block
      ensures Hash() == h == BlockStream.Finish(f, old(View()))
    {
      ghost var c := View();
      ghost var field := BlockStream.LengthField(c.bits);
      BlockStream.FinishBlocks(f, c, field);
      CopyIn([0x80]);
      h := c.hash;
      ghost var head := block[..blockSize];
      assert head == c.pending + [0x80];
      if blockSize > 56 {
        h := SpillBlock(f);
        head := [];
        assert head + Zeros(56) + field == Zeros(56) + field;
      }
      assert block[..blockSize] == head;
      h := LastBlock(f);
    }

    /** No room for the length: the pending block is closed with zeros and compressed on its own. */
    method SpillBlock(ghost f: (Regs, Bytes) -> Regs) returns (ghost h: Regs)
      requires Shape() && IsCompress(f) && 56 < blockSize <= 64
      modifies this`blockSize, state, block
      ensures blockSize == 0
      ensures Hash() == h == f(old(Hash()), old(block[..blockSize]) + Zeros(64 - old(blockSize)))
    {
      ZeroTo(64);
      assert block[..] == block[..64];
      Transform(f, block[..]);
      blockSize := 0;
      h := Hash();
    }

    method LastBlock(ghost f: (Regs, Bytes) -> Regs) returns (ghost h: Regs)
      requires Shape() && IsCompress(f) && blockSize <= 56
      modifies state, block
      ensures Hash() == h
      ensures h == f(old(Hash()), old(block[..blockSize]) + Zeros(56 - blockSize) + BlockStream.LengthField(bitCount))
    {
      ZeroTo(56);
      StoreLength();
      assert block[..] == block[..56] + block[56..];
      Transform(f, block[..]);
      h := Hash();
    }

    /** memset(block + block_size, 0, end - block_size). */
    method ZeroTo(end: nat)
      requires Shape() && blockSize <= end <= 64
      modifies block
      ensures block[..end] == old(block[..blockSize]) + Zeros(end - blockSize)
    {
      forall k | blockSize <= k < end { block[k] := 0; }
    }

    /** The loop that stores the bit count. */
    method StoreLength()
      requires Shape()
      modifies block
      ensures block[..56] == old(block[..56])
      ensures block[56..] == BlockStream.LengthField(bitCount)
    {
      var index := 0;
      while index < 8
        invariant 0 <= index <= 8
        invariant block[..56] == old(block[..56])
        invariant forall k :: 64 - index <= k < 64 ==> block[k] == BlockStream.LengthField(bitCount)[k - 56]
      {
        block[63 - index] := BlockStream.LowByte(BlockStream.ShiftBytes(bitCount, index));
        index := index + 1;
      }
    }

    /** The loop that writes the hash value out, most significant byte first. */
    method Emit(digest: array<byte>)
      requires Shape() && digest.Length == 32 && digest != block && digest as object != state
      modifies digest
      ensures digest[..] == RegsBytes(Hash())
    {
      var index := 0;
      ghost var words := state[..];
      while index < 8
        invariant 0 <= index <= 8 && state[..] == words
        invariant digest[..4 * index] == WordsBytes(words[..index])
      {
        assert words[..index + 1][..index] == words[..index];
        StoreWord(digest, index * 4, state[index]);
        index := index + 1;
      }
      assert words[..8] == [words[0], words[1], words[2], words[3], words[4], words[5], words[6], words[7]];
    }

    /** The memcpy of sha256_update. */
    method CopyIn(piece: Bytes)
      requires Shape() && blockSize + |piece| <= 64
      modifies this`blockSize, block
      ensures blockSize == old(blockSize) + |piece|
      ensures block[..blockSize] == old(block[..blockSize]) + piece
    {
      forall k | 0 <= k < |piece| { block[blockSize + k] := piece[k]; }
      blockSize := blockSize + |piece|;
    }
  }

  /** Four assignments of the last loop of sha256_final. */
  method StoreWord(digest: array<byte>, at: nat, w: Word)
    requires at + 4 <= digest.Length
    modifies digest
    ensures digest[..at + 4] == old(digest[..at]) + WordBytes(w)
  {
    var b := WordBytes(w);
    digest[at], digest[at + 1], digest[at + 2], digest[at + 3] := b[0], b[1], b[2], b[3];
    assert digest[..at] == old(digest[..at]);
  }

  /** The body of the second loop of transform. */
  method DerivedWord(w16: Word, x: Word, w7: Word, y: Word) returns (w: Word)
    ensures w == Derived(w16, x, w7, y)
  {
    var s0, s1 := SmallSigma0(x), SmallSigma1(y);
    w := Plus(Plus(Plus(w16, s0), w7), s1);
  }

  /** The body of the third loop of transform. */
  method RoundStep(a0: Word, b0: Word, c0: Word, d0: Word, e0: Word, f0: Word, g0: Word, h0: Word, k: Word, w: Word)
    returns (a: Word, b: Word, c: Word, d: Word, e: Word, f: Word, g: Word, h: Word)
    ensures Regs(a, b, c, d, e, f, g, h) == Round(Regs(a0, b0, c0, d0, e0, f0, g0, h0), k, w)
  {
    a, b, c, d, e, f, g, h := a0, b0, c0, d0, e0, f0, g0, h0;
    var s1 := BigSigma1(e);
    var choice := Ch(e, f, g);
    var t1 := Plus(Plus(Plus(Plus(h, s1), choice), k), w);
    var s0 := BigSigma0(a);
    var majority := Maj(a, b, c);
    var t2 := Plus(s0, majority);
    h := g; g := f; f := e; e := Plus(d, t1); d := c; c := b; b := a; a := Plus(t1, t2);
  }

  // ---------------------------------------------------------------- sha256_hex

  /** The characters of "0123456789abcdef". */
  function HexDigit(nibble: byte): byte {
    if nibble < 10 then 0x30 + nibble else 0x57 + nibble
  }

  function HexByte(b: byte): Bytes { [HexDigit(b >> 4), HexDigit(b & 15)] }

  function Hex(d: Bytes): (t: Bytes)
    ensures |t| == 2 * |d|
  {
    if d == [] then [] else HexByte(d[0]) + Hex(d[1..])
  }

  lemma HexByteInjective(x: byte, y: byte)
    requires HexByte(x) == HexByte(y)
    ensures x == y
  {
    assert HexByte(x)[0] == HexByte(y)[0] && HexByte(x)[1] == HexByte(y)[1];
  }

  /** Comparing digests in hexadecimal compares the digests. */
  lemma {:induction false} HexInjective(x: Bytes, y: Bytes)
    requires Hex(x) == Hex(y)
    ensures x == y
  {
    assert |x| == |y|;
    if x != [] {
      assert Hex(x)[..2] == HexByte(x[0]) && Hex(x)[2..] == Hex(x[1..]);
      assert Hex(y)[..2] == HexByte(y[0]) && Hex(y)[2..] == Hex(y[1..]);
      HexByteInjective(x[0], y[0]);
      HexInjective(x[1..], y[1..]);
      assert x == [x[0]] + x[1..] && y == [y[0]] + y[1..];
    }
  }
}
