/**
  valid_utf8 of src/safe_path.c against the UTF-8 of RFC 3629: the byte ranges of its section 4, and the encoding of
  scalar values of its section 3.
 */
module Utf8 {
  import opened Bytes

  // ---------------------------------------------------------------- the grammar of section 4

  predicate Tail(b: byte) { 0x80 <= b <= 0xBF }

  predicate Two(b0: byte, b1: byte) { 0xC2 <= b0 <= 0xDF && Tail(b1) }

  predicate Three(b0: byte, b1: byte, b2: byte) {
    && ((b0 == 0xE0 && 0xA0 <= b1 <= 0xBF) || (0xE1 <= b0 <= 0xEC && Tail(b1)) ||
        (b0 == 0xED && 0x80 <= b1 <= 0x9F) || (0xEE <= b0 <= 0xEF && Tail(b1)))
    && Tail(b2)
  }

  predicate Four(b0: byte, b1: byte, b2: byte, b3: byte) {
    && ((b0 == 0xF0 && 0x90 <= b1 <= 0xBF) || (0xF1 <= b0 <= 0xF3 && Tail(b1)) ||
        (b0 == 0xF4 && 0x80 <= b1 <= 0x8F))
    && Tail(b2) && Tail(b3)
  }

  /** The length of the character that starts `t`, or 0 when none does. */
  function CharLen(t: Bytes): (n: nat)
    ensures n <= 4 && n <= |t|
  {
    if 0x01 <= At(t, 0) <= 0x7F then 1
    else if Two(At(t, 0), At(t, 1)) then 2
    else if Three(At(t, 0), At(t, 1), At(t, 2)) then 3
    else if Four(At(t, 0), At(t, 1), At(t, 2), At(t, 3)) then 4
    else 0
  }

  /** A sequence of characters of the grammar, none of them NUL. */
  predicate WellFormed(t: Bytes)
    decreases |t|
  {
    t == [] || (CharLen(t) > 0 && WellFormed(t[CharLen(t)..]))
  }

  // ---------------------------------------------------------------- the encoding of section 3

  /** A Unicode scalar value other than NUL. */
  predicate Scalar(u: bv32) { 0 < u <= 0x10FFFF && !(0xD800 <= u <= 0xDFFF) }

  function Lead2(u: bv32): byte
    requires u < 0x800
  {
    (0xC0 | (u >> 6)) as byte
  }

  function Lead3(u: bv32): byte
    requires u < 0x10000
  {
    (0xE0 | (u >> 12)) as byte
  }

  function Lead4(u: bv32): byte
    requires u <= 0x10FFFF
  {
    (0xF0 | (u >> 18)) as byte
  }

  /** The trailing byte that carries the low six bits of `u`. */
  function Low6(u: bv32): byte { (0x80 | (u & 0x3F)) as byte }

  function Encode(u: bv32): (s: Bytes)
    requires Scalar(u)
    ensures 1 <= |s| <= 4
  {
    if u < 0x80 then [u as byte]
    else if u < 0x800 then [Lead2(u), Low6(u)]
    else if u < 0x10000 then [Lead3(u), Low6(u >> 6), Low6(u)]
    else [Lead4(u), Low6(u >> 12), Low6(u >> 6), Low6(u)]
  }

  predicate Scalars(us: seq<bv32>) { forall i :: 0 <= i < |us| ==> Scalar(us[i]) }

  function EncodeAll(us: seq<bv32>): Bytes
    requires Scalars(us)
  {
    if us == [] then [] else Encode(us[0]) + EncodeAll(us[1..])
  }

  function Join2(b0: byte, b1: byte): bv32 { ((b0 as bv32 & 0x1F) << 6) | (b1 as bv32 & 0x3F) }

  function Join3(b0: byte, b1: byte, b2: byte): bv32 {
    ((b0 as bv32 & 0x0F) << 12) | ((b1 as bv32 & 0x3F) << 6) | (b2 as bv32 & 0x3F)
  }

  function Join4(b0: byte, b1: byte, b2: byte, b3: byte): bv32 {
    ((b0 as bv32 & 0x07) << 18) | ((b1 as bv32 & 0x3F) << 12) | ((b2 as bv32 & 0x3F) << 6) | (b3 as bv32 & 0x3F)
  }

  /** The scalar value of the character that starts `t`, from its payload bits. */
  function First(t: Bytes): bv32
    requires CharLen(t) > 0
  {
    match CharLen(t)
    case 1 => t[0] as bv32
    case 2 => Join2(t[0], t[1])
    case 3 => Join3(t[0], t[1], t[2])
    case _ => Join4(t[0], t[1], t[2], t[3])
  }

  lemma Joined2(b0: byte, b1: byte)
    requires Two(b0, b1)
    ensures 0x80 <= Join2(b0, b1) < 0x800
    ensures Lead2(Join2(b0, b1)) == b0 && Low6(Join2(b0, b1)) == b1
  {
  }

  lemma Joined3Range(b0: byte, b1: byte, b2: byte)
    requires Three(b0, b1, b2)
    ensures 0x800 <= Join3(b0, b1, b2) < 0x10000 && !(0xD800 <= Join3(b0, b1, b2) <= 0xDFFF)
  {
  }

  lemma Joined3(b0: byte, b1: byte, b2: byte)
    requires Three(b0, b1, b2) && Join3(b0, b1, b2) < 0x10000
    ensures Lead3(Join3(b0, b1, b2)) == b0
    ensures Low6(Join3(b0, b1, b2) >> 6) == b1
    ensures Low6(Join3(b0, b1, b2)) == b2
  {
  }

  lemma Joined4Range(b0: byte, b1: byte, b2: byte, b3: byte)
    requires Four(b0, b1, b2, b3)
    ensures 0x10000 <= Join4(b0, b1, b2, b3) <= 0x10FFFF
  {
  }

  lemma Joined4(b0: byte, b1: byte, b2: byte, b3: byte)
    requires Four(b0, b1, b2, b3) && Join4(b0, b1, b2, b3) <= 0x10FFFF
    ensures Lead4(Join4(b0, b1, b2, b3)) == b0
    ensures Low6(Join4(b0, b1, b2, b3) >> 12) == b1
    ensures Low6(Join4(b0, b1, b2, b3) >> 6) == b2
    ensures Low6(Join4(b0, b1, b2, b3)) == b3
  {
  }

  lemma Encoded2(t: Bytes)
    requires CharLen(t) == 2
    ensures Scalar(First(t)) && Encode(First(t)) == t[..2]
  {
    Joined2(t[0], t[1]);
    assert t[..2] == [t[0], t[1]];
  }

  lemma Encoded3(t: Bytes)
    requires CharLen(t) == 3
    ensures Scalar(First(t)) && Encode(First(t)) == t[..3]
  {
    Joined3Range(t[0], t[1], t[2]);
    Joined3(t[0], t[1], t[2]);
    assert t[..3] == [t[0], t[1], t[2]];
  }

  lemma Encoded4(t: Bytes)
    requires CharLen(t) == 4
    ensures Scalar(First(t)) && Encode(First(t)) == t[..4]
  {
    Joined4Range(t[0], t[1], t[2], t[3]);
    Joined4(t[0], t[1], t[2], t[3]);
    assert t[..4] == [t[0], t[1], t[2], t[3]];
  }

  /** A character of the grammar is the encoding of its scalar value. */
  lemma FirstIsEncoded(t: Bytes)
    requires CharLen(t) > 0
    ensures Scalar(First(t)) && Encode(First(t)) == t[..CharLen(t)]
  {
    match CharLen(t)
    case 1 => Ascii(t[0]);
    case 2 => Encoded2(t);
    case 3 => Encoded3(t);
    case _ => Encoded4(t);
  }

  lemma Ascii(b: byte)
    requires 0 < b < 0x80
    ensures 0 < b as bv32 < 0x80 && (b as bv32) as byte == b
  {
  }

  lemma Parts1(u: bv32)
    requires 0 < u < 0x80
    ensures 0 < u as byte < 0x80 && (u as byte) as bv32 == u
  {
  }

  lemma Parts2(u: bv32)
    requires 0x80 <= u < 0x800
    ensures Two(Lead2(u), Low6(u)) && Join2(Lead2(u), Low6(u)) == u
  {
  }

  lemma Parts3(u: bv32)
    requires 0x800 <= u < 0x10000 && Scalar(u)
    ensures Three(Lead3(u), Low6(u >> 6), Low6(u)) && Join3(Lead3(u), Low6(u >> 6), Low6(u)) == u
  {
  }

  lemma Parts4(u: bv32)
    requires 0x10000 <= u && Scalar(u)
    ensures Four(Lead4(u), Low6(u >> 12), Low6(u >> 6), Low6(u))
    ensures Join4(Lead4(u), Low6(u >> 12), Low6(u >> 6), Low6(u)) == u
  {
  }

  /** An encoding is one character of the grammar, whatever follows it, and decodes to the same scalar value. */
  lemma EncodedIsFirst(u: bv32, rest: Bytes)
    requires Scalar(u)
    ensures CharLen(Encode(u) + rest) == |Encode(u)| && First(Encode(u) + rest) == u
  {
    if u < 0x80 {
      Parts1(u);
    } else if u < 0x800 {
      Parts2(u);
    } else if u < 0x10000 {
      Parts3(u);
    } else {
      Parts4(u);
    }
  }

  /** The characters of a well-formed text, decoded. */
  function Decode(t: Bytes): (us: seq<bv32>)
    requires WellFormed(t)
    ensures Scalars(us)
    decreases |t|
  {
    if t == [] then []
    else
      assert Scalar(First(t)) by { FirstIsEncoded(t); }
      [First(t)] + Decode(t[CharLen(t)..])
  }

  lemma {:induction false} EncodeDecode(t: Bytes)
    requires WellFormed(t)
    ensures EncodeAll(Decode(t)) == t
    decreases |t|
  {
    if t != [] {
      FirstIsEncoded(t);
      var rest := t[CharLen(t)..];
      EncodeDecode(rest);
      var us := Decode(t);
      assert us[1..] == Decode(rest);
    }
  }

  lemma {:induction false} DecodeEncode(us: seq<bv32>)
    requires Scalars(us)
    ensures WellFormed(EncodeAll(us)) && Decode(EncodeAll(us)) == us
  {
    if us != [] {
      var rest := EncodeAll(us[1..]);
      DecodeEncode(us[1..]);
      EncodedIsFirst(us[0], rest);
      assert EncodeAll(us)[|Encode(us[0])|..] == rest;
    }
  }

  /**
    The grammar accepts exactly the encodings of sequences of scalar values, and each from one sequence only. No
    surrogate and no number above 0x10FFFF is a scalar value, and a second, overlong form would be a second text
    with the same decoding.
   */
  lemma WellFormedMeansEncoded(t: Bytes)
    ensures WellFormed(t) <==> exists us :: Scalars(us) && EncodeAll(us) == t
    ensures forall us, vs :: Scalars(us) && Scalars(vs) && EncodeAll(us) == t == EncodeAll(vs) ==> us == vs
  {
    if WellFormed(t) {
      EncodeDecode(t);
    }
    forall us | Scalars(us) && EncodeAll(us) == t ensures WellFormed(t) && Decode(t) == us {
      DecodeEncode(us);
    }
  }

  // ---------------------------------------------------------------- cutting and joining

  lemma {:induction false} JoinWellFormed(s: Bytes, t: Bytes)
    requires WellFormed(s) && WellFormed(t)
    ensures WellFormed(s + t)
    decreases |s|
  {
    if s == [] {
      assert s + t == t;
    } else {
      var n := CharLen(s);
      assert CharLen(s + t) == n;
      JoinWellFormed(s[n..], t);
      assert (s + t)[n..] == s[n..] + t;
    }
  }

  /** Every byte of a character after its first is a tail byte. */
  lemma TailsFollow(t: Bytes, k: nat)
    requires 0 < k < CharLen(t)
    ensures Tail(t[k])
  {
  }

  /** A well-formed text cut before anything but a tail byte leaves two well-formed texts. */
  lemma {:induction false} CutWellFormed(t: Bytes, k: nat)
    requires WellFormed(t) && k <= |t| && (k < |t| ==> !Tail(t[k]))
    ensures WellFormed(t[..k]) && WellFormed(t[k..])
    decreases |t|
  {
    if k == 0 {
      assert t[k..] == t;
    } else {
      var n := CharLen(t);
      if k < n {
        TailsFollow(t, k);
      }
      var rest := t[n..];
      CutWellFormed(rest, k - n);
      assert rest[k - n..] == t[k..];
      assert t[..k][n..] == rest[..k - n];
      assert CharLen(t[..k]) == n;
    }
  }

  lemma {:induction false} AsciiWellFormed(t: Bytes)
    requires forall i :: 0 <= i < |t| ==> 0 < t[i] < 0x80
    ensures WellFormed(t)
  {
    if t != [] {
      AsciiWellFormed(t[1..]);
    }
  }

  // ---------------------------------------------------------------- the validator

  /** The payload bits of a lead byte and the number of bytes it announces after itself; None when it is rejected. */
  function Lead(b: byte): Option<(nat, bv32)> {
    if b & 0xE0 == 0xC0 then if b & 0x1F < 2 then None else Some((1, (b & 0x1F) as bv32))
    else if b & 0xF0 == 0xE0 then Some((2, (b & 0x0F) as bv32))
    else if b & 0xF8 == 0xF0 then if b & 0x07 > 4 then None else Some((3, (b & 0x07) as bv32))
    else None
  }

  predicate Continues(b: byte) { b & 0xC0 == 0x80 }

  function ShiftIn(code: bv32, b: byte): bv32 { (code << 6) | (b & 0x3F) as bv32 }

  /** `code` with the payload of `k` more bytes of `t` shifted in. */
  function Gather(code: bv32, t: Bytes, i: nat, k: nat): bv32 {
    if k == 0 then code else ShiftIn(Gather(code, t, i, k - 1), At(t, i + k - 1))
  }

  predicate Rejected(size: nat, code: bv32) {
    (size == 2 && code < 0x80) || (size == 3 && code < 0x800) || (size == 4 && code < 0x10000) ||
    0xD800 <= code <= 0xDFFF || code > 0x10FFFF
  }

  lemma ContinuesIsTail(b: byte)
    ensures Continues(b) <==> Tail(b)
  {
  }

  lemma Accepts2(b0: byte, b1: byte)
    requires b0 & 0xE0 == 0xC0 && b0 & 0x1F >= 2 && Tail(b1)
    ensures Two(b0, b1) && !Rejected(2, ShiftIn((b0 & 0x1F) as bv32, b1))
  {
  }

  lemma Accepts3(b0: byte, b1: byte, b2: byte)
    requires b0 & 0xF0 == 0xE0 && Tail(b1) && Tail(b2)
    ensures Three(b0, b1, b2) <==>
              !Rejected(3, ShiftIn(ShiftIn((b0 & 0x0F) as bv32, b1), b2))
  {
  }

  lemma Accepts4(b0: byte, b1: byte, b2: byte, b3: byte)
    requires b0 & 0xF8 == 0xF0 && b0 & 0x07 <= 4 && Tail(b1) && Tail(b2) && Tail(b3)
    ensures Four(b0, b1, b2, b3) <==>
              !Rejected(4, ShiftIn(ShiftIn(ShiftIn((b0 & 0x07) as bv32, b1), b2), b3))
  {
  }

  /** Past the lead byte: the announced bytes all continue. */
  predicate Continued(t: Bytes, n: nat) { forall k :: 1 <= k <= n ==> Continues(At(t, k)) }

  lemma LeadClasses(b: byte)
    requires b >= 0x80
    ensures b & 0xE0 == 0xC0 <==> 0xC0 <= b <= 0xDF
    ensures b & 0xF0 == 0xE0 <==> 0xE0 <= b <= 0xEF
    ensures b & 0xF8 == 0xF0 <==> 0xF0 <= b <= 0xF7
    ensures b & 0xE0 == 0xC0 ==> (b & 0x1F < 2 <==> b < 0xC2)
    ensures b & 0xF8 == 0xF0 ==> (b & 0x07 > 4 <==> b > 0xF4)
  {
  }

  /** The bit tests of the source accept a character exactly when the grammar does. */
  lemma LeadDecides(t: Bytes)
    requires t != [] && t[0] >= 0x80
    ensures Lead(t[0]).None? ==> CharLen(t) == 0
    ensures Lead(t[0]).Some? ==>
              var (n, code) := Lead(t[0]).value;
              && 1 <= n <= 3
              && CharLen(t) == if Continued(t, n) && !Rejected(n + 1, Gather(code, t, 1, n)) then n + 1 else 0
  {
    var b0, b1, b2, b3 := t[0], At(t, 1), At(t, 2), At(t, 3);
    LeadClasses(b0);
    ContinuesIsTail(b1);
    ContinuesIsTail(b2);
    ContinuesIsTail(b3);
    if Lead(b0).Some? {
      var (n, code) := Lead(b0).value;
      assert Gather(code, t, 1, 1) == ShiftIn(code, b1);
      assert Gather(code, t, 1, 2) == ShiftIn(Gather(code, t, 1, 1), b2);
      assert Gather(code, t, 1, 3) == ShiftIn(Gather(code, t, 1, 2), b3);
      if n == 1 {
        assert Continued(t, 1) <==> Tail(b1);
        if Tail(b1) { Accepts2(b0, b1); }
      } else if n == 2 {
        assert Continued(t, 2) <==> Tail(b1) && Tail(b2);
        if Tail(b1) && Tail(b2) { Accepts3(b0, b1, b2); }
      } else {
        assert Continued(t, 3) <==> Tail(b1) && Tail(b2) && Tail(b3);
        if Tail(b1) && Tail(b2) && Tail(b3) { Accepts4(b0, b1, b2, b3); }
      }
    }
  }

  /** The loop over the announced bytes. */
  method ReadTails(text: CString, start: nat, n: nat, first: bv32) returns (ok: bool, code: bv32)
    requires start < |text|
    ensures ok == Continued(text[start..], n)
    ensures ok ==> start + n < |text| && code == Gather(first, text[start..], 1, n)
  {
    ghost var t := text[start..];
    var i, remaining := start + 1, n;
    code := first;
    while remaining > 0
      invariant 0 <= remaining <= n && i == start + 1 + n - remaining <= |text|
      invariant code == Gather(first, t, 1, n - remaining)
      invariant Continued(t, n - remaining)
    {
      assert At(text, i) == At(t, n - remaining + 1);
      if !Continues(At(text, i)) {
        return false, code;
      }
      code := ShiftIn(code, At(text, i));
      i := i + 1;
      remaining := remaining - 1;
    }
    ok := true;
  }

  /** valid_utf8. It never reads past the terminator. */
  method ValidUtf8(text: CString) returns (ok: bool)
    ensures ok == WellFormed(text)
  {
    var i := 0;
    while At(text, i) != 0
      invariant i <= |text| && WellFormed(text) == WellFormed(text[i..])
      decreases |text| - i
    {
      ghost var t := text[i..];
      if text[i] < 0x80 {
        assert CharLen(t) == 1;
        assert text[i + 1..] == t[1..];
        i := i + 1;
        continue;
      }
      LeadDecides(t);
      var lead := Lead(text[i]);
      if lead.None? { return false; }
      var (n, first) := lead.value;
      var continued, code := ReadTails(text, i, n, first);
      if !continued || Rejected(n + 1, code) { return false; }
      assert text[i + n + 1..] == t[n + 1..];
      i := i + n + 1;
    }
    return true;
  }
}
