/**
  JSON strings and numbers: json_string and json_u64 of src/upload.c, and json_escape_string of src/router.c. The
  functions read from the front of a text and give back what is left of it.
 */
module Json {
  import opened Bytes
  import opened Decimal

  const QUOTE: byte := 0x22
  const BACKSLASH: byte := 0x5C
  const SLASH: byte := 0x2F

  predicate Control(b: byte) { b < 0x20 }

  predicate Escapable(b: byte) { b == QUOTE || b == BACKSLASH || b == SLASH }

  // ---------------------------------------------------------------- strings

  /** The text between the quotes, read as json_string reads it: only three characters may be escaped. */
  function Unescape(body: Bytes): Option<Bytes>
    decreases |body|
  {
    if body == [] then Some([])
    else if body[0] == QUOTE then None
    else if body[0] == BACKSLASH then
      if |body| < 2 || !Escapable(body[1]) then None else Prepend([body[1]], Unescape(body[2..]))
    else if Control(body[0]) then None
    else Prepend([body[0]], Unescape(body[1..]))
  }

  function Prepend(s: Bytes, r: Option<Bytes>): Option<Bytes> {
    match r
    case None => None
    case Some(t) => Some(s + t)
  }

  /** The rest of a string: its value, and what follows its closing quote. */
  function Body(t: Bytes, capacity: nat): (r: Option<(Bytes, Bytes)>)
    requires capacity > 0
    ensures r.Some? ==> |r.value.1| < |t| && |r.value.0| < capacity
    decreases |t|
  {
    if t == [] then None
    else if t[0] == QUOTE then Some(([], t[1..]))
    else
      var n := if t[0] == BACKSLASH then 2 else 1;
      if |t| < n || (n == 2 && !Escapable(t[1])) || Control(t[n - 1]) || capacity == 1 then None
      else PrependTo([t[n - 1]], Body(t[n..], capacity - 1))
  }

  function PrependTo(s: Bytes, r: Option<(Bytes, Bytes)>): Option<(Bytes, Bytes)> {
    match r
    case None => None
    case Some((v, rest)) => Some((s + v, rest))
  }

  /** json_string. */
  function String(t: Bytes, capacity: nat): (r: Option<(Bytes, Bytes)>)
    requires capacity > 0
    ensures r.Some? ==> |r.value.1| < |t| && |r.value.0| < capacity
  {
    if t == [] || t[0] != QUOTE then None else Body(t[1..], capacity)
  }

  lemma {:induction false} BodyReads(body: Bytes, rest: Bytes, capacity: nat)
    requires capacity > 0 && Unescape(body).Some?
    ensures Body(body + [QUOTE] + rest, capacity) ==
            if |Unescape(body).value| < capacity then Some((Unescape(body).value, rest)) else None
    decreases |body|
  {
    var t := body + [QUOTE] + rest;
    if body == [] {
      assert t[1..] == rest;
    } else {
      var n := if body[0] == BACKSLASH then 2 else 1;
      assert t[n..] == body[n..] + [QUOTE] + rest;
      if capacity > 1 {
        BodyReads(body[n..], rest, capacity - 1);
      }
    }
  }

  /** Adding one raw or escaped character in front of a body that reads. */
  lemma UnescapeStep(c: Bytes, body: Bytes)
    requires |c| == 1 ==> c[0] != QUOTE && c[0] != BACKSLASH && !Control(c[0])
    requires |c| != 1 ==> |c| == 2 && c[0] == BACKSLASH && Escapable(c[1])
    ensures Unescape(c + body) == Prepend([c[|c| - 1]], Unescape(body))
  {
    assert (c + body)[|c|..] == body;
  }

  /** Where the closing quote stands. */
  function Close(t: Bytes, capacity: nat): (k: nat)
    requires capacity > 0 && Body(t, capacity).Some?
    ensures k < |t| && t[k] == QUOTE && Body(t, capacity).value.1 == t[k + 1..]
    decreases |t|
  {
    if t[0] == QUOTE then 0
    else
      var n := if t[0] == BACKSLASH then 2 else 1;
      var k := Close(t[n..], capacity - 1);
      assert t[n..][k + 1..] == t[n + k + 1..];
      n + k
  }

  lemma FrontWasRead(t: Bytes, n: nat, k: nat)
    requires n + k <= |t|
    requires (n == 1 && t[0] != QUOTE && t[0] != BACKSLASH && !Control(t[0])) ||
             (n == 2 && t[0] == BACKSLASH && Escapable(t[1]))
    ensures Unescape(t[..n + k]) == Prepend([t[n - 1]], Unescape(t[n..][..k]))
  {
    UnescapeStep(t[..n], t[n..][..k]);
    assert t[..n + k] == t[..n] + t[n..][..k];
  }

  /** The raw text before the closing quote. */
  function Raw(t: Bytes, capacity: nat): Bytes
    requires capacity > 0 && Body(t, capacity).Some?
  {
    t[..Close(t, capacity)]
  }

  lemma CharacterWasRead(t: Bytes, n: nat, capacity: nat)
    requires capacity > 1 && Body(t, capacity).Some? && t[0] != QUOTE && n == (if t[0] == BACKSLASH then 2 else 1)
    requires Unescape(Raw(t[n..], capacity - 1)) == Some(Body(t[n..], capacity - 1).value.0)
    ensures Unescape(Raw(t, capacity)) == Some(Body(t, capacity).value.0)
  {
    FrontWasRead(t, n, Close(t[n..], capacity - 1));
  }

  /** It means the value that was read. */
  lemma {:induction false} BodyWasRead(t: Bytes, capacity: nat)
    requires capacity > 0 && Body(t, capacity).Some?
    ensures Unescape(Raw(t, capacity)) == Some(Body(t, capacity).value.0)
    decreases |t|
  {
    if t[0] != QUOTE {
      var n := if t[0] == BACKSLASH then 2 else 1;
      BodyWasRead(t[n..], capacity - 1);
      CharacterWasRead(t, n, capacity);
    }
  }

  lemma StringWasRead(t: Bytes, capacity: nat)
    requires capacity > 0 && String(t, capacity).Some?
    ensures
      var (value, rest) := String(t, capacity).value;
      var body := Raw(t[1..], capacity);
      t == [QUOTE] + body + [QUOTE] + rest && Unescape(body) == Some(value)
  {
    BodyWasRead(t[1..], capacity);
  }

  /** What is read is exactly a quoted text of the accepted form, whose value fits. */
  lemma StringExactly(t: Bytes, capacity: nat, value: Bytes, rest: Bytes)
    requires capacity > 0
    ensures String(t, capacity) == Some((value, rest)) <==>
              exists body :: t == [QUOTE] + body + [QUOTE] + rest && Unescape(body) == Some(value) && |value| < capacity
  {
    if String(t, capacity) == Some((value, rest)) {
      StringWasRead(t, capacity);
    }
    forall body | t == [QUOTE] + body + [QUOTE] + rest && Unescape(body) == Some(value) && |value| < capacity
      ensures String(t, capacity) == Some((value, rest))
    {
      StringReads(body, rest, capacity);
    }
  }

  lemma StringReads(body: Bytes, rest: Bytes, capacity: nat)
    requires capacity > 0 && Unescape(body).Some? && |Unescape(body).value| < capacity
    ensures String([QUOTE] + body + [QUOTE] + rest, capacity) == Some((Unescape(body).value, rest))
  {
    BodyReads(body, rest, capacity);
    assert ([QUOTE] + body + [QUOTE] + rest)[1..] == body + [QUOTE] + rest;
  }

  lemma PrependTwice(s: Bytes, x: Bytes, r: Option<(Bytes, Bytes)>)
    ensures PrependTo(s, PrependTo(x, r)) == PrependTo(s + x, r)
  {
    if r.Some? {
      assert s + (x + r.value.0) == s + x + r.value.0;
    }
  }

  lemma PrependNothing(r: Option<(Bytes, Bytes)>)
    ensures PrependTo([], r) == r
  {
    if r.Some? {
      assert [] + r.value.0 == r.value.0;
    }
  }

  /** The string whose value so far is `output`, with `u` still to be read. */
  function ReadOn(output: Bytes, u: Bytes, capacity: nat): Option<(Bytes, Bytes)>
    requires |output| < capacity
  {
    PrependTo(output, Body(u, capacity - |output|))
  }

  /** The first `n` bytes stand for the character `c`. */
  predicate Stands(u: Bytes, n: nat, c: byte) {
    && 0 < n <= |u| && u[0] != QUOTE && u[n - 1] == c
    && if u[0] == BACKSLASH then n == 2 && Escapable(c) else n == 1
  }

  /** A character at the front moves to the value, when it may and there is room. */
  lemma BodyStep(output: Bytes, u: Bytes, n: nat, c: byte, capacity: nat)
    requires Stands(u, n, c) && |output| < capacity
    ensures Control(c) || |output| + 1 >= capacity ==> ReadOn(output, u, capacity) == None
    ensures !Control(c) && |output| + 1 < capacity ==>
              ReadOn(output, u, capacity) == ReadOn(output + [c], u[n..], capacity)
  {
    if !Control(c) && |output| + 1 < capacity {
      PrependTwice(output, [c], Body(u[n..], capacity - |output| - 1));
    }
  }

  /** The loop of json_string, from the first character on. */
  method ReadBody(json: Bytes, start: nat, capacity: nat) returns (r: Option<(Bytes, nat)>)
    requires start <= |json| && capacity > 0
    ensures r.None? <==> Body(json[start..], capacity).None?
    ensures r.Some? ==> start < r.value.1 <= |json| &&
                        Body(json[start..], capacity) == Some((r.value.0, json[r.value.1..]))
  {
    var i, output := start, [];
    PrependNothing(Body(json[start..], capacity));
    while i < |json| && json[i] != QUOTE
      invariant start <= i <= |json| && |output| < capacity
      invariant ReadOn(output, json[i..], capacity) == Body(json[start..], capacity)
    {
      var c, n := json[i], 1;
      if c == BACKSLASH {
        if i + 1 >= |json| { return None; }
        c, n := json[i + 1], 2;
        if !Escapable(c) { return None; }
      }
      BodyStep(output, json[i..], n, c, capacity);
      assert json[i..][n..] == json[i + n..];
      if Control(c) || |output| + 1 >= capacity { return None; }
      i, output := i + n, output + [c];
    }
    if i >= |json| { return None; }
    assert json[i..][1..] == json[i + 1..];
    assert output + [] == output;
    return Some((output, i + 1));
  }

  /** json_string over a buffer of `capacity` bytes; the answer is the value and the new cursor. */
  method ReadString(json: Bytes, cursor: nat, capacity: nat) returns (r: Option<(Bytes, nat)>)
    requires cursor <= |json| && capacity > 0
    ensures r.None? <==> String(json[cursor..], capacity).None?
    ensures r.Some? ==> cursor < r.value.1 <= |json| &&
                        String(json[cursor..], capacity) == Some((r.value.0, json[r.value.1..]))
  {
    if cursor >= |json| || json[cursor] != QUOTE { return None; }
    assert json[cursor..][1..] == json[cursor + 1..];
    r := ReadBody(json, cursor + 1, capacity);
  }

  // ---------------------------------------------------------------- escaping

  function HexDigit(n: byte): byte { if n < 10 then 0x30 + n else 0x57 + n }

  function EscapeByte(b: byte): Bytes {
    if b == QUOTE || b == BACKSLASH then [BACKSLASH, b]
    else if Control(b) then [BACKSLASH, 0x75, 0x30, 0x30, HexDigit(b >> 4), HexDigit(b & 0x0F)]
    else [b]
  }

  function Escape(s: Bytes): Bytes {
    if s == [] then [] else EscapeByte(s[0]) + Escape(s[1..])
  }

  /** json_escape_string into a buffer of `size` bytes: the escaped text when it fits with its terminator. */
  method EscapeString(input: CString, size: nat) returns (r: Option<Bytes>)
    ensures r == if |Escape(input)| < size then Some(Escape(input)) else None
  {
    if size == 0 { return None; }
    var output, i := [], 0;
    while At(input, i) != 0
      invariant i <= |input| && output + Escape(input[i..]) == Escape(input) && |output| < size
      decreases |input| - i
    {
      ghost var u := input[i..];
      var b := input[i];
      assert u[1..] == input[i + 1..];
      assert Escape(input) == output + EscapeByte(b) + Escape(u[1..]);
      if b == QUOTE || b == BACKSLASH {
        if |output| + 2 >= size { return None; }
        output := output + [BACKSLASH, b];
      } else if Control(b) {
        if |output| + 6 >= size { return None; }
        output := output + [BACKSLASH, 0x75, 0x30, 0x30, HexDigit(b >> 4), HexDigit(b & 0x0F)];
      } else {
        if |output| + 1 >= size { return None; }
        output := output + [b];
      }
      i := i + 1;
    }
    assert Escape(input[i..]) == [];
    assert output == Escape(input);
    return Some(output);
  }

  predicate NoControls(s: Bytes) { forall i :: 0 <= i < |s| ==> !Control(s[i]) }

  /** Reading undoes escaping exactly on the strings without control bytes; the reader knows no \u form. */
  lemma {:induction false} UnescapeUndoesEscape(s: Bytes)
    ensures Unescape(Escape(s)) == if NoControls(s) then Some(s) else None
  {
    if s != [] {
      var b, rest := s[0], s[1..];
      assert s == [b] + rest;
      UnescapeUndoesEscape(rest);
      if Control(b) {
        assert Escape(s)[0] == BACKSLASH && Escape(s)[1] == 0x75;
      } else {
        UnescapeStep(EscapeByte(b), Escape(rest));
        assert NoControls(s) <==> NoControls(rest);
      }
    }
  }

  /** json_string gives back what json_escape_string wrote if and only if it has no control byte and fits. */
  lemma StringRoundTrip(s: Bytes, rest: Bytes, capacity: nat)
    requires capacity > 0
    ensures String([QUOTE] + Escape(s) + [QUOTE] + rest, capacity) == Some((s, rest)) <==>
            NoControls(s) && |s| < capacity
  {
    var t := [QUOTE] + Escape(s) + [QUOTE] + rest;
    UnescapeUndoesEscape(s);
    StringExactly(t, capacity, s, rest);
    forall body | t == [QUOTE] + body + [QUOTE] + rest ensures body == Escape(s) {
      SameBody(body, Escape(s), rest);
    }
  }

  lemma SameBody(x: Bytes, y: Bytes, rest: Bytes)
    requires [QUOTE] + x + [QUOTE] + rest == [QUOTE] + y + [QUOTE] + rest
    ensures x == y
  {
    var t := [QUOTE] + x + [QUOTE] + rest;
    assert x == t[1..|t| - 1 - |rest|] == y;
  }

  // ---------------------------------------------------------------- what an escaped text means to any JSON reader

  predicate IsHex(b: byte) { 0x30 <= b <= 0x39 || 0x61 <= b <= 0x66 }

  function HexValue(b: byte): byte
    requires IsHex(b)
  {
    if b <= 0x39 then b - 0x30 else b - 0x57
  }

  /** The characters that a backslash and one letter stand for, section 7 of RFC 8259. */
  function ShortEscape(c: byte): Option<byte> {
    if Escapable(c) then Some(c)
    else if c == 0x62 then Some(0x08)
    else if c == 0x66 then Some(0x0C)
    else if c == 0x6E then Some(0x0A)
    else if c == 0x72 then Some(0x0D)
    else if c == 0x74 then Some(0x09)
    else None
  }

  /** The string a JSON text stands for by section 7 of RFC 8259, its \u escapes limited to ASCII. */
  function Meaning(body: Bytes): Option<Bytes>
    decreases |body|
  {
    if body == [] then Some([])
    else if body[0] == QUOTE || Control(body[0]) then None
    else if body[0] != BACKSLASH then Prepend([body[0]], Meaning(body[1..]))
    else if |body| < 2 then None
    else if body[1] == 0x75 then
      if |body| >= 6 && body[2] == 0x30 && body[3] == 0x30 && IsHex(body[4]) && IsHex(body[5]) &&
         HexValue(body[4]) < 8 then
        Prepend([(HexValue(body[4]) << 4) | HexValue(body[5])], Meaning(body[6..]))
      else None
    else if ShortEscape(body[1]).Some? then Prepend([ShortEscape(body[1]).value], Meaning(body[2..]))
    else None
  }

  lemma HexPair(b: byte)
    requires Control(b)
    ensures IsHex(HexDigit(b >> 4)) && IsHex(HexDigit(b & 0x0F)) && HexValue(HexDigit(b >> 4)) < 8
    ensures (HexValue(HexDigit(b >> 4)) << 4) | HexValue(HexDigit(b & 0x0F)) == b
  {
  }

  /** Escaping keeps every string, control bytes included: a conforming reader gets it back. */
  lemma {:induction false} EscapeKeepsMeaning(s: Bytes)
    ensures Meaning(Escape(s)) == Some(s)
  {
    if s != [] {
      var b, rest, t := s[0], s[1..], Escape(s);
      EscapeKeepsMeaning(rest);
      assert s == [b] + rest;
      assert t[|EscapeByte(b)|..] == Escape(rest);
      if Control(b) {
        HexPair(b);
      }
    }
  }

  // ---------------------------------------------------------------- numbers

  /** How many digits `t` starts with. */
  function DigitRun(t: Bytes): (k: nat)
    ensures k <= |t| && (forall i :: 0 <= i < k ==> IsDigit(t[i])) && (k < |t| ==> !IsDigit(t[k]))
  {
    if t == [] || !IsDigit(t[0]) then 0 else 1 + DigitRun(t[1..])
  }

  /** json_u64 accepts exactly the canonical decimals below 2^64. */
  function Number(t: Bytes): Option<(nat, Bytes)> {
    var digits := t[..DigitRun(t)];
    if Canonical(digits) && Value(digits) < U64_LIMIT then Some((Value(digits), t[|digits|..])) else None
  }

  lemma DigitRunIs(t: Bytes, k: nat)
    requires k <= |t| && AllDigits(t[..k]) && (k < |t| ==> !IsDigit(t[k]))
    ensures DigitRun(t) == k
  {
    assert forall i :: 0 <= i < k ==> t[i] == t[..k][i];
  }

  /** Whatever is printed and not followed by another digit is read back, if it is a 64-bit number. */
  lemma NumberRoundTrip(n: nat, rest: Bytes)
    requires rest != [] ==> !IsDigit(rest[0])
    ensures Number(Print(n) + rest) == if n < U64_LIMIT then Some((n, rest)) else None
  {
    PrintRoundTrip(n);
    var t := Print(n) + rest;
    assert t[..|Print(n)|] == Print(n);
    DigitRunIs(t, |Print(n)|);
  }

  /** json_u64: the overflow test before each step is exact. */
  method ReadNumber(json: Bytes, cursor: nat) returns (r: Option<(nat, nat)>)
    requires cursor <= |json|
    ensures r.None? <==> Number(json[cursor..]).None?
    ensures r.Some? ==> cursor < r.value.1 <= |json| && Number(json[cursor..]) == Some((r.value.0, json[r.value.1..]))
  {
    ghost var t := json[cursor..];
    ghost var k := DigitRun(t);
    var number, i := 0, cursor;
    while i < |json| && IsDigit(json[i])
      invariant cursor <= i <= cursor + k
      invariant number == Value(t[..i - cursor]) < U64_LIMIT
    {
      ghost var n := i - cursor;
      assert t[n] == json[i];
      assert n < k;
      var digit := DigitValue(json[i]);
      assert t[..n + 1][..n] == t[..n] && t[..n + 1][n] == t[n];
      assert Value(t[..n + 1]) == 10 * number + digit;
      if number > (U64_LIMIT - 1 - digit) / 10 {
        assert t[..k][..n + 1] == t[..n + 1];
        ValuePrefix(t[..k], n + 1);
        return None;
      }
      number := number * 10 + digit;
      i := i + 1;
    }
    assert i - cursor == k;
    assert t[k..] == json[i..];
    if i == cursor { return None; }
    if i - cursor > 1 && json[cursor] == 0x30 { return None; }
    return Some((number, i));
  }
}
