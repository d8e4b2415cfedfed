/** The Content-Range header of a chunk: written by uploadChunks of web/app.js, read by src/router.c. */
module ContentRange {
  import opened Bytes
  import opened Decimal
  import opened Json
  import Upload
  import UploadStaging

  const BYTES_UNIT: Bytes := [0x62, 0x79, 0x74, 0x65, 0x73, 0x20]
  const DASH: byte := 0x2D

  datatype Extent = Extent(offset: nat, length: nat, total: nat)

  /** parse_range_number: strtoull on a digit, which sets errno above 64 bits. Leading zeros are read. */
  function RangeNumber(t: Bytes): (r: Option<(nat, Bytes)>)
    ensures r.Some? ==> |r.value.1| < |t|
  {
    var k := DigitRun(t);
    assert forall i :: 0 <= i < k ==> t[..k][i] == t[i];
    if k == 0 || Value(t[..k]) >= U64_LIMIT then None else Some((Value(t[..k]), t[k..]))
  }

  /** A number, then one more byte. */
  function NumberThen(t: Bytes, b: byte): Option<(nat, Bytes)> {
    match RangeNumber(t)
    case None => None
    case Some((n, rest)) => if rest != [] && rest[0] == b then Some((n, rest[1..])) else None
  }

  /** The three numbers after the unit. */
  function Numbers(s: Bytes): Option<(nat, nat, nat)> {
    match NumberThen(s, DASH)
    case None => None
    case Some((first, t)) =>
      match NumberThen(t, SLASH)
      case None => None
      case Some((last, u)) =>
        match RangeNumber(u)
        case None => None
        case Some((total, rest)) => if rest == [] then Some((first, last, total)) else None
  }

  /** parse_content_range. */
  function Parse(v: Bytes): Option<Extent> {
    match Strip(BYTES_UNIT, v)
    case None => None
    case Some(s) => Checked(Numbers(s))
  }

  function Checked(n: Option<(nat, nat, nat)>): Option<Extent> {
    match n
    case None => None
    case Some((first, last, total)) =>
      if last < first || total == 0 || last >= total then None else Some(Extent(first, last - first + 1, total))
  }

  /** What follows `prefix` in `v`, by strncmp. */
  function Strip(prefix: Bytes, v: Bytes): Option<Bytes>
  {
    if prefix == [] then Some(v)
    else if v == [] || v[0] != prefix[0] then None
    else Strip(prefix[1..], v[1..])
  }

  lemma {:induction false} StripExactly(prefix: Bytes, v: Bytes)
    ensures Strip(prefix, v) == if prefix <= v then Some(v[|prefix|..]) else None
  {
    if prefix != [] && v != [] && v[0] == prefix[0] {
      StripExactly(prefix[1..], v[1..]);
      assert prefix == [prefix[0]] + prefix[1..] && v == [v[0]] + v[1..];
      if prefix[1..] <= v[1..] {
        assert v[1..][|prefix| - 1..] == v[|prefix|..];
      }
    }
  }

  predicate DigitText(x: Bytes) { x != [] && AllDigits(x) }

  /** A header of digit strings. */
  function Range(x: Bytes, y: Bytes, z: Bytes): Bytes { x + [DASH] + (y + [SLASH] + z) }
  function Header(x: Bytes, y: Bytes, z: Bytes): Bytes { BYTES_UNIT + Range(x, y, z) }

  lemma RangeNumberReads(x: Bytes, rest: Bytes)
    requires DigitText(x) && (rest != [] ==> !IsDigit(rest[0]))
    ensures RangeNumber(x + rest) == if Value(x) < U64_LIMIT then Some((Value(x), rest)) else None
  {
    assert (x + rest)[..|x|] == x;
    DigitRunIs(x + rest, |x|);
  }

  lemma NumberThenReads(x: Bytes, b: byte, rest: Bytes)
    requires DigitText(x) && !IsDigit(b)
    ensures NumberThen(x + [b] + rest, b) == if Value(x) < U64_LIMIT then Some((Value(x), rest)) else None
  {
    assert x + [b] + rest == x + ([b] + rest);
    RangeNumberReads(x, [b] + rest);
    assert ([b] + rest)[1..] == rest;
  }

  /** The digits that were read. */
  function Digits(t: Bytes): (x: Bytes)
    requires RangeNumber(t).Some?
    ensures DigitText(x) && t == x + RangeNumber(t).value.1 && Value(x) == RangeNumber(t).value.0 < U64_LIMIT
  {
    var k := DigitRun(t);
    assert forall i :: 0 <= i < k ==> t[..k][i] == t[i];
    t[..k]
  }

  /** Three numbers, each of at most 64 bits. */
  function Bounded(a: nat, b: nat, c: nat): Option<(nat, nat, nat)> {
    if a < U64_LIMIT && b < U64_LIMIT && c < U64_LIMIT then Some((a, b, c)) else None
  }

  lemma NumbersRead(x: Bytes, y: Bytes, z: Bytes)
    requires DigitText(x) && DigitText(y) && DigitText(z)
    ensures Numbers(Range(x, y, z)) == Bounded(Value(x), Value(y), Value(z))
  {
    NumberThenReads(x, DASH, y + [SLASH] + z);
    NumberThenReads(y, SLASH, z);
    RangeNumberReads(z, []);
    assert z + [] == z;
  }

  lemma NumberThenWasRead(t: Bytes, b: byte)
    requires NumberThen(t, b).Some?
    ensures t == Digits(t) + [b] + NumberThen(t, b).value.1 && Value(Digits(t)) == NumberThen(t, b).value.0 < U64_LIMIT
  {
    var rest := RangeNumber(t).value.1;
    assert rest == [b] + rest[1..];
  }

  lemma NumbersWereRead(s: Bytes) returns (x: Bytes, y: Bytes, z: Bytes)
    requires Numbers(s).Some?
    ensures DigitText(x) && DigitText(y) && DigitText(z) && s == Range(x, y, z)
    ensures Numbers(s) == Some((Value(x), Value(y), Value(z)))
    ensures Value(x) < U64_LIMIT && Value(y) < U64_LIMIT && Value(z) < U64_LIMIT
  {
    var (first, t) := NumberThen(s, DASH).value;
    var (last, u) := NumberThen(t, SLASH).value;
    NumberThenWasRead(s, DASH);
    NumberThenWasRead(t, SLASH);
    x, y, z := Digits(s), Digits(t), Digits(u);
    assert z == u;
  }

  lemma StripJoined(prefix: Bytes, s: Bytes)
    ensures Strip(prefix, prefix + s) == Some(s)
  {
    StripExactly(prefix, prefix + s);
    assert (prefix + s)[|prefix|..] == s;
  }

  lemma ParseJoined(s: Bytes)
    ensures Parse(BYTES_UNIT + s) == Checked(Numbers(s))
  {
    StripJoined(BYTES_UNIT, s);
  }

  /** The extent that three numbers name: none when they are out of order or too large. */
  function Named(first: nat, last: nat, total: nat): Option<Extent> {
    if first <= last < total < U64_LIMIT then Some(Extent(first, last - first + 1, total)) else None
  }

  lemma CheckedNames(a: nat, b: nat, c: nat)
    ensures Checked(Bounded(a, b, c)) == Named(a, b, c)
  {
  }

  /** Three digit strings are read as the extent they name. */
  lemma ParseHeader(x: Bytes, y: Bytes, z: Bytes)
    requires DigitText(x) && DigitText(y) && DigitText(z)
    ensures Parse(Header(x, y, z)) == Named(Value(x), Value(y), Value(z))
  {
    ParseJoined(Range(x, y, z));
    NumbersRead(x, y, z);
    CheckedNames(Value(x), Value(y), Value(z));
  }

  /** Nothing else is read. The length never wraps around, and the extent lies inside the total. */
  lemma ParseExactly(v: Bytes)
    ensures Parse(v).Some? <==>
              exists x, y, z :: DigitText(x) && DigitText(y) && DigitText(z) && v == Header(x, y, z) &&
                                Value(x) <= Value(y) < Value(z) < U64_LIMIT
    ensures Parse(v).Some? ==>
              var e := Parse(v).value;
              0 < e.length && e.offset + e.length <= e.total < U64_LIMIT
  {
    if Parse(v).Some? {
      StripExactly(BYTES_UNIT, v);
      var s := Strip(BYTES_UNIT, v).value;
      assert v == BYTES_UNIT + s;
      var x, y, z := NumbersWereRead(s);
      assert v == Header(x, y, z);
    }
    forall x, y, z | DigitText(x) && DigitText(y) && DigitText(z) && v == Header(x, y, z) &&
                     Value(x) <= Value(y) < Value(z) < U64_LIMIT
      ensures Parse(v).Some?
    {
      ParseHeader(x, y, z);
    }
  }

  function PrintHeader(first: nat, last: nat, total: nat): Bytes { Header(Print(first), Print(last), Print(total)) }

  lemma Printed(n: nat)
    ensures DigitText(Print(n)) && Value(Print(n)) == n
  {
    PrintRoundTrip(n);
  }

  /** Section 14.4 of RFC 9110: a printed range a-b/t is read as (a, b - a + 1, t) exactly when a <= b < t < 2^64. */
  lemma HeaderRoundTrip(first: nat, last: nat, total: nat)
    ensures Parse(PrintHeader(first, last, total)) == Named(first, last, total)
  {
    Printed(first);
    Printed(last);
    Printed(total);
    ParseHeader(Print(first), Print(last), Print(total));
  }

  /** The first byte after chunk `index`, as start() computes it. */
  function ChunkEnd(total: nat, index: nat): nat {
    var start := index * Upload.CHUNK;
    if total < start + Upload.CHUNK then total else start + Upload.CHUNK
  }

  lemma ChunkEnds(total: nat, index: nat)
    requires index < Upload.ChunkCount(total)
    ensures index * Upload.CHUNK < ChunkEnd(total, index) <= total
    ensures ChunkEnd(total, index) - index * Upload.CHUNK == Upload.ChunkLength(total, index)
    ensures (index * Upload.CHUNK) / Upload.CHUNK == index
    ensures Upload.ExtentFits(total, total, index * Upload.CHUNK, Upload.ChunkLength(total, index))
  {
    UploadStaging.ExtentsTile(total, index);
    assert (index * 0x80_0000) / 0x80_0000 == index;
    UploadStaging.AdmittedExtents(total, total, index * Upload.CHUNK, Upload.ChunkLength(total, index));
  }

  /** The header start() writes for a chunk. */
  function ChunkHeader(total: nat, index: nat): Bytes
    requires index < Upload.ChunkCount(total)
  {
    ChunkEnds(total, index);
    PrintHeader(index * Upload.CHUNK, ChunkEnd(total, index) - 1, total)
  }

  /** The printed header of an extent is read as that extent. */
  lemma ExtentHeaderReads(header: Bytes, start: nat, length: nat, end: nat, total: nat)
    requires start < end <= total < U64_LIMIT && length == end - start && header == PrintHeader(start, end - 1, total)
    ensures Parse(header) == Some(Extent(start, length, total))
  {
    HeaderRoundTrip(start, end - 1, total);
  }

  /** The router reads the header of every chunk as the extent that upload_chunk_begin admits for it (ChunkEnds). */
  lemma ChunkHeaderAdmitted(total: nat, index: nat)
    requires index < Upload.ChunkCount(total) && total < U64_LIMIT
    ensures Parse(ChunkHeader(total, index)) ==
            Some(Extent(index * Upload.CHUNK, Upload.ChunkLength(total, index), total))
  {
    ChunkEnds(total, index);
    ExtentHeaderReads(ChunkHeader(total, index), index * Upload.CHUNK, Upload.ChunkLength(total, index),
                      ChunkEnd(total, index), total);
  }

  // ---------------------------------------------------------------- with cursors

  /** `digits` is all the digits at `cursor`. */
  predicate DigitsAt(value: Bytes, cursor: nat, digits: Bytes) {
    && DigitText(digits) && cursor + |digits| <= |value| && value[cursor..cursor + |digits|] == digits
    && !IsDigit(At(value, cursor + |digits|))
  }

  /**
    parse_range_number, with the digits of strtoull taken one by one: a number is read exactly when digits stand at
    the cursor and make a 64-bit number; the cursor then stands behind the last of them.
   */
  method ReadRangeNumber(value: CString, cursor: nat) returns (r: Option<(nat, nat)>)
    requires cursor <= |value|
    ensures r.Some? ==> r.value.1 <= |value| &&
                        exists digits :: DigitsAt(value, cursor, digits) && Value(digits) == r.value.0 < U64_LIMIT &&
                                         r.value.1 == cursor + |digits|
    ensures r.None? ==> forall digits :: DigitsAt(value, cursor, digits) ==> Value(digits) >= U64_LIMIT
  {
    if !IsDigit(At(value, cursor)) { return None; }
    var number, i := 0, cursor;
    while IsDigit(At(value, i))
      invariant cursor <= i <= |value| && (i == cursor ==> IsDigit(At(value, cursor)))
      invariant AllDigits(value[cursor..i]) && number == Value(value[cursor..i]) < U64_LIMIT
      decreases |value| - i
    {
      OneMoreDigit(value, cursor, i);
      var digit := DigitValue(value[i]);
      if number > (U64_LIMIT - 1 - digit) / 10 {
        forall digits | DigitsAt(value, cursor, digits) ensures Value(digits) >= U64_LIMIT {
          DigitsReach(value, cursor, digits, i + 1);
          ValuePrefix(digits, i + 1 - cursor);
        }
        return None;
      }
      number := number * 10 + digit;
      i := i + 1;
    }
    assert DigitsAt(value, cursor, value[cursor..i]);
    return Some((number, i));
  }

  lemma OneMoreDigit(value: Bytes, cursor: nat, i: nat)
    requires cursor <= i < |value| && AllDigits(value[cursor..i]) && IsDigit(value[i])
    ensures AllDigits(value[cursor..i + 1])
    ensures Value(value[cursor..i + 1]) == 10 * Value(value[cursor..i]) + DigitValue(value[i])
  {
    var more := value[cursor..i + 1];
    assert more == value[cursor..i] + [value[i]];
    assert more[..|more| - 1] == value[cursor..i];
  }

  /** All the digits at a place include any digits that start there. */
  lemma DigitsReach(value: Bytes, cursor: nat, digits: Bytes, end: nat)
    requires DigitsAt(value, cursor, digits) && cursor <= end <= |value| && AllDigits(value[cursor..end])
    ensures end <= cursor + |digits| && digits[..end - cursor] == value[cursor..end]
  {
    assert forall i :: cursor <= i < end ==> value[i] == value[cursor..end][i - cursor] && IsDigit(value[i]);
  }

  /** The digits at a place are what RangeNumber reads there. */
  lemma DigitsAreRead(value: Bytes, cursor: nat, digits: Bytes)
    requires DigitsAt(value, cursor, digits)
    ensures RangeNumber(value[cursor..]) ==
            if Value(digits) < U64_LIMIT then Some((Value(digits), value[cursor + |digits|..])) else None
  {
    assert value[cursor..] == digits + value[cursor + |digits|..];
    RangeNumberReads(digits, value[cursor + |digits|..]);
  }

  /** And RangeNumber reads nothing else. */
  lemma ReadDigitsAt(value: Bytes, cursor: nat)
    requires cursor <= |value| && RangeNumber(value[cursor..]).Some?
    ensures DigitsAt(value, cursor, Digits(value[cursor..])) && Value(Digits(value[cursor..])) < U64_LIMIT
  {
    var t := value[cursor..];
    var k := DigitRun(t);
    assert Digits(t) == value[cursor..cursor + k];
    assert k < |t| ==> t[k] == value[cursor + k];
  }

  /** The cursor form of RangeNumber. */
  method ReadOne(value: CString, cursor: nat) returns (r: Option<(nat, nat)>)
    requires cursor <= |value|
    ensures r.None? <==> RangeNumber(value[cursor..]).None?
    ensures r.Some? ==> r.value.1 <= |value| && RangeNumber(value[cursor..]) == Some((r.value.0, value[r.value.1..]))
  {
    r := ReadRangeNumber(value, cursor);
    match r
    case None =>
      if RangeNumber(value[cursor..]).Some? { ReadDigitsAt(value, cursor); }
    case Some((number, next)) =>
      ghost var digits :| DigitsAt(value, cursor, digits) && Value(digits) == number && next == cursor + |digits|;
      DigitsAreRead(value, cursor, digits);
  }

  /** One number and the byte after it. */
  method ReadNumberThen(value: CString, cursor: nat, b: byte) returns (r: Option<(nat, nat)>)
    requires cursor <= |value| && b != 0
    ensures r.None? <==> NumberThen(value[cursor..], b).None?
    ensures r.Some? ==> r.value.1 <= |value| && NumberThen(value[cursor..], b) == Some((r.value.0, value[r.value.1..]))
  {
    var n := ReadOne(value, cursor);
    if n.None? || At(value, n.value.1) != b { return None; }
    assert value[n.value.1..][1..] == value[n.value.1 + 1..];
    return Some((n.value.0, n.value.1 + 1));
  }

  method ReadNumbers(value: CString, cursor: nat) returns (r: Option<(nat, nat, nat)>)
    requires cursor <= |value|
    ensures r == Numbers(value[cursor..])
  {
    var first := ReadNumberThen(value, cursor, DASH);
    if first.None? { return None; }
    var last := ReadNumberThen(value, first.value.1, SLASH);
    if last.None? { return None; }
    var total := ReadOne(value, last.value.1);
    if total.None? { return None; }
    assert At(value, total.value.1) == 0 <==> value[total.value.1..] == [];
    if At(value, total.value.1) != 0 { return None; }
    return Some((first.value.0, last.value.0, total.value.0));
  }

  method ParseContentRange(value: CString) returns (r: Option<Extent>)
    ensures r == Parse(value)
  {
    StripExactly(BYTES_UNIT, value);
    if !(BYTES_UNIT <= value) { return None; }
    var numbers := ReadNumbers(value, 6);
    if numbers.None? { return None; }
    var (first, last, total) := numbers.value;
    if last < first || total == 0 || last >= total { return None; }
    return Some(Extent(first, last - first + 1, total));
  }
}
