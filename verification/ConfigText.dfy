/** The text handling of src/config.c: white space, separators, numbers and the syntax of a destination path. */
module ConfigText {
  import opened Bytes
  import opened Decimal

  const NEWLINE: byte := 0x0A
  const SLASH: byte := 0x2F
  const DOT: byte := 0x2E

  /** isspace in the C locale. */
  predicate Space(b: byte) { b == 0x20 || 0x09 <= b <= 0x0D }

  // ---------------------------------------------------------------- trim

  function TrimLeft(s: Bytes): (r: Bytes)
    ensures r != [] ==> !Space(r[0])
  {
    if s != [] && Space(s[0]) then TrimLeft(s[1..]) else s
  }

  function TrimRight(s: Bytes): (r: Bytes)
    ensures r <= s && (r != [] ==> !Space(r[|r| - 1]))
  {
    if s != [] && Space(s[|s| - 1]) then TrimRight(s[..|s| - 1]) else s
  }

  function Trim(s: Bytes): Bytes { TrimRight(TrimLeft(s)) }

  predicate Trimmed(s: Bytes) { s != [] ==> !Space(s[0]) && !Space(s[|s| - 1]) }

  predicate Spaces(s: Bytes) { forall i :: 0 <= i < |s| ==> Space(s[i]) }

  lemma {:induction false} TrimLeftDrops(w: Bytes, s: Bytes)
    requires Spaces(w) && (s != [] ==> !Space(s[0]))
    ensures TrimLeft(w + s) == s
  {
    if w == [] {
      assert w + s == s;
    } else {
      assert (w + s)[1..] == w[1..] + s;
      TrimLeftDrops(w[1..], s);
    }
  }

  lemma {:induction false} TrimRightDrops(s: Bytes, w: Bytes)
    requires Spaces(w) && (s != [] ==> !Space(s[|s| - 1]))
    ensures TrimRight(s + w) == s
  {
    if w == [] {
      assert s + w == s;
    } else {
      assert (s + w)[..|s + w| - 1] == s + w[..|w| - 1];
      TrimRightDrops(s, w[..|w| - 1]);
    }
  }

  /** Trimming finds a trimmed text inside any white space, and leaves it alone. */
  lemma TrimFinds(w: Bytes, s: Bytes, v: Bytes)
    requires Spaces(w) && Spaces(v) && Trimmed(s) && s != []
    ensures Trim(w + s + v) == s
  {
    assert w + s + v == w + (s + v);
    TrimLeftDrops(w, s + v);
    TrimRightDrops(s, v);
  }

  lemma {:induction false} TrimIsTrimmed(s: Bytes)
    ensures Trimmed(Trim(s))
    ensures Trim(s) == s <==> Trimmed(s)
  {
    var t := TrimLeft(s);
    assert Trim(s) <= t;
    if Trimmed(s) && s != [] {
      TrimFinds([], s, []);
      assert [] + s + [] == s;
    }
  }

  /** Bytes that are not there before are not there after. */
  lemma {:induction false} TrimKeepsOut(s: Bytes, b: byte)
    requires b !in s
    ensures b !in Trim(s) && |Trim(s)| <= |s|
  {
    LeftKeepsOut(s, b);
  }

  lemma {:induction false} LeftKeepsOut(s: Bytes, b: byte)
    requires b !in s
    ensures b !in TrimLeft(s) && |TrimLeft(s)| <= |s|
  {
    if s != [] && Space(s[0]) { LeftKeepsOut(s[1..], b); }
  }

  method FirstNonSpace(text: CString) returns (start: nat)
    ensures start <= |text| && text[start..] == TrimLeft(text)
  {
    start := 0;
    while Space(At(text, start))
      invariant start <= |text| && TrimLeft(text[start..]) == TrimLeft(text)
      decreases |text| - start
    {
      assert text[start..][1..] == text[start + 1..];
      start := start + 1;
    }
  }

  method LastNonSpace(text: Bytes) returns (end: nat)
    ensures end <= |text| && text[..end] == TrimRight(text)
  {
    end := |text|;
    assert text[..end] == text;
    while end > 0 && Space(text[end - 1])
      invariant end <= |text| && TrimRight(text[..end]) == TrimRight(text)
    {
      assert text[..end][..end - 1] == text[..end - 1];
      end := end - 1;
    }
  }

  /** trim: the pointer moves forward, then the end moves back. */
  method TrimText(text: CString) returns (r: Bytes)
    ensures r == Trim(text)
  {
    var start := FirstNonSpace(text);
    var end := LastNonSpace(text[start..]);
    r := text[start..][..end];
  }

  // ---------------------------------------------------------------- strchr

  function Find(s: Bytes, b: byte): (k: Option<nat>)
    ensures k.None? ==> forall i :: 0 <= i < |s| ==> s[i] != b
    ensures k.Some? ==> k.value < |s| && s[k.value] == b && forall i :: 0 <= i < k.value ==> s[i] != b
  {
    if s == [] then None
    else if s[0] == b then Some(0)
    else
      match Find(s[1..], b)
      case None => None
      case Some(k) => Some(k + 1)
  }

  /** The first place of `b`, or the end when there is none. */
  lemma FindIs(s: Bytes, b: byte, k: nat)
    requires k <= |s| && (forall i :: 0 <= i < k ==> s[i] != b) && (k < |s| ==> s[k] == b)
    ensures Find(s, b) == if k < |s| then Some(k) else None
  {
  }

  lemma FindFirst(x: Bytes, b: byte, y: Bytes)
    requires b !in x
    ensures Find(x + [b] + y, b) == Some(|x|)
  {
    assert (x + [b] + y)[|x|] == b;
    FindIs(x + [b] + y, b, |x|);
  }

  // ---------------------------------------------------------------- parse_u64

  /** parse_u64 around strtoull, which skips white space, takes a sign, and sets ERANGE above 64 bits. */
  function ParseU64(text: Bytes, minimum: nat, maximum: nat): Option<nat> {
    if text == [] || text[0] == 0x2D || text[0] == 0x2B then None
    else
      var t := TrimLeft(text);
      var negative := t != [] && t[0] == 0x2D;
      var digits := if t != [] && (t[0] == 0x2D || t[0] == 0x2B) then t[1..] else t;
      if digits == [] || !AllDigits(digits) || Value(digits) >= U64_LIMIT then None
      else
        var v := if negative then (U64_LIMIT - Value(digits)) % U64_LIMIT else Value(digits);
        if v < minimum || v > maximum then None else Some(v)
  }

  /** On a trimmed text it accepts exactly the digit strings whose number is in range. */
  lemma ParseU64Exactly(text: Bytes, minimum: nat, maximum: nat)
    requires Trimmed(text) && maximum < U64_LIMIT
    ensures ParseU64(text, minimum, maximum) ==
            if text != [] && AllDigits(text) && minimum <= Value(text) <= maximum then Some(Value(text)) else None
  {
    if text != [] {
      TrimLeftDrops([], text);
      assert [] + text == text;
    }
  }

  lemma ParsePrinted(n: nat, minimum: nat, maximum: nat)
    requires minimum <= n <= maximum < U64_LIMIT
    ensures ParseU64(Print(n), minimum, maximum) == Some(n) && Trimmed(Print(n)) && Print(n) != []
  {
    PrintRoundTrip(n);
    var s := Print(n);
    assert IsDigit(s[0]) && IsDigit(s[|s| - 1]);
    ParseU64Exactly(s, minimum, maximum);
  }

  // ---------------------------------------------------------------- destination_syntax_is_safe

  predicate BadByte(b: byte) { b < 0x20 || b == 0x7F || b == 0x5C || b == 0x22 }

  predicate NoBadBytes(s: Bytes) { forall i :: 0 <= i < |s| ==> !BadByte(s[i]) }

  const DEV: Bytes := [0x64, 0x65, 0x76]
  const PROC: Bytes := [0x70, 0x72, 0x6F, 0x63]
  const SYS: Bytes := [0x73, 0x79, 0x73]

  /** `path` is /`root` or lies under it. */
  predicate Under(path: Bytes, root: Bytes) {
    [SLASH] + root <= path && (|path| == |root| + 1 || path[|root| + 1] == SLASH)
  }

  predicate SegmentOk(s: Bytes) { s != [] && s != [DOT] && s != [DOT, DOT] }

  /** Every segment of what follows the first slash. */
  predicate SegmentsOk(s: Bytes)
    decreases |s|
  {
    match Find(s, SLASH)
    case None => SegmentOk(s)
    case Some(k) => SegmentOk(s[..k]) && SegmentsOk(s[k + 1..])
  }

  predicate PathSafe(path: Bytes) {
    && |path| > 1 && path[0] == SLASH
    && !Under(path, DEV) && !Under(path, PROC) && !Under(path, SYS)
    && NoBadBytes(path)
    && SegmentsOk(path[1..])
  }

  /** How long the segment is that starts here. */
  method SegmentSize(segment: CString) returns (k: nat)
    ensures k <= |segment| && Find(segment, SLASH) == if k < |segment| then Some(k) else None
  {
    k := 0;
    while At(segment, k) != SLASH && At(segment, k) != 0
      invariant k <= |segment|
      invariant forall i :: 0 <= i < k ==> segment[i] != SLASH
      decreases |segment| - k
    {
      k := k + 1;
    }
    FindIs(segment, SLASH, k);
  }

  lemma FirstSegment(s: Bytes, k: nat)
    requires k <= |s| && Find(s, SLASH) == if k < |s| then Some(k) else None
    ensures SegmentsOk(s) <==> SegmentOk(s[..k]) && (k < |s| ==> SegmentsOk(s[k + 1..]))
  {
    assert k == |s| ==> s[..k] == s;
  }

  /** The loop over the segments; the pointer to the current one is the text from there on. */
  method CheckSegments(path: CString) returns (ok: bool)
    requires |path| > 1
    ensures ok == SegmentsOk(path[1..])
  {
    var segment: CString := path[1..];
    while true
      invariant SegmentsOk(path[1..]) == SegmentsOk(segment)
      decreases |segment|
    {
      var k := SegmentSize(segment);
      FirstSegment(segment, k);
      if !SegmentOk(segment[..k]) { return false; }
      if At(segment, k) == 0 { return true; }
      segment := segment[k + 1..];
    }
  }

  /** destination_syntax_is_safe. */
  method DestinationSyntaxIsSafe(path: CString) returns (ok: bool)
    ensures ok == PathSafe(path)
  {
    if At(path, 0) != SLASH || At(path, 1) == 0 { return false; }
    if Under(path, DEV) || Under(path, PROC) || Under(path, SYS) { return false; }
    var cursor := 0;
    while At(path, cursor) != 0
      invariant cursor <= |path|
      invariant forall i :: 0 <= i < cursor ==> !BadByte(path[i])
      decreases |path| - cursor
    {
      if BadByte(path[cursor]) { return false; }
      cursor := cursor + 1;
    }
    ok := CheckSegments(path);
  }

  // ---------------------------------------------------------------- what a safe path is

  predicate GoodSegment(s: Bytes) { SegmentOk(s) && SLASH !in s && NoBadBytes(s) }

  function JoinSegments(segments: seq<Bytes>): Bytes {
    if segments == [] then [] else [SLASH] + (segments[0] + JoinSegments(segments[1..]))
  }

  function Split(s: Bytes): (r: seq<Bytes>)
    ensures r != []
    decreases |s|
  {
    match Find(s, SLASH)
    case None => [s]
    case Some(k) => [s[..k]] + Split(s[k + 1..])
  }

  predicate AllGood(segments: seq<Bytes>) { forall i :: 0 <= i < |segments| ==> GoodSegment(segments[i]) }

  lemma {:induction false} SplitJoins(s: Bytes)
    requires SegmentsOk(s) && NoBadBytes(s)
    ensures JoinSegments(Split(s)) == [SLASH] + s && AllGood(Split(s))
    decreases |s|
  {
    match Find(s, SLASH)
    case None =>
      assert JoinSegments([s][1..]) == [];
      assert [SLASH] + s + [] == [SLASH] + s;
    case Some(k) =>
      var head, rest := s[..k], s[k + 1..];
      SplitJoins(rest);
      assert s == head + [SLASH] + rest;
      SplitStep(head, Split(rest), rest);
  }

  lemma SplitStep(head: Bytes, more: seq<Bytes>, rest: Bytes)
    requires GoodSegment(head) && AllGood(more) && JoinSegments(more) == [SLASH] + rest
    ensures JoinSegments([head] + more) == [SLASH] + (head + [SLASH] + rest) && AllGood([head] + more)
  {
    assert ([head] + more)[1..] == more;
    assert [SLASH] + head + ([SLASH] + rest) == [SLASH] + (head + [SLASH] + rest);
  }

  /** What follows the first slash. */
  lemma JoinTail(segments: seq<Bytes>)
    requires segments != []
    ensures JoinSegments(segments)[1..] == segments[0] + JoinSegments(segments[1..])
  {
  }

  lemma {:induction false} JoinedIsOk(segments: seq<Bytes>)
    requires segments != [] && AllGood(segments)
    ensures SegmentsOk(JoinSegments(segments)[1..])
    decreases |segments|
  {
    var head, rest := segments[0], JoinSegments(segments[1..]);
    JoinTail(segments);
    if |segments| == 1 {
      assert head + rest == head;
      FindIs(head, SLASH, |head|);
    } else {
      JoinedIsOk(segments[1..]);
      assert rest == [SLASH] + rest[1..];
      assert head + rest == head + [SLASH] + rest[1..];
      SegmentThen(head, rest[1..]);
    }
  }

  lemma SegmentThen(head: Bytes, more: Bytes)
    requires GoodSegment(head) && SegmentsOk(more)
    ensures SegmentsOk(head + [SLASH] + more)
  {
    var s := head + [SLASH] + more;
    FindFirst(head, SLASH, more);
    assert s[..|head|] == head && s[|head| + 1..] == more;
  }

  lemma {:induction false} JoinedBytes(segments: seq<Bytes>)
    requires AllGood(segments)
    ensures NoBadBytes(JoinSegments(segments))
    decreases |segments|
  {
    if segments != [] { JoinedBytes(segments[1..]); }
  }

  /** Being under a root is a matter of the first segment. */
  lemma UnderFirst(segments: seq<Bytes>, root: Bytes)
    requires segments != [] && GoodSegment(segments[0]) && SLASH !in root
    ensures Under(JoinSegments(segments), root) <==> segments[0] == root
  {
    var head, rest := segments[0], JoinSegments(segments[1..]);
    assert rest != [] ==> rest[0] == SLASH;
    UnderHead(head, rest, root);
    assert [SLASH] + head + rest == JoinSegments(segments);
  }

  lemma UnderHead(head: Bytes, rest: Bytes, root: Bytes)
    requires SLASH !in head && SLASH !in root && (rest != [] ==> rest[0] == SLASH)
    ensures Under([SLASH] + head + rest, root) <==> head == root
  {
    var path := [SLASH] + head + rest;
    assert forall i :: 0 <= i < |head| ==> path[i + 1] == head[i];
    assert rest != [] ==> path[|head| + 1] == SLASH;
    if [SLASH] + root <= path {
      assert forall i :: 0 <= i < |root| ==> path[i + 1] == ([SLASH] + root)[i + 1] == root[i];
      assert |head| >= |root|;
      if |head| == |root| {
        assert head == root;
      }
    }
  }

  lemma JoinedIsSafe(path: Bytes, segments: seq<Bytes>)
    requires IsSafeJoin(path, segments)
    ensures PathSafe(path)
  {
    JoinedIsOk(segments);
    JoinedBytes(segments);
    UnderFirst(segments, DEV);
    UnderFirst(segments, PROC);
    UnderFirst(segments, SYS);
  }

  lemma SafeIsJoined(path: Bytes)
    requires PathSafe(path)
    ensures IsSafeJoin(path, Split(path[1..]))
  {
    var segments := Split(path[1..]);
    SplitJoins(path[1..]);
    assert path == [SLASH] + path[1..];
    UnderFirst(segments, DEV);
    UnderFirst(segments, PROC);
    UnderFirst(segments, SYS);
  }

  /** The safe paths are exactly the absolute paths of good segments that do not start in /dev, /proc or /sys. */
  lemma PathSafeExactly(path: Bytes)
    ensures PathSafe(path) <==> exists segments :: IsSafeJoin(path, segments)
  {
    if PathSafe(path) {
      SafeIsJoined(path);
    }
    forall segments | IsSafeJoin(path, segments) ensures PathSafe(path) {
      JoinedIsSafe(path, segments);
    }
  }

  predicate IsSafeJoin(path: Bytes, segments: seq<Bytes>) {
    && segments != [] && path == JoinSegments(segments)
    && AllGood(segments)
    && segments[0] != DEV && segments[0] != PROC && segments[0] != SYS
  }
}
