/**
  File names, src/safe_path.c: validation, and the search for a name that is free in the directory. `taken` holds
  the names for which access(2) gives anything but ENOENT.
 */
module SafePath {
  import opened Bytes
  import opened Decimal
  import ConfigText
  import Utf8

  const NAME_BYTES: nat := 255
  const FULL_BYTES: nat := 1400
  const LAST_SUFFIX: nat := 9999
  const DOT: byte := 0x2E
  const SLASH: byte := 0x2F

  predicate BadByte(b: byte) { b < 0x20 || b == 0x7F || b == SLASH || b == 0x5C || b == 0x25 }

  predicate ValidName(name: Bytes) {
    && 1 <= |name| <= NAME_BYTES && name != [DOT] && name != [DOT, DOT]
    && Utf8.WellFormed(name)
    && forall i :: 0 <= i < |name| ==> !BadByte(name[i])
  }

  /** What a name may be: one path segment other than . and .., of 1 to 255 bytes that are text without controls. */
  predicate OneSegment(name: Bytes) {
    && ConfigText.Split(name) == [name] && name != [] && name != [0x2E] && name != [0x2E, 0x2E]
    && |name| <= 255 && Utf8.WellFormed(name)
    && forall b :: b in name ==> b >= 0x20 && b != 0x7F && b != 0x5C && b != 0x25
  }

  /** A text is one segment exactly when no slash is in it. */
  lemma SplitsOnce(s: Bytes)
    ensures ConfigText.Split(s) == [s] <==> 0x2F !in s
  {
    if 0x2F in s {
      var k := ConfigText.Find(s, 0x2F).value;
      assert ConfigText.Split(s)[0] == s[..k];
    }
  }

  /** The accepted names are exactly these. */
  lemma ValidNameExactly(name: Bytes)
    ensures ValidName(name) <==> OneSegment(name)
  {
    SplitsOnce(name);
    if OneSegment(name) {
      forall i | 0 <= i < |name| ensures !BadByte(name[i]) {
        assert name[i] in name;
      }
    }
  }

  /** The segments of a text, a slash and a name without one are those of the text and the name. */
  lemma {:induction false} SplitSnoc(s: Bytes, name: Bytes)
    requires 0x2F !in name
    ensures ConfigText.Split(s + [SLASH] + name) == ConfigText.Split(s) + [name]
    decreases |s|
  {
    SplitsOnce(name);
    var path := s + [SLASH] + name;
    match ConfigText.Find(s, SLASH)
    case None =>
      ConfigText.FindFirst(s, SLASH, name);
      assert path[..|s|] == s && path[|s| + 1..] == name;
    case Some(k) =>
      assert path[k] == SLASH;
      ConfigText.FindIs(path, SLASH, k);
      assert path[..k] == s[..k] && path[k + 1..] == s[k + 1..] + [SLASH] + name;
      SplitSnoc(s[k + 1..], name);
  }

  /** A joined path stays inside its directory: its segments are those of the directory and then the name. */
  lemma JoinStaysInside(directory: Bytes, name: Bytes)
    requires ValidName(name)
    ensures OneSegment(name)
    ensures ConfigText.Split(directory + [SLASH] + name) == ConfigText.Split(directory) + [name]
  {
    ValidNameExactly(name);
    SplitsOnce(name);
    SplitSnoc(directory, name);
  }

  /** safe_path_validate_filename. */
  method ValidateFilename(name: CString) returns (ok: bool)
    ensures ok == ValidName(name) == OneSegment(name)
  {
    ValidNameExactly(name);
    if |name| == 0 || |name| > NAME_BYTES || name == [DOT] || name == [DOT, DOT] { return false; }
    var utf8 := Utf8.ValidUtf8(name);
    if !utf8 { return false; }
    var i := 0;
    while At(name, i) != 0
      invariant i <= |name|
      invariant forall k :: 0 <= k < i ==> !BadByte(name[k])
      decreases |name| - i
    {
      if BadByte(name[i]) { return false; }
      i := i + 1;
    }
    return true;
  }

  /** The joined path fits its buffer with the terminator. */
  predicate PathFits(directory: Bytes, name: Bytes) { |directory| + 1 + |name| < FULL_BYTES }

  /** safe_path_join into a buffer of FULL_BYTES. */
  method Join(directory: CString, name: CString) returns (path: Option<Bytes>)
    ensures path == if ValidName(name) && PathFits(directory, name) then Some(directory + [SLASH] + name) else None
    ensures path.Some? ==> OneSegment(name) && ConfigText.Split(path.value) == ConfigText.Split(directory) + [name]
  {
    if ValidName(name) { JoinStaysInside(directory, name); }
    var valid := ValidateFilename(name);
    if !valid || |directory| + 1 + |name| >= FULL_BYTES { return None; }
    return Some(directory + [SLASH] + name);
  }

  // ---------------------------------------------------------------- stem, extension and suffix

  /** strrchr(name, '.'). */
  function LastDot(name: Bytes): (k: Option<nat>)
    ensures k.Some? ==> k.value < |name| && name[k.value] == DOT
    ensures forall i :: 0 <= i < |name| && name[i] == DOT ==> k.Some? && i <= k.value
  {
    if name == [] then None
    else if name[|name| - 1] == DOT then Some(|name| - 1)
    else LastDot(name[..|name| - 1])
  }

  /** A name that only has a leading dot has no extension. */
  function StemSize(name: Bytes): (n: nat)
    ensures n <= |name| && (n < |name| ==> n > 0 && name[n] == DOT)
  {
    match LastDot(name)
    case None => |name|
    case Some(k) => if k == 0 then |name| else k
  }

  function Extension(name: Bytes): Bytes { name[StemSize(name)..] }

  function Suffix(n: nat): Bytes { [0x20, 0x28] + Print(n) + [0x29] }

  /** The largest cut at or below `k` that does not split a character. */
  function Back(name: Bytes, k: nat): (r: nat)
    requires k < |name|
    ensures r <= k
  {
    if k > 0 && Utf8.Continues(name[k]) then Back(name, k - 1) else k
  }

  /** How much of the stem stays in front of suffix `n`. */
  function Keep(name: Bytes, n: nat): (k: nat)
    requires |Suffix(n)| + |Extension(name)| < NAME_BYTES
    ensures k <= StemSize(name)
  {
    var room := NAME_BYTES - |Suffix(n)| - |Extension(name)|;
    if room >= StemSize(name) then StemSize(name) else Back(name, room)
  }

  predicate RoomFor(name: Bytes, n: nat) { |Suffix(n)| + |Extension(name)| < NAME_BYTES }

  function Candidate(name: Bytes, n: nat): Bytes
    requires RoomFor(name, n)
  {
    name[..Keep(name, n)] + Suffix(n) + Extension(name)
  }

  // ---------------------------------------------------------------- candidates are valid names

  lemma SuffixBytes(n: nat)
    ensures |Suffix(n)| == |Print(n)| + 3
    ensures forall i :: 0 <= i < |Suffix(n)| ==>
            0 < Suffix(n)[i] < 0x80 && !BadByte(Suffix(n)[i]) && Suffix(n)[i] != DOT
    ensures Utf8.WellFormed(Suffix(n))
  {
    PrintRoundTrip(n);
    forall i | 0 <= i < |Suffix(n)|
      ensures 0 < Suffix(n)[i] < 0x80 && !BadByte(Suffix(n)[i]) && Suffix(n)[i] != DOT
    {
      if 2 <= i < |Suffix(n)| - 1 {
        assert Suffix(n)[i] == Print(n)[i - 2];
        assert IsDigit(Print(n)[i - 2]);
      }
    }
    Utf8.AsciiWellFormed(Suffix(n));
  }

  /** In a well-formed text the cut lands between characters and is the longest that fits. */
  lemma {:induction false} BackIsBoundary(name: Bytes, k: nat)
    requires k < |name| && Utf8.WellFormed(name)
    ensures !Utf8.Tail(name[Back(name, k)])
    ensures forall j :: Back(name, k) < j <= k ==> Utf8.Tail(name[j])
  {
    Utf8.ContinuesIsTail(name[k]);
    if k == 0 {
      NoLeadingTail(name);
    } else if Utf8.Continues(name[k]) {
      BackIsBoundary(name, k - 1);
    }
  }

  lemma NoLeadingTail(t: Bytes)
    requires t != [] && Utf8.WellFormed(t)
    ensures !Utf8.Tail(t[0])
  {
    assert Utf8.CharLen(t) > 0;
  }

  /** The kept part is a prefix of the stem, cut between characters, and no longer such prefix leaves room. */
  lemma KeepIsLongest(name: Bytes, n: nat)
    requires ValidName(name) && RoomFor(name, n)
    ensures
      var k := Keep(name, n);
      && k + |Suffix(n)| + |Extension(name)| <= NAME_BYTES
      && (k < |name| ==> !Utf8.Tail(name[k]))
      && forall j :: k < j <= StemSize(name) && j + |Suffix(n)| + |Extension(name)| <= NAME_BYTES ==>
           j < |name| && Utf8.Tail(name[j])
  {
    var room := NAME_BYTES - |Suffix(n)| - |Extension(name)|;
    if room < StemSize(name) {
      BackIsBoundary(name, room);
    }
  }

  /**
    Every candidate is a valid name of at most 255 bytes that begins with whole characters of the requested stem and
    keeps the suffix and the extension, so validating it again never fails.
   */
  lemma CandidateIsValid(name: Bytes, n: nat)
    requires ValidName(name) && RoomFor(name, n)
    ensures ValidName(Candidate(name, n))
    ensures Utf8.WellFormed(name[..Keep(name, n)])
    ensures Extension(Candidate(name, n)) == Extension(name)
  {
    KeepIsLongest(name, n);
    SuffixBytes(n);
    CandidateText(name, n);
    CandidateBytes(name, n);
    CandidateExtension(name, n);
    assert Candidate(name, n)[Keep(name, n)] == 0x20;
  }

  lemma CandidateText(name: Bytes, n: nat)
    requires ValidName(name) && RoomFor(name, n)
    ensures Utf8.WellFormed(name[..Keep(name, n)]) && Utf8.WellFormed(Candidate(name, n))
  {
    var k, stem := Keep(name, n), StemSize(name);
    KeepIsLongest(name, n);
    SuffixBytes(n);
    Utf8.CutWellFormed(name, k);
    Utf8.CutWellFormed(name, stem);
    Utf8.JoinWellFormed(name[..k], Suffix(n));
    Utf8.JoinWellFormed(name[..k] + Suffix(n), Extension(name));
  }

  lemma CandidateBytes(name: Bytes, n: nat)
    requires ValidName(name) && RoomFor(name, n)
    ensures forall i :: 0 <= i < |Candidate(name, n)| ==> !BadByte(Candidate(name, n)[i])
  {
    var k, stem, c := Keep(name, n), StemSize(name), Candidate(name, n);
    SuffixBytes(n);
    forall i | 0 <= i < |c| ensures !BadByte(c[i]) {
      if i < k {
        assert c[i] == name[i];
      } else if i < k + |Suffix(n)| {
        assert c[i] == Suffix(n)[i - k];
      } else {
        assert c[i] == name[stem + (i - k - |Suffix(n)|)];
      }
    }
  }

  lemma CandidateExtension(name: Bytes, n: nat)
    requires RoomFor(name, n)
    ensures Extension(Candidate(name, n)) == Extension(name)
  {
    var k, stem, c := Keep(name, n), StemSize(name), Candidate(name, n);
    SuffixBytes(n);
    var at := k + |Suffix(n)|;
    assert forall i :: k <= i < at ==> c[i] == Suffix(n)[i - k];
    if stem < |name| {
      assert c[at..] == name[stem..];
      assert c[at] == DOT;
      assert forall i :: at < i < |c| ==> c[i] == name[i - at + stem];
    } else {
      assert forall i :: 0 <= i < k ==> c[i] == name[i];
    }
  }

  // ---------------------------------------------------------------- candidates differ

  /** Different suffixes give different candidates, even when they leave different lengths of the stem. */
  lemma CandidatesDiffer(name: Bytes, m: nat, n: nat)
    requires RoomFor(name, m) && RoomFor(name, n) && Candidate(name, m) == Candidate(name, n)
    ensures m == n
  {
    var x, y, c := name[..Keep(name, m)], name[..Keep(name, n)], Candidate(name, m);
    var end := |c| - |Extension(name)|;
    assert x + Suffix(m) == c[..end] == y + Suffix(n);
    if |Print(m)| <= |Print(n)| {
      SuffixesMatch(x, y, m, n);
    } else {
      SuffixesMatch(y, x, n, m);
    }
  }

  lemma SuffixesMatch(x: Bytes, y: Bytes, m: nat, n: nat)
    requires x + Suffix(m) == y + Suffix(n) && |Print(m)| <= |Print(n)|
    ensures m == n
  {
    var c := x + Suffix(m);
    PrintRoundTrip(n);
    var paren, first := |x| + 1, |y| + 2;
    assert c[paren] == 0x28;
    assert forall i :: first <= i < |c| - 1 ==> c[i] == Print(n)[i - first];
    assert first > paren;
    assert Print(m) == c[paren + 1..|c| - 1] == Print(n);
    PrintInjective(m, n);
  }

  // ---------------------------------------------------------------- the search

  /** The search goes past suffix `n`. */
  predicate Blocked(directory: Bytes, name: Bytes, taken: set<Bytes>, n: nat) {
    RoomFor(name, n) && PathFits(directory, Candidate(name, n)) && Candidate(name, n) in taken
  }

  predicate Usable(directory: Bytes, name: Bytes, n: nat) {
    RoomFor(name, n) && PathFits(directory, Candidate(name, n))
  }

  /** What safe_path_unique_name promises of its result. */
  ghost predicate Chosen(directory: Bytes, name: Bytes, taken: set<Bytes>, r: Option<Bytes>) {
    if !ValidName(name) || !PathFits(directory, name) then r == None
    else if name !in taken then r == Some(name)
    else ChosenSuffix(directory, name, taken, r)
  }

  /** The first suffix that is not taken, unless one before it cannot be used at all. */
  ghost predicate ChosenSuffix(directory: Bytes, name: Bytes, taken: set<Bytes>, r: Option<Bytes>) {
    exists n :: StopsAt(directory, name, taken, n, r)
  }

  ghost predicate StopsAt(directory: Bytes, name: Bytes, taken: set<Bytes>, n: nat, r: Option<Bytes>) {
    && 1 <= n <= LAST_SUFFIX + 1
    && (forall k :: 1 <= k < n ==> Blocked(directory, name, taken, k))
    && if n == LAST_SUFFIX + 1 || !Usable(directory, name, n) then r == None
       else Candidate(name, n) !in taken && r == Some(Candidate(name, n))
  }

  /** safe_path_unique_name. */
  method UniqueName(directory: CString, requested: CString, taken: set<Bytes>) returns (r: Option<Bytes>)
    ensures Chosen(directory, requested, taken, r)
  {
    var valid := ValidateFilename(requested);
    if !valid { return None; }
    if !PathFits(directory, requested) { return None; }
    if requested !in taken { return Some(requested); }
    var stemSize := StemSize(requested);
    var extension := requested[stemSize..];
    var n := 1;
    while n <= LAST_SUFFIX
      invariant 1 <= n <= LAST_SUFFIX + 1
      invariant forall k :: 1 <= k < n ==> Blocked(directory, requested, taken, k)
    {
      var output := Reach(directory, requested, stemSize, extension, n);
      if output.None? || output.value !in taken {
        assert StopsAt(directory, requested, taken, n, output);
        return output;
      }
      n := n + 1;
    }
    assert StopsAt(directory, requested, taken, n, None);
    return None;
  }

  /** The candidate of one suffix, when there is room for it and the path fits. */
  method Reach(directory: CString, name: CString, stemSize: nat, extension: Bytes, n: nat)
    returns (output: Option<CString>)
    requires ValidName(name) && stemSize == StemSize(name) && extension == Extension(name)
    ensures output.Some? <==> Usable(directory, name, n)
    ensures output.Some? ==> output.value == Candidate(name, n)
  {
    output := Build(name, stemSize, extension, n);
    if output.None? { return None; }
    var path := Join(directory, output.value);
    if path.None? { return None; }
  }

  /** The candidate of one suffix, when there is room for suffix and extension. */
  method Build(name: CString, stemSize: nat, extension: Bytes, n: nat) returns (output: Option<CString>)
    requires ValidName(name) && stemSize == StemSize(name) && extension == Extension(name)
    ensures output.Some? <==> RoomFor(name, n)
    ensures output.Some? ==> output.value == Candidate(name, n) && ValidName(output.value)
  {
    var suffix := Suffix(n);
    if |suffix| + |extension| >= NAME_BYTES { return None; }
    var keep := CutStem(name, stemSize, NAME_BYTES - |suffix| - |extension|);
    CandidateIsValid(name, n);
    CandidateIsCString(name, n);
    return Some(name[..keep] + suffix + extension);
  }

  lemma CandidateIsCString(name: Bytes, n: nat)
    requires RoomFor(name, n) && ValidName(Candidate(name, n))
    ensures 0 !in Candidate(name, n)
  {
    forall i | 0 <= i < |Candidate(name, n)| ensures Candidate(name, n)[i] != 0 {
      assert !BadByte(Candidate(name, n)[i]);
    }
  }

  /** The loop that moves the cut back to the start of a character. */
  method CutStem(name: Bytes, stemSize: nat, room: nat) returns (keep: nat)
    requires stemSize <= |name|
    ensures keep == if room >= stemSize then stemSize else Back(name, room)
  {
    keep := if room > stemSize then stemSize else room;
    while keep > 0 && keep < stemSize && Utf8.Continues(name[keep])
      invariant keep <= stemSize
      invariant room >= stemSize ==> keep == stemSize
      invariant room < stemSize ==> keep < stemSize && Back(name, keep) == Back(name, room)
    {
      keep := keep - 1;
    }
  }

  /** A chosen name is valid, fits the path and is absent from the directory; a free requested name is kept. */
  lemma ChosenIsFree(directory: Bytes, name: Bytes, taken: set<Bytes>, r: Option<Bytes>)
    requires Chosen(directory, name, taken, r) && r.Some?
    ensures ValidName(r.value) && PathFits(directory, r.value) && r.value !in taken
    ensures r.value == name <==> name !in taken
    ensures Extension(r.value) == Extension(name)
  {
    if name in taken {
      var n :| StopsAt(directory, name, taken, n, r);
      CandidateIsValid(name, n);
    }
  }

  // ---------------------------------------------------------------- when the search succeeds

  /** The extension leaves room for every suffix, and every name of 255 bytes fits the path buffer. */
  predicate Roomy(directory: Bytes, name: Bytes) {
    ValidName(name) && |Extension(name)| + 7 < NAME_BYTES && |directory| + 1 + NAME_BYTES < FULL_BYTES
  }

  lemma RoomyUsable(directory: Bytes, name: Bytes, n: nat)
    requires Roomy(directory, name) && n <= LAST_SUFFIX
    ensures Usable(directory, name, n)
  {
    PrintLength(n, 4);
    SuffixBytes(n);
    CandidateIsValid(name, n);
  }

  /** The candidates of the suffixes 1 to `k`. */
  function Candidates(name: Bytes, k: nat): set<Bytes> {
    if k == 0 then {} else Candidates(name, k - 1) + if RoomFor(name, k) then {Candidate(name, k)} else {}
  }

  lemma {:induction false} CandidatesMembers(name: Bytes, k: nat)
    ensures forall n :: 1 <= n <= k && RoomFor(name, n) ==> Candidate(name, n) in Candidates(name, k)
    ensures forall c :: c in Candidates(name, k) ==>
            exists n :: 1 <= n <= k && RoomFor(name, n) && c == Candidate(name, n)
  {
    if k > 0 {
      CandidatesMembers(name, k - 1);
    }
  }

  /** The next candidate is none of those before. */
  lemma NextIsNew(name: Bytes, k: nat)
    requires k > 0 && RoomFor(name, k)
    ensures Candidate(name, k) !in Candidates(name, k - 1)
  {
    CandidatesMembers(name, k - 1);
    var c := Candidate(name, k);
    if c in Candidates(name, k - 1) {
      var n :| 1 <= n <= k - 1 && RoomFor(name, n) && c == Candidate(name, n);
      CandidatesDiffer(name, k, n);
    }
  }

  lemma {:induction false} CandidatesCount(name: Bytes, k: nat)
    requires forall n :: 1 <= n <= k ==> RoomFor(name, n)
    ensures |Candidates(name, k)| == k
  {
    if k > 0 {
      CandidatesCount(name, k - 1);
      NextIsNew(name, k);
      assert Candidates(name, k) == Candidates(name, k - 1) + {Candidate(name, k)};
    }
  }

  lemma AllRoomy(directory: Bytes, name: Bytes)
    requires Roomy(directory, name)
    ensures forall n :: 1 <= n <= LAST_SUFFIX ==> RoomFor(name, n) && Usable(directory, name, n)
  {
    forall n | 1 <= n <= LAST_SUFFIX ensures RoomFor(name, n) && Usable(directory, name, n) {
      RoomyUsable(directory, name, n);
    }
  }

  /** The search fails exactly when the requested name and every candidate are taken. */
  lemma FailsWhenAllTaken(directory: Bytes, name: Bytes, taken: set<Bytes>, r: Option<Bytes>)
    requires Roomy(directory, name) && Chosen(directory, name, taken, r)
    ensures r.None? <==> name in taken && Candidates(name, LAST_SUFFIX) <= taken
  {
    AllRoomy(directory, name);
    CandidatesMembers(name, LAST_SUFFIX);
    if name in taken {
      var n :| StopsAt(directory, name, taken, n, r);
      if r.None? {
        assert n == LAST_SUFFIX + 1;
        forall c | c in Candidates(name, LAST_SUFFIX) ensures c in taken {
          var k :| 1 <= k <= LAST_SUFFIX && c == Candidate(name, k);
          assert Blocked(directory, name, taken, k);
        }
      }
    }
  }

  lemma SubsetCount(s: set<Bytes>, t: set<Bytes>)
    requires s <= t
    ensures |s| <= |t| && (|s| == |t| ==> s == t)
  {
    var d := t - s;
    assert t == s + d && s !! d;
    assert |t| == |s| + |d|;
    if |d| == 0 {
      assert s == t;
    }
  }

  /** The requested name is one of its own candidates. */
  predicate OwnCandidate(name: Bytes, n: nat) {
    var stem := StemSize(name);
    |name| == NAME_BYTES && |Suffix(n)| <= stem && name[stem - |Suffix(n)|..stem] == Suffix(n)
  }

  lemma OwnCandidateMeans(name: Bytes, n: nat)
    requires ValidName(name) && RoomFor(name, n)
    ensures Candidate(name, n) == name <==> OwnCandidate(name, n)
  {
    if Candidate(name, n) == name { CandidateOfItself(name, n); }
    if OwnCandidate(name, n) { OwnCandidateIs(name, n); }
  }

  lemma CandidateOfItself(name: Bytes, n: nat)
    requires ValidName(name) && RoomFor(name, n) && Candidate(name, n) == name
    ensures OwnCandidate(name, n)
  {
    var stem, keep, suffix := StemSize(name), Keep(name, n), Suffix(n);
    KeepIsLongest(name, n);
    assert keep + |suffix| == stem;
    assert name[keep + 1] == 0x28;
    assert !Utf8.Tail(name[keep + 1]);
    assert name[keep..stem] == suffix;
  }

  lemma OwnCandidateIs(name: Bytes, n: nat)
    requires RoomFor(name, n) && OwnCandidate(name, n)
    ensures Candidate(name, n) == name
  {
    var stem, suffix, ext := StemSize(name), Suffix(n), Extension(name);
    var k := stem - |suffix|;
    assert name[k] == suffix[0] == 0x20;
    assert !Utf8.Continues(0x20);
    assert NAME_BYTES - |suffix| - |ext| == k;
    assert Keep(name, n) == k;
    assert name == name[..stem] + ext;
    assert name[..stem] == name[..k] + suffix;
  }

  /**
    A directory with at most 9999 names defeats the search exactly when they are the 9999 candidates and the requested
    name is among them, which takes a requested name of 255 bytes whose stem already ends in a suffix.
   */
  lemma FailsExactly(directory: Bytes, name: Bytes, taken: set<Bytes>, r: Option<Bytes>)
    requires Roomy(directory, name) && Chosen(directory, name, taken, r) && |taken| <= LAST_SUFFIX
    ensures r.None? <==>
            taken == Candidates(name, LAST_SUFFIX) && exists n :: 1 <= n <= LAST_SUFFIX && OwnCandidate(name, n)
  {
    AllRoomy(directory, name);
    var all := Candidates(name, LAST_SUFFIX);
    CandidatesCount(name, LAST_SUFFIX);
    CandidatesMembers(name, LAST_SUFFIX);
    FailsWhenAllTaken(directory, name, taken, r);
    if all <= taken {
      SubsetCount(all, taken);
    }
    if r.None? {
      var n :| 1 <= n <= LAST_SUFFIX && name == Candidate(name, n);
      OwnCandidateMeans(name, n);
    }
    forall n | 1 <= n <= LAST_SUFFIX && OwnCandidate(name, n) ensures name in all {
      OwnCandidateMeans(name, n);
    }
  }

  /**
    With at most 9999 names in the directory the search always succeeds if and only if the requested name is not a
    full-length name that already carries a suffix.
   */
  lemma AlwaysSucceedsExactly(directory: Bytes, name: Bytes)
    requires Roomy(directory, name)
    ensures (forall taken: set<Bytes> :: |taken| <= LAST_SUFFIX ==> !Chosen(directory, name, taken, None))
            <==> forall n :: 1 <= n <= LAST_SUFFIX ==> !OwnCandidate(name, n)
  {
    AllRoomy(directory, name);
    var all := Candidates(name, LAST_SUFFIX);
    CandidatesCount(name, LAST_SUFFIX);
    CandidatesMembers(name, LAST_SUFFIX);
    forall taken: set<Bytes> | |taken| <= LAST_SUFFIX && Chosen(directory, name, taken, None)
      ensures exists n :: 1 <= n <= LAST_SUFFIX && OwnCandidate(name, n)
    {
      FailsExactly(directory, name, taken, None);
    }
    forall n | 1 <= n <= LAST_SUFFIX && OwnCandidate(name, n) ensures Chosen(directory, name, all, None) {
      OwnCandidateMeans(name, n);
      AllTakenFails(directory, name, all);
    }
  }

  lemma AllTakenFails(directory: Bytes, name: Bytes, taken: set<Bytes>)
    requires Roomy(directory, name) && name in taken
    requires forall n :: 1 <= n <= LAST_SUFFIX ==> RoomFor(name, n) && Candidate(name, n) in taken
    ensures Chosen(directory, name, taken, None)
  {
    AllRoomy(directory, name);
    forall k | 1 <= k < LAST_SUFFIX + 1 ensures Blocked(directory, name, taken, k) {
      assert Usable(directory, name, k);
    }
    assert StopsAt(directory, name, taken, LAST_SUFFIX + 1, None);
  }

  /** One name fewer is always enough. */
  lemma SucceedsWithOneFewer(directory: Bytes, name: Bytes, taken: set<Bytes>, r: Option<Bytes>)
    requires Roomy(directory, name) && Chosen(directory, name, taken, r) && |taken| < LAST_SUFFIX
    ensures r.Some?
  {
    AllRoomy(directory, name);
    CandidatesCount(name, LAST_SUFFIX);
    FailsExactly(directory, name, taken, r);
  }

  lemma FullNameIsRoomy(name: Bytes)
    requires name == seq(251, _ => 0x61 as byte) + [0x20, 0x28, 0x31, 0x29]
    ensures ValidName(name) && StemSize(name) == |name| == NAME_BYTES
  {
    forall i | 0 <= i < |name| ensures 0 < name[i] < 0x80 && !BadByte(name[i]) && name[i] != DOT {
      assert name[i] == if i < 251 then 0x61 else [0x20, 0x28, 0x31, 0x29][i - 251];
    }
    Utf8.AsciiWellFormed(name);
  }

  /** Such a name exists: 251 letters and " (1)". Its 9999 candidates defeat the search in a directory of that size. */
  lemma FullNameIsDefeated(directory: Bytes, name: Bytes)
    requires name == seq(251, _ => 0x61 as byte) + [0x20, 0x28, 0x31, 0x29] && |directory| + 1 + NAME_BYTES < FULL_BYTES
    ensures Roomy(directory, name) && OwnCandidate(name, 1)
    ensures |Candidates(name, LAST_SUFFIX)| == 9999 && Chosen(directory, name, Candidates(name, LAST_SUFFIX), None)
  {
    FullNameIsRoomy(name);
    assert Suffix(1) == [0x20, 0x28, 0x31, 0x29] by { assert Print(1) == [0x31]; }
    AllRoomy(directory, name);
    CandidatesCount(name, LAST_SUFFIX);
    CandidatesMembers(name, LAST_SUFFIX);
    OwnCandidateMeans(name, 1);
    AllTakenFails(directory, name, Candidates(name, LAST_SUFFIX));
  }
}
