/** Exactly which configuration files load: the file as lines, a line as an entry, and entries as fields. */
module ConfigReading {
  import opened Bytes
  import opened Decimal
  import opened ConfigText
  import opened Configs
  import opened ConfigFiles

  // ---------------------------------------------------------------- the file as lines

  /** The pieces between newlines. */
  function Pieces(content: Bytes): (r: seq<Bytes>)
    ensures r != []
    decreases |content|
  {
    match Find(content, NEWLINE)
    case None => [content]
    case Some(k) => [content[..k]] + Pieces(content[k + 1..])
  }

  /** A piece fits its buffer, and holds no zero byte unless it is the last. */
  predicate Readable(piece: Bytes, last: bool) { |piece| <= 2046 && (0 in piece ==> last) }

  /** The text of a piece: without a byte order mark in front of the file, and up to a zero byte. */
  function PieceText(piece: Bytes, first: bool): Bytes {
    if first then WithoutMark(UpToNul(piece)) else UpToNul(piece)
  }

  /** Line after line. */
  function LoadPieces(s: Loading, pieces: seq<Bytes>, first: bool): Option<Loading>
    decreases |pieces|
  {
    if pieces == [] then Some(s)
    else if !Readable(pieces[0], |pieces| == 1) then None
    else
      match ProcessLine(s, PieceText(pieces[0], first))
      case None => None
      case Some(s') => LoadPieces(s', pieces[1..], false)
  }

  lemma {:induction false} TrimLeftNewline(s: Bytes)
    ensures TrimLeft(s + [NEWLINE]) == if TrimLeft(s) == [] then [] else TrimLeft(s) + [NEWLINE]
  {
    var t := s + [NEWLINE];
    if s == [] {
      assert t == [NEWLINE] && t[1..] == [];
    } else {
      assert t[0] == s[0] && t[1..] == s[1..] + [NEWLINE];
      if Space(s[0]) { TrimLeftNewline(s[1..]); }
    }
  }

  /** The newline at the end of a line makes no difference. */
  lemma TrimNewline(s: Bytes)
    ensures Trim(s + [NEWLINE]) == Trim(s)
  {
    TrimLeftNewline(s);
    var t := TrimLeft(s);
    if t != [] {
      assert (t + [NEWLINE])[..|t + [NEWLINE]| - 1] == t;
    }
  }

  lemma NewlineIsNothing(s: Loading, line: Bytes)
    ensures ProcessLine(s, line + [NEWLINE]) == ProcessLine(s, line)
  {
    TrimNewline(line);
  }

  lemma UpToNulIs(raw: Bytes)
    ensures 0 !in raw ==> UpToNul(raw) == raw
    ensures 0 in raw ==> UpToNul(raw) < raw && raw[|UpToNul(raw)|] == 0
  {
  }

  lemma MarkBeforeNewline(line: Bytes)
    ensures WithoutMark(line + [NEWLINE]) == WithoutMark(line) + [NEWLINE]
  {
    var t := line + [NEWLINE];
    assert forall i :: 0 <= i < |line| ==> t[i] == line[i];
    assert t[|line|] == NEWLINE;
    if |line| >= 3 {
      assert t[3..] == line[3..] + [NEWLINE];
    }
  }

  /** One fgets of a line that ends in a newline. */
  lemma LineRead(s: Loading, content: Bytes, k: nat, first: bool)
    requires Find(content, NEWLINE) == Some(k) && !(first && Utf16(content))
    ensures
      var n := ChunkSize(content);
      var line := LineOf(content[..n], first);
      if Readable(content[..k], false) then
        n == k + 1 && line.Some? && ProcessLine(s, line.value) == ProcessLine(s, PieceText(content[..k], first))
      else line.None?
  {
    var n := ChunkSize(content);
    var raw, piece := content[..n], content[..k];
    assert first ==> !Utf16(raw);
    if k + 1 < LINE_CAPACITY {
      assert raw == piece + [NEWLINE];
      assert raw[k] == NEWLINE;
      UpToNulIs(raw);
      if 0 in piece {
        assert raw[Find(raw, 0).value] == 0;
        assert NEWLINE !in UpToNul(raw);
        MarkKeepsOut(UpToNul(raw));
      } else {
        UpToNulIs(piece);
        MarkBeforeNewline(piece);
        NewlineIsNothing(s, PieceText(piece, first));
        assert (PieceText(piece, first) + [NEWLINE])[|PieceText(piece, first)|] == NEWLINE;
      }
    } else {
      assert NEWLINE !in raw;
      assert NEWLINE !in UpToNul(raw);
      MarkKeepsOut(UpToNul(raw));
    }
  }

  lemma MarkKeepsOut(line: Bytes)
    requires NEWLINE !in line
    ensures NEWLINE !in WithoutMark(line)
  {
  }

  /** One fgets of what stands after the last newline. */
  lemma LastRead(s: Loading, content: Bytes, first: bool)
    requires content != [] && Find(content, NEWLINE) == None && !(first && Utf16(content))
    ensures
      var n := ChunkSize(content);
      var line := LineOf(content[..n], first);
      if Readable(content, true) then n == |content| && line == Some(PieceText(content, first)) else line.None?
  {
    var n := ChunkSize(content);
    var raw := content[..n];
    assert NEWLINE !in raw && NEWLINE !in UpToNul(raw);
    MarkKeepsOut(UpToNul(raw));
    if |content| <= 2046 {
      assert raw == content;
    }
  }

  /** What the rest of the file makes of the state after a line. */
  function ThenPieces(s: Option<Loading>, pieces: seq<Bytes>): Option<Loading> {
    match s
    case None => None
    case Some(s') => LoadPieces(s', pieces, false)
  }

  lemma LoadCons(s: Loading, piece: Bytes, more: seq<Bytes>, first: bool)
    ensures LoadPieces(s, [piece] + more, first) ==
            if Readable(piece, more == []) then ThenPieces(ProcessLine(s, PieceText(piece, first)), more) else None
  {
    assert ([piece] + more)[1..] == more;
  }

  lemma EmptyFile(s: Loading, first: bool)
    ensures LoadPieces(s, Pieces([]), first) == Some(s)
  {
    assert Pieces([]) == [[]];
    LoadCons(s, [], [], first);
  }

  lemma LastPiece(s: Loading, content: Bytes, first: bool)
    requires content != [] && Find(content, NEWLINE) == None && !(first && Utf16(content))
    ensures LoadLines(s, content, first) == LoadPieces(s, Pieces(content), first)
  {
    LastRead(s, content, first);
    LoadCons(s, content, [], first);
    assert Pieces(content) == [content] + [];
    if Readable(content, true) {
      assert content[ChunkSize(content)..] == [];
    }
  }

  lemma NextPiece(s: Loading, content: Bytes, k: nat, first: bool)
    requires Find(content, NEWLINE) == Some(k) && !(first && Utf16(content))
    ensures
      var piece, rest := content[..k], content[k + 1..];
      LoadLines(s, content, first) ==
      if Readable(piece, false) then
        match ProcessLine(s, PieceText(piece, first))
        case None => None
        case Some(s') => LoadLines(s', rest, false)
      else None
  {
    LineRead(s, content, k, first);
  }

  /**
    A file is read line by line: the loop over fgets does what the pieces between newlines do, one after the other,
    and gives up on a line that does not fit and on a zero byte before the end.
   */
  lemma {:induction false} LoadsByPieces(s: Loading, content: Bytes, first: bool)
    requires !(first && Utf16(content))
    ensures LoadLines(s, content, first) == LoadPieces(s, Pieces(content), first)
    decreases |content|
  {
    if content == [] {
      EmptyFile(s, first);
    } else {
      match Find(content, NEWLINE)
      case None => LastPiece(s, content, first);
      case Some(k) =>
        var piece, rest := content[..k], content[k + 1..];
        NextPiece(s, content, k, first);
        LoadCons(s, piece, Pieces(rest), first);
        var after := ProcessLine(s, PieceText(piece, first));
        if after.Some? { LoadsByPieces(after.value, rest, false); }
    }
  }

  // ---------------------------------------------------------------- a line as an entry

  /** White space only, or a comment. */
  predicate Skipped(line: Bytes) { Trim(line) == [] || Trim(line)[0] == 0x23 || Trim(line)[0] == 0x3B }

  /** The line is this key, an equals sign and this value, with white space around each. */
  ghost predicate Writes(line: Bytes, e: Entry) {
    exists a, b, c, d :: WritesWith(line, e, a, b, c, d)
  }

  predicate WritesWith(line: Bytes, e: Entry, a: Bytes, b: Bytes, c: Bytes, d: Bytes) {
    && Spaces(a) && Spaces(b) && Spaces(c) && Spaces(d) && e.value != [] && Trimmed(e.value)
    && line == a + (KeyText(e.key) + b + [EQUALS] + (c + e.value)) + d
  }

  lemma {:induction false} TrimLeftSplits(s: Bytes) returns (w: Bytes)
    ensures Spaces(w) && s == w + TrimLeft(s)
  {
    if s != [] && Space(s[0]) {
      var v := TrimLeftSplits(s[1..]);
      w := [s[0]] + v;
      assert s == [s[0]] + s[1..];
    } else {
      w := [];
    }
  }

  lemma {:induction false} TrimRightSplits(s: Bytes) returns (w: Bytes)
    ensures Spaces(w) && s == TrimRight(s) + w
  {
    if s != [] && Space(s[|s| - 1]) {
      var v := TrimRightSplits(s[..|s| - 1]);
      w := v + [s[|s| - 1]];
      assert s == s[..|s| - 1] + [s[|s| - 1]];
    } else {
      w := [];
    }
  }

  /** What trimming takes off is white space. */
  lemma TrimSplits(s: Bytes) returns (w: Bytes, v: Bytes)
    ensures Spaces(w) && Spaces(v) && s == w + Trim(s) + v
  {
    w := TrimLeftSplits(s);
    v := TrimRightSplits(TrimLeft(s));
  }

  lemma {:induction false} FindKeyIs(text: Bytes, i: nat)
    requires i <= |KEYS| && FindKey(text, i).Some?
    ensures KeyText(FindKey(text, i).value) == text
    decreases |KEYS| - i
  {
    if KeyText(KEYS[i]) != text { FindKeyIs(text, i + 1); }
  }

  /** The text of an entry, its name and its value. */
  lemma EntryParts(name: Bytes, b: Bytes, c: Bytes, value: Bytes)
    requires NameText(name) && Spaces(b) && Spaces(c) && value != [] && Trimmed(value)
    ensures
      var text := name + b + [EQUALS] + (c + value);
      && Trimmed(text) && text[0] == name[0] && Find(text, EQUALS) == Some(|name + b|)
      && Trim(text[..|name + b|]) == name && Trim(text[|name + b| + 1..]) == value
  {
    var text := name + b + [EQUALS] + (c + value);
    NameLine(name);
    assert text[|text| - 1] == value[|value| - 1];
    assert EQUALS !in name + b;
    FindFirst(name + b, EQUALS, c + value);
    assert text[..|name + b|] == [] + name + b && text[|name + b| + 1..] == c + value + [];
    TrimFinds([], name, b);
    TrimFinds(c, value, []);
  }

  /** Such a line applies its entry. */
  lemma WrittenApplies(s: Loading, line: Bytes, e: Entry)
    requires Writes(line, e)
    ensures !Skipped(line) && ProcessLine(s, line) == Apply(s, e.key, e.value)
  {
    var a, b, c, d :| WritesWith(line, e, a, b, c, d);
    var text := KeyText(e.key) + b + [EQUALS] + (c + e.value);
    KeyIsName(e.key);
    EntryParts(KeyText(e.key), b, c, e.value);
    NameLine(KeyText(e.key));
    TrimFinds(a, text, d);
    KeyFound(e.key);
  }

  /** A text around its equals sign. */
  lemma TextSplits(text: Bytes, k: nat) returns (w1: Bytes, v1: Bytes, w2: Bytes, v2: Bytes)
    requires Find(text, EQUALS) == Some(k)
    ensures Spaces(w1) && Spaces(v1) && Spaces(w2) && Spaces(v2) && Trimmed(Trim(text[k + 1..]))
    ensures text == w1 + Trim(text[..k]) + v1 + [EQUALS] + (w2 + Trim(text[k + 1..]) + v2)
  {
    w1, v1 := TrimSplits(text[..k]);
    w2, v2 := TrimSplits(text[k + 1..]);
    TrimIsTrimmed(text[k + 1..]);
    assert text == text[..k] + [EQUALS] + text[k + 1..];
  }

  /** The entry a line was read as. */
  lemma ReadIsWritten(s: Loading, line: Bytes) returns (e: Entry)
    requires !Skipped(line) && ProcessLine(s, line).Some?
    ensures Writes(line, e)
  {
    var text := Trim(line);
    var k := Find(text, EQUALS).value;
    var name, value := Trim(text[..k]), Trim(text[k + 1..]);
    FindKeyIs(name, 0);
    e := Entry(FindKey(name, 0).value, value);
    var w, v := TrimSplits(line);
    var w1, v1, w2, v2 := TextSplits(text, k);
    MakesEntry(line, e, w, w1, v1, w2, v2, v);
  }

  lemma MakesEntry(line: Bytes, e: Entry, w: Bytes, w1: Bytes, v1: Bytes, w2: Bytes, v2: Bytes, v: Bytes)
    requires Spaces(w) && Spaces(w1) && Spaces(v1) && Spaces(w2) && Spaces(v2) && Spaces(v)
    requires e.value != [] && Trimmed(e.value)
    requires line == w + (w1 + KeyText(e.key) + v1 + [EQUALS] + (w2 + e.value + v2)) + v
    ensures Writes(line, e)
  {
    Regroup(w, w1, KeyText(e.key), v1, w2, e.value, v2, v);
    SpacesJoin(w, w1);
    SpacesJoin(v2, v);
    assert WritesWith(line, e, w + w1, v1, w2, v2 + v);
  }

  lemma SpacesJoin(a: Bytes, b: Bytes)
    requires Spaces(a) && Spaces(b)
    ensures Spaces(a + b)
  {
  }

  lemma Regroup(w: Bytes, w1: Bytes, name: Bytes, v1: Bytes, w2: Bytes, value: Bytes, v2: Bytes, v: Bytes)
    ensures w + (w1 + name + v1 + [EQUALS] + (w2 + value + v2)) + v ==
            w + w1 + (name + v1 + [EQUALS] + (w2 + value)) + (v2 + v)
  {
  }

  /**
    A line is accepted exactly if it is skipped, or writes an entry that can be applied; then it does what the entry
    does.
   */
  lemma LineExactly(s: Loading, line: Bytes)
    ensures Skipped(line) ==> ProcessLine(s, line) == Some(s) && forall e :: !Writes(line, e)
    ensures forall e :: Writes(line, e) ==> ProcessLine(s, line) == Apply(s, e.key, e.value)
    ensures !Skipped(line) && (forall e :: !Writes(line, e)) ==> ProcessLine(s, line) == None
  {
    forall e | Writes(line, e) ensures !Skipped(line) && ProcessLine(s, line) == Apply(s, e.key, e.value) {
      WrittenApplies(s, line, e);
    }
    if !Skipped(line) && ProcessLine(s, line).Some? {
      var e := ReadIsWritten(s, line);
    }
  }

  // ---------------------------------------------------------------- entries as fields

  /** The value a key was given. */
  function Given(es: seq<Entry>, key: Key): Option<Bytes> {
    if es == [] then None
    else if es[|es| - 1].key == key then Some(es[|es| - 1].value)
    else Given(es[..|es| - 1], key)
  }

  /** The targets of the storage_path entries, in order. */
  function StorageTargets(es: seq<Entry>): seq<Target> {
    if es == [] then []
    else
      var before, e := StorageTargets(es[..|es| - 1]), es[|es| - 1];
      if e.key == StoragePath && SplitTarget(e.value).Some? then before + [SplitTarget(e.value).value] else before
  }

  /** Every key but storage_path stands once. */
  predicate NoRepeat(es: seq<Entry>) {
    forall i, j :: 0 <= i < j < |es| && es[i].key == es[j].key ==> es[i].key == StoragePath
  }

  predicate NumberIn(v: Bytes, minimum: nat, maximum: nat) { AllDigits(v) && minimum <= Value(v) <= maximum }

  /** A value the key can take. */
  predicate ValueFits(e: Entry) {
    match e.key
    case Port => NumberIn(e.value, 1024, 65535)
    case PinTtl => NumberIn(e.value, 30, 600)
    case SessionTtl => NumberIn(e.value, 60, 86400)
    case MaxBytes => NumberIn(e.value, 1, 0x100_0000_0000)
    case MaxFiles => NumberIn(e.value, 1, 1000)
    case Auth => e.value == PIN_TEXT || e.value == NONE_TEXT
    case Lang => e.value == EN_TEXT || e.value == RU_TEXT
    case Destination => |e.value| < 1024 && PathSafe(e.value)
    case Internal => |e.value| < 1024 && SafeChild(e.value, DATA_ROOT)
    case Usb => |e.value| < 1024 && SafeChild(e.value, USB_ROOT)
    case StoragePath =>
      |e.value| < 2048 && SplitTarget(e.value).Some? && TargetOk(SplitTarget(e.value).value)
  }

  predicate AllFit(es: seq<Entry>) { forall i :: 0 <= i < |es| ==> ValueFits(es[i]) }

  predicate TargetsGood(es: seq<Entry>) { DistinctIds(StorageTargets(es)) && |StorageTargets(es)| <= 8 }

  predicate Good(es: seq<Entry>) { NoRepeat(es) && AllFit(es) && TargetsGood(es) }

  function Number(v: Bytes): nat { if AllDigits(v) then Value(v) else 0 }

  /** The field of the key is what this value says. */
  predicate FieldIs(c: Config, key: Key, v: Bytes) {
    match key
    case Port => c.port == Number(v)
    case PinTtl => c.pinTtl == Number(v)
    case SessionTtl => c.sessionTtl == Number(v)
    case MaxBytes => c.maxBytes == Number(v)
    case MaxFiles => c.maxFiles == Number(v)
    case Auth => c.auth == if v == PIN_TEXT then Pin else NoAuth
    case Lang => c.language == if v == EN_TEXT then En else Ru
    case Destination => c.destination == v
    case Internal => c.internal == v
    case Usb => c.usb == v
    case StoragePath => true
  }

  predicate FieldIsDefault(c: Config, key: Key) {
    match key
    case Port => c.port == 53317
    case PinTtl => c.pinTtl == 120
    case SessionTtl => c.sessionTtl == 900
    case MaxBytes => c.maxBytes == 21474836480
    case MaxFiles => c.maxFiles == 100
    case Auth => c.auth == Pin
    case Lang => c.language == En
    case Destination => c.destination == INTERNAL_PATH
    case Internal => c.internal == INTERNAL_PATH
    case Usb => c.usb == USB_PATH
    case StoragePath => true
  }

  predicate FieldAsGiven(c: Config, es: seq<Entry>, key: Key) {
    match Given(es, key)
    case None => FieldIsDefault(c, key)
    case Some(v) => FieldIs(c, key, v)
  }

  /** The state of loading is what the entries say. */
  ghost predicate Carries(s: Loading, es: seq<Entry>) {
    && (forall key :: key in s.seen <==> Given(es, key).Some?)
    && (forall key :: FieldAsGiven(s.config, es, key))
    && s.config.targets == if StoragePath in s.seen then StorageTargets(es) else DEFAULTS.targets
  }

  lemma StartCarries()
    ensures Carries(START, []) && Good([])
  {
  }

  lemma Snoc(es: seq<Entry>, e: Entry)
    ensures forall key :: Given(es + [e], key) == if e.key == key then Some(e.value) else Given(es, key)
    ensures StorageTargets(es + [e]) ==
            if e.key == StoragePath && SplitTarget(e.value).Some? then StorageTargets(es) + [SplitTarget(e.value).value]
            else StorageTargets(es)
  {
    assert (es + [e])[..|es|] == es;
  }

  lemma {:induction false} GivenMeans(es: seq<Entry>, key: Key)
    ensures Given(es, key).Some? <==> exists i :: 0 <= i < |es| && es[i].key == key
  {
    if es != [] {
      var init := es[..|es| - 1];
      GivenMeans(init, key);
      if exists i :: 0 <= i < |es| && es[i].key == key {
        var i :| 0 <= i < |es| && es[i].key == key;
        if i < |es| - 1 { assert init[i].key == key; }
      }
    }
  }

  lemma NoRepeatSnoc(es: seq<Entry>, e: Entry)
    ensures NoRepeat(es + [e]) <==> NoRepeat(es) && (e.key == StoragePath || Given(es, e.key).None?)
  {
    var all := es + [e];
    GivenMeans(es, e.key);
    assert forall i :: 0 <= i < |es| ==> all[i] == es[i];
    assert all[|es|] == e;
    if NoRepeat(all) {
      forall i, j | 0 <= i < j < |es| && es[i].key == es[j].key ensures es[i].key == StoragePath {
        assert all[i].key == all[j].key;
      }
    }
  }

  lemma AllFitSnoc(es: seq<Entry>, e: Entry)
    ensures AllFit(es + [e]) <==> AllFit(es) && ValueFits(e)
  {
    var all := es + [e];
    assert all[|es|] == e;
    if AllFit(all) {
      forall i | 0 <= i < |es| ensures ValueFits(es[i]) {
        assert ValueFits(all[i]);
      }
    }
  }

  /** One target more is no better than the others. */
  lemma TargetsSnoc(es: seq<Entry>, e: Entry)
    requires TargetsGood(es + [e])
    ensures TargetsGood(es)
  {
    Snoc(es, e);
    var before, after := StorageTargets(es), StorageTargets(es + [e]);
    assert forall i :: 0 <= i < |before| ==> after[i] == before[i];
  }

  lemma GoodSnoc(es: seq<Entry>, e: Entry)
    ensures Good(es + [e]) <==>
              && Good(es) && ValueFits(e) && (e.key == StoragePath || Given(es, e.key).None?)
              && TargetsGood(es + [e])
  {
    NoRepeatSnoc(es, e);
    AllFitSnoc(es, e);
    if TargetsGood(es + [e]) { TargetsSnoc(es, e); }
  }

  /** A value that the line grammar lets through. */
  predicate Clean(e: Entry) { e.value != [] && Trimmed(e.value) }

  /** The entry sets its own field, if its value fits, and no other. */
  predicate Sets(c: Config, e: Entry)
    requires e.key != StoragePath
  {
    var r := SetField(c, e.key, e.value);
    && (r.Some? <==> ValueFits(e))
    && (r.Some? ==> FieldIs(r.value, e.key, e.value) && r.value == Copy(c, e.key, r.value))
  }

  lemma NumberSetsExactly(c: Config, e: Entry)
    requires Clean(e) && e.key in {Port, PinTtl, SessionTtl, MaxBytes, MaxFiles}
    ensures Sets(c, e)
  {
    match e.key
    case Port => ParseU64Exactly(e.value, 1024, 65535);
    case PinTtl => ParseU64Exactly(e.value, 30, 600);
    case SessionTtl => ParseU64Exactly(e.value, 60, 86400);
    case MaxBytes => ParseU64Exactly(e.value, 1, MAX_BYTES);
    case MaxFiles => ParseU64Exactly(e.value, 1, 1000);
  }

  lemma TextSetsExactly(c: Config, e: Entry)
    requires e.key in {Auth, Lang, Destination, Internal, Usb}
    ensures Sets(c, e)
  {
  }

  lemma CopySetsOne(c: Config, key: Key, d: Config)
    requires key != StoragePath
    ensures Copy(c, key, d).targets == c.targets && forall k :: k != key ==> SameField(c, Copy(c, key, d), k)
  {
  }

  lemma FieldSetsExactly(c: Config, e: Entry)
    requires Clean(e) && e.key != StoragePath
    ensures SetField(c, e.key, e.value).Some? <==> ValueFits(e)
    ensures
      var r := SetField(c, e.key, e.value);
      r.Some? ==>
        && FieldIs(r.value, e.key, e.value) && r.value.targets == c.targets
        && forall key :: key != e.key ==> SameField(c, r.value, key)
  {
    if e.key in {Port, PinTtl, SessionTtl, MaxBytes, MaxFiles} {
      NumberSetsExactly(c, e);
    } else {
      TextSetsExactly(c, e);
    }
    var r := SetField(c, e.key, e.value);
    if r.Some? { CopySetsOne(c, e.key, r.value); }
  }

  predicate SameField(c: Config, d: Config, key: Key) {
    match key
    case Port => d.port == c.port
    case PinTtl => d.pinTtl == c.pinTtl
    case SessionTtl => d.sessionTtl == c.sessionTtl
    case MaxBytes => d.maxBytes == c.maxBytes
    case MaxFiles => d.maxFiles == c.maxFiles
    case Auth => d.auth == c.auth
    case Lang => d.language == c.language
    case Destination => d.destination == c.destination
    case Internal => d.internal == c.internal
    case Usb => d.usb == c.usb
    case StoragePath => true
  }

  lemma SameAsGiven(c: Config, d: Config, es: seq<Entry>, key: Key)
    requires SameField(c, d, key) && FieldAsGiven(c, es, key)
    ensures FieldAsGiven(d, es, key)
  {
  }

  lemma FieldsOn(c: Config, d: Config, es: seq<Entry>, e: Entry)
    requires forall key :: FieldAsGiven(c, es, key)
    requires FieldIs(d, e.key, e.value) && forall key :: key != e.key ==> SameField(c, d, key)
    ensures forall key :: FieldAsGiven(d, es + [e], key)
  {
    Snoc(es, e);
    forall key ensures FieldAsGiven(d, es + [e], key) {
      assert FieldAsGiven(c, es, key);
      if key != e.key {
        assert SameField(c, d, key);
        SameAsGiven(c, d, es, key);
      }
    }
  }

  lemma FieldCarries(s: Loading, es: seq<Entry>, e: Entry)
    requires Carries(s, es) && Good(es) && Clean(e) && e.key != StoragePath
    ensures Apply(s, e.key, e.value).Some? <==> Good(es + [e])
    ensures Apply(s, e.key, e.value).Some? ==> Carries(Apply(s, e.key, e.value).value, es + [e])
  {
    Snoc(es, e);
    GoodSnoc(es, e);
    FieldSetsExactly(s.config, e);
    if Apply(s, e.key, e.value).Some? {
      FieldsOn(s.config, Apply(s, e.key, e.value).value.config, es, e);
    }
  }

  /** The table that a storage_path entry meets: the first one finds it empty. */
  lemma MeetsStorage(s: Loading, es: seq<Entry>)
    requires Carries(s, es)
    ensures Meet(s) == Loading(s.config.(targets := StorageTargets(es)), s.seen + {StoragePath})
  {
    NoTargets(es);
  }

  lemma AddsExactly(es: seq<Entry>, e: Entry)
    requires TargetsGood(es) && e.key == StoragePath
    ensures AddTarget(StorageTargets(es), e.value) ==
            if ValueFits(e) && TargetsGood(es + [e]) then Some(StorageTargets(es + [e])) else None
  {
    Snoc(es, e);
    if ValueFits(e) {
      DistinctOn(StorageTargets(es), SplitTarget(e.value).value);
    }
  }

  /** A storage_path entry. */
  lemma TargetAddsExactly(s: Loading, es: seq<Entry>, e: Entry)
    requires Carries(s, es) && TargetsGood(es) && e.key == StoragePath
    ensures Apply(s, e.key, e.value) ==
            if ValueFits(e) && TargetsGood(es + [e]) then
              Some(Loading(s.config.(targets := StorageTargets(es + [e])), s.seen + {StoragePath}))
            else None
  {
    MeetsStorage(s, es);
    AddsExactly(es, e);
  }

  /** The state with the table filled. */
  lemma FilledCarries(s: Loading, es: seq<Entry>, e: Entry)
    requires Carries(s, es) && e.key == StoragePath
    ensures Carries(Loading(s.config.(targets := StorageTargets(es + [e])), s.seen + {StoragePath}), es + [e])
  {
    Snoc(es, e);
    FieldsOn(s.config, s.config.(targets := StorageTargets(es + [e])), es, e);
  }

  lemma TargetCarries(s: Loading, es: seq<Entry>, e: Entry)
    requires Carries(s, es) && Good(es) && e.key == StoragePath
    ensures Apply(s, e.key, e.value).Some? <==> Good(es + [e])
    ensures Apply(s, e.key, e.value).Some? ==> Carries(Apply(s, e.key, e.value).value, es + [e])
  {
    GoodSnoc(es, e);
    TargetAddsExactly(s, es, e);
    FilledCarries(s, es, e);
  }

  lemma {:induction false} NoTargets(es: seq<Entry>)
    ensures Given(es, StoragePath).None? ==> StorageTargets(es) == []
  {
    if es != [] { NoTargets(es[..|es| - 1]); }
  }

  lemma DistinctOn(targets: seq<Target>, t: Target)
    requires DistinctIds(targets)
    ensures DistinctIds(targets + [t]) <==> !HasId(targets, t.id)
  {
    var all := targets + [t];
    if HasId(targets, t.id) {
      var i :| 0 <= i < |targets| && targets[i].id == t.id;
      assert all[i].id == all[|targets|].id;
    }
  }

  // ---------------------------------------------------------------- all entries

  lemma {:induction false} ApplySnoc(s: Option<Loading>, es: seq<Entry>, e: Entry)
    ensures ApplyAll(s, es + [e]) ==
            match ApplyAll(s, es) case None => None case Some(t) => Apply(t, e.key, e.value)
    decreases |es|
  {
    var all := es + [e];
    if s.Some? {
      if es == [] {
        assert all == [e] && all[1..] == [];
      } else {
        assert all[0] == es[0] && all[1..] == es[1..] + [e];
        ApplySnoc(Apply(s.value, es[0].key, es[0].value), es[1..], e);
      }
    }
  }

  predicate AllClean(es: seq<Entry>) { forall i :: 0 <= i < |es| ==> Clean(es[i]) }

  /**
    A list of entries is accepted exactly if no key but storage_path stands twice, every value is one its key can
    take, and the targets are at most eight with distinct ids; then every field is what its entry says, or else its
    default.
   */
  lemma {:induction false} EntriesExactly(es: seq<Entry>)
    requires AllClean(es)
    ensures ApplyAll(Some(START), es).Some? <==> Good(es)
    ensures Good(es) ==> Carries(ApplyAll(Some(START), es).value, es)
    decreases |es|
  {
    if es == [] {
      StartCarries();
    } else {
      var before, e := es[..|es| - 1], es[|es| - 1];
      assert es == before + [e];
      assert forall i :: 0 <= i < |before| ==> before[i] == es[i];
      EntriesExactly(before);
      ApplySnoc(Some(START), before, e);
      GoodSnoc(before, e);
      if Good(before) { CarriesOn(ApplyAll(Some(START), before).value, before, e); }
    }
  }

  lemma CarriesOn(s: Loading, es: seq<Entry>, e: Entry)
    requires Carries(s, es) && Good(es) && Clean(e)
    ensures Apply(s, e.key, e.value).Some? <==> Good(es + [e])
    ensures Apply(s, e.key, e.value).Some? ==> Carries(Apply(s, e.key, e.value).value, es + [e])
  {
    if e.key == StoragePath { TargetCarries(s, es, e); } else { FieldCarries(s, es, e); }
  }

  // ---------------------------------------------------------------- the whole file

  /** The pieces of a file say these entries, in order. */
  ghost predicate Says(pieces: seq<Bytes>, first: bool, es: seq<Entry>)
    decreases |pieces|
  {
    if pieces == [] then es == []
    else
      var text := PieceText(pieces[0], first);
      && Readable(pieces[0], |pieces| == 1)
      && if Skipped(text) then Says(pieces[1..], false, es)
         else es != [] && Writes(text, es[0]) && Says(pieces[1..], false, es[1..])
  }

  lemma LoadsOne(s: Loading, pieces: seq<Bytes>, first: bool)
    requires pieces != []
    ensures LoadPieces(s, pieces, first) ==
            if Readable(pieces[0], |pieces| == 1) then
              ThenPieces(ProcessLine(s, PieceText(pieces[0], first)), pieces[1..])
            else None
  {
  }

  lemma AllCleanCons(es: seq<Entry>)
    requires es != [] && Clean(es[0]) && AllClean(es[1..])
    ensures AllClean(es)
  {
    assert forall i :: 1 <= i < |es| ==> es[i] == es[1..][i - 1];
  }

  lemma {:induction false} SaysLoads(s: Loading, pieces: seq<Bytes>, first: bool, es: seq<Entry>)
    requires Says(pieces, first, es)
    ensures LoadPieces(s, pieces, first) == ApplyAll(Some(s), es) && AllClean(es)
    decreases |pieces|
  {
    if pieces != [] {
      var text := PieceText(pieces[0], first);
      LoadsOne(s, pieces, first);
      if Skipped(text) {
        SaysLoads(s, pieces[1..], false, es);
      } else {
        WrittenApplies(s, text, es[0]);
        EntryClean(text, es[0]);
        var r := Apply(s, es[0].key, es[0].value);
        SaysLoads(if r.Some? then r.value else s, pieces[1..], false, es[1..]);
        AllCleanCons(es);
      }
    }
  }

  lemma EntryClean(line: Bytes, e: Entry)
    requires Writes(line, e)
    ensures Clean(e)
  {
  }

  lemma {:induction false} LoadsSays(s: Loading, pieces: seq<Bytes>, first: bool) returns (es: seq<Entry>)
    requires LoadPieces(s, pieces, first).Some?
    ensures Says(pieces, first, es)
    decreases |pieces|
  {
    if pieces == [] {
      es := [];
    } else {
      var text := PieceText(pieces[0], first);
      var more := LoadsSays(ProcessLine(s, text).value, pieces[1..], false);
      if Skipped(text) {
        es := more;
        LineExactly(s, text);
      } else {
        var e := ReadIsWritten(s, text);
        es := [e] + more;
        assert es[1..] == more;
      }
    }
  }

  /** The entries of a file, which is not UTF-16. */
  ghost predicate FileSays(content: Bytes, es: seq<Entry>) { !Utf16(content) && Says(Pieces(content), true, es) }

  lemma FileLoads(content: Bytes, es: seq<Entry>)
    requires FileSays(content, es)
    ensures LoadLines(START, content, true) == ApplyAll(Some(START), es) && AllClean(es)
  {
    LoadsByPieces(START, content, true);
    SaysLoads(START, Pieces(content), true, es);
  }

  /** The files that load are exactly the lists of good entries, one to a line, with skipped lines between them. */
  lemma FileExactly(content: Bytes)
    ensures LoadLines(START, content, true).Some? <==> exists es :: FileSays(content, es) && Good(es)
    ensures forall es :: FileSays(content, es) && Good(es) ==> Carries(LoadLines(START, content, true).value, es)
  {
    forall es | FileSays(content, es) && Good(es)
      ensures LoadLines(START, content, true).Some? && Carries(LoadLines(START, content, true).value, es)
    {
      FileLoads(content, es);
      EntriesExactly(es);
    }
    if LoadLines(START, content, true).Some? {
      Utf16Stops(content);
      LoadsByPieces(START, content, true);
      var es := LoadsSays(START, Pieces(content), true);
      FileLoads(content, es);
      EntriesExactly(es);
      assert FileSays(content, es);
    }
  }

  lemma Utf16Stops(content: Bytes)
    requires LoadLines(START, content, true).Some?
    ensures !Utf16(content)
  {
    if Utf16(content) {
      assert content[0] != NEWLINE;
      assert ChunkSize(content) >= 2 || |content| == 1;
      assert Utf16(content[..ChunkSize(content)]);
    }
  }

  // ---------------------------------------------------------------- what is loaded

  predicate Plain(key: Key) { key != Destination && key != Internal && key != Usb && key != StoragePath }

  /** An old file names a destination and no storage paths. */
  predicate IsLegacy(es: seq<Entry>) { Given(es, StoragePath).None? && Given(es, Destination).Some? }

  lemma RootsDiffer(path: Bytes)
    requires DATA_ROOT <= path
    ensures !(USB_ROOT <= path)
  {
    assert DATA_ROOT[1] == 0x64 && USB_ROOT[1] == 0x6D;
  }

  /** What the end of loading leaves alone, and what it makes of an old file. */
  lemma FinishLeaves(s: Loading, c: Config)
    requires Finish(s) == Some(c) && (StoragePath !in s.seen ==> s.config.targets == DEFAULTS.targets)
    ensures forall key :: Plain(key) ==> SameField(s.config, c, key)
    ensures c.usb == Legacy(s).usb && c.internal == Legacy(s).internal
    ensures c.targets == if StoragePath in s.seen then s.config.targets else LegacyTargets(c.internal, c.usb)
  {
    if StoragePath !in s.seen {
      var l := Legacy(s);
      assert l.targets[0 := l.targets[0].(path := l.internal)][1 := l.targets[1].(path := l.usb)] ==
             LegacyTargets(l.internal, l.usb);
    }
  }

  /** The path of an old file's destination goes where it lies, unless that path was given. */
  lemma LegacyGoes(s: Loading)
    ensures
      var d := s.config.destination;
      var legacy := StoragePath !in s.seen && Destination in s.seen;
      var onUsb, inData := SafeChild(d, USB_ROOT) || d == USB_ROOT, SafeChild(d, DATA_ROOT);
      && Legacy(s).usb == (if legacy && Usb !in s.seen && onUsb then d else s.config.usb)
      && Legacy(s).internal == if legacy && Internal !in s.seen && inData then d else s.config.internal
  {
    if SafeChild(s.config.destination, DATA_ROOT) { RootsDiffer(s.config.destination); }
  }

  /**
    What a file loads as: the plain fields as given or else as by default; the internal and the USB path as given, or
    the destination of an old file that lies there, or else as by default; and the targets of its storage paths, or
    those two.
   */
  lemma LoadedAsGiven(content: Bytes, es: seq<Entry>, c: Config)
    requires FileSays(content, es) && Load(content) == Some(c)
    ensures forall key :: Plain(key) ==> FieldAsGiven(c, es, key)
    ensures
      var d := Given(es, Destination);
      && (if Given(es, Usb).None? && IsLegacy(es) && (SafeChild(d.value, USB_ROOT) || d.value == USB_ROOT)
          then c.usb == d.value else FieldAsGiven(c, es, Usb))
      && (if Given(es, Internal).None? && IsLegacy(es) && SafeChild(d.value, DATA_ROOT)
          then c.internal == d.value else FieldAsGiven(c, es, Internal))
    ensures c.targets == if Given(es, StoragePath).Some? then StorageTargets(es) else LegacyTargets(c.internal, c.usb)
  {
    FileLoads(content, es);
    EntriesExactly(es);
    CarriedFinishes(LoadLines(START, content, true).value, es, c);
  }

  lemma CarriedFinishes(s: Loading, es: seq<Entry>, c: Config)
    requires Carries(s, es) && Finish(s) == Some(c)
    ensures forall key :: Plain(key) ==> FieldAsGiven(c, es, key)
    ensures
      var d := Given(es, Destination);
      && (if Given(es, Usb).None? && IsLegacy(es) && (SafeChild(d.value, USB_ROOT) || d.value == USB_ROOT)
          then c.usb == d.value else FieldAsGiven(c, es, Usb))
      && (if Given(es, Internal).None? && IsLegacy(es) && SafeChild(d.value, DATA_ROOT)
          then c.internal == d.value else FieldAsGiven(c, es, Internal))
    ensures c.targets == if Given(es, StoragePath).Some? then StorageTargets(es) else LegacyTargets(c.internal, c.usb)
  {
    FinishLeaves(s, c);
    LegacyGoes(s);
    forall key | Plain(key) ensures FieldAsGiven(c, es, key) {
      assert FieldAsGiven(s.config, es, key) && SameField(s.config, c, key);
      SameAsGiven(s.config, c, es, key);
    }
    assert FieldAsGiven(s.config, es, Destination) && FieldAsGiven(s.config, es, Usb);
    assert FieldAsGiven(s.config, es, Internal);
  }
}
