/** Loading undoes saving, and every configuration that loads is well formed. */
module ConfigFiles {
  import opened Bytes
  import opened Decimal
  import opened ConfigText
  import opened Configs

  // ---------------------------------------------------------------- one line

  predicate NameByte(b: byte) { b == 0x5F || 0x61 <= b <= 0x7A }

  predicate NameText(t: Bytes) { 4 <= |t| <= 21 && forall i :: 0 <= i < |t| ==> NameByte(t[i]) }

  lemma ShortKeys(k: Key)
    requires k == Port || k == Auth || k == Lang || k == StoragePath || k == Destination
    ensures NameText(KeyText(k))
  {
  }

  lemma MiddleKeys(k: Key)
    requires k == MaxBytes || k == PinTtl || k == Usb
    ensures NameText(KeyText(k))
  {
  }

  lemma LongKeys(k: Key)
    requires k == SessionTtl || k == Internal || k == MaxFiles
    ensures NameText(KeyText(k))
  {
  }

  /** A key is lower-case letters and underscores, so it ends at the equals sign and is never a comment. */
  lemma NameLine(t: Bytes)
    requires NameText(t)
    ensures Trimmed(t) && t[0] != 0x23 && t[0] != 0x3B
    ensures forall i :: 0 <= i < |t| ==> t[i] != EQUALS && t[i] != NEWLINE && t[i] != 0
  {
    assert NameByte(t[0]) && NameByte(t[|t| - 1]);
  }

  lemma KeyTextsDiffer(a: Key, b: Key)
    requires a != b
    ensures KeyText(a) != KeyText(b)
  {
    if |KeyText(a)| == |KeyText(b)| {
      assert KeyText(a)[0] != KeyText(b)[0];
    }
  }

  lemma {:induction false} FindKeyFinds(text: Bytes, i: nat, at: nat)
    requires i <= at < |KEYS| && KeyText(KEYS[at]) == text
    requires forall j :: 0 <= j < at ==> KeyText(KEYS[j]) != text
    ensures FindKey(text, i) == Some(KEYS[at])
    decreases at - i
  {
    if i < at {
      FindKeyFinds(text, i + 1, at);
    }
  }

  function KeyIndex(k: Key): (i: nat)
    ensures i < |KEYS| && KEYS[i] == k
  {
    match k
    case Port => 0
    case Auth => 1
    case PinTtl => 2
    case SessionTtl => 3
    case Destination => 4
    case Internal => 5
    case Usb => 6
    case StoragePath => 7
    case MaxBytes => 8
    case MaxFiles => 9
    case Lang => 10
  }

  /** Every key is found by its own text. */
  lemma KeyFound(k: Key)
    ensures FindKey(KeyText(k), 0) == Some(k)
  {
    var at := KeyIndex(k);
    forall j | 0 <= j < at ensures KeyText(KEYS[j]) != KeyText(k) {
      assert KeyIndex(KEYS[j]) == j;
      KeyTextsDiffer(KEYS[j], k);
    }
    FindKeyFinds(KeyText(k), 0, at);
  }

  /** A value that a line can carry. */
  predicate ValueOk(v: Bytes) {
    && v != [] && Trimmed(v) && |v| < 2000
    && forall i :: 0 <= i < |v| ==> v[i] != NEWLINE && v[i] != 0
  }

  function LineWith(name: Bytes, value: Bytes): Bytes { name + [EQUALS] + value + [NEWLINE] }

  lemma LineText(name: Bytes, value: Bytes)
    requires NameText(name) && ValueOk(value)
    ensures Trim(LineWith(name, value)) == name + [EQUALS] + value
  {
    var t := name + [EQUALS] + value;
    NameLine(name);
    TrimFinds([], t, [NEWLINE]);
    assert [] + t + [NEWLINE] == LineWith(name, value);
  }

  lemma LineParts(name: Bytes, value: Bytes)
    requires NameText(name) && ValueOk(value)
    ensures
      var text := name + [EQUALS] + value;
      && Find(text, EQUALS) == Some(|name|) && text[..|name|] == name && text[|name| + 1..] == value
      && Trim(name) == name && Trim(value) == value && text[0] != 0x23 && text[0] != 0x3B
  {
    NameLine(name);
    FindFirst(name, EQUALS, value);
    TrimIsTrimmed(name);
    TrimIsTrimmed(value);
  }

  lemma LineReads(s: Loading, name: Bytes, key: Key, value: Bytes)
    requires NameText(name) && FindKey(name, 0) == Some(key) && ValueOk(value)
    ensures ProcessLine(s, LineWith(name, value)) == Apply(s, key, value)
  {
    LineText(name, value);
    LineParts(name, value);
  }

  lemma KeyIsName(k: Key)
    ensures NameText(KeyText(k))
  {
    match k
    case Port | Auth | Lang | StoragePath | Destination => ShortKeys(k);
    case MaxBytes | PinTtl | Usb => MiddleKeys(k);
    case SessionTtl | Internal | MaxFiles => LongKeys(k);
  }

  /** A written line sets its key to its value. */
  lemma LineApplies(s: Loading, e: Entry)
    requires ValueOk(e.value)
    ensures ProcessLine(s, Line(e)) == Apply(s, e.key, e.value)
  {
    KeyIsName(e.key);
    KeyFound(e.key);
    LineReads(s, KeyText(e.key), e.key, e.value);
  }

  /** fgets takes exactly a written line off the front. */
  lemma LineTaken(line: Bytes, rest: Bytes)
    requires line != [] && |line| < 2047 && line[|line| - 1] == NEWLINE
    requires forall i :: 0 <= i < |line| - 1 ==> line[i] != NEWLINE
    ensures ChunkSize(line + rest) == |line| && (line + rest)[..|line|] == line && (line + rest)[|line|..] == rest
  {
    FindIs(line + rest, NEWLINE, |line| - 1);
  }

  lemma NoNul(line: Bytes)
    requires forall i :: 0 <= i < |line| ==> line[i] != 0
    ensures UpToNul(line) == line
  {
  }

  lemma LineShape(name: Bytes, value: Bytes)
    requires NameText(name) && ValueOk(value)
    ensures
      var line := LineWith(name, value);
      && line != [] && |line| < 2047 && line[|line| - 1] == NEWLINE && NEWLINE in line
      && (forall i :: 0 <= i < |line| - 1 ==> line[i] != NEWLINE)
      && (forall i :: 0 <= i < |line| ==> line[i] != 0)
  {
    var k, line := name, LineWith(name, value);
    NameLine(name);
    forall i | 0 <= i < |line| - 1 ensures line[i] != NEWLINE && line[i] != 0 {
      assert line[i] == if i < |k| then k[i] else if i == |k| then EQUALS else value[i - |k| - 1];
    }
  }

  /** What one applied value leads to. */
  function Then(s: Option<Loading>, rest: Bytes): Option<Loading> {
    match s
    case None => None
    case Some(t) => LoadLines(t, rest, false)
  }

  lemma LineLoads(s: Loading, e: Entry, rest: Bytes)
    requires ValueOk(e.value)
    ensures LoadLines(s, Line(e) + rest, false) == Then(Apply(s, e.key, e.value), rest)
  {
    var line := Line(e);
    KeyIsName(e.key);
    LineShape(KeyText(e.key), e.value);
    LineTaken(line, rest);
    NoNul(line);
    LineApplies(s, e);
  }

  function ApplyAll(s: Option<Loading>, entries: seq<Entry>): Option<Loading>
    decreases |entries|
  {
    if s.None? || entries == [] then s else ApplyAll(Apply(s.value, entries[0].key, entries[0].value), entries[1..])
  }

  /** Written lines do what their entries say, one after the other. */
  lemma {:induction false} LinesLoad(s: Option<Loading>, entries: seq<Entry>, rest: Bytes)
    requires forall i :: 0 <= i < |entries| ==> ValueOk(entries[i].value)
    ensures Then(s, Lines(entries, rest)) == Then(ApplyAll(s, entries), rest)
    decreases |entries|
  {
    if s.Some? && entries != [] {
      var e, more := entries[0], entries[1..];
      LineLoads(s.value, e, Lines(more, rest));
      LinesLoad(Apply(s.value, e.key, e.value), more, rest);
    }
  }

  // ---------------------------------------------------------------- well-formed configurations

  predicate TextOk(t: Bytes) { Trimmed(t) && |t| < PATH_CAPACITY && PathSafe(t) }

  /** A storage target, except that its path may hold the separator. */
  predicate TargetFine(t: Target) { IdSafe(t.id) && LabelSafe(t.title) && Trimmed(t.title) && TextOk(t.path) }

  predicate DistinctIds(targets: seq<Target>) {
    forall i, j :: 0 <= i < j < |targets| ==> targets[i].id != targets[j].id
  }

  predicate TargetsFine(targets: seq<Target>) {
    (forall i :: 0 <= i < |targets| ==> TargetFine(targets[i])) && DistinctIds(targets)
  }

  predicate NumbersFine(c: Config) {
    && 1024 <= c.port <= 65535 && 30 <= c.pinTtl <= 600 && 60 <= c.sessionTtl <= 86400
    && 1 <= c.maxBytes <= MAX_BYTES && 1 <= c.maxFiles <= 1000
  }

  /** What a configuration that was loaded satisfies. */
  predicate WellFormed(c: Config) {
    && NumbersFine(c) && TextOk(c.destination)
    && 1 <= |c.targets| <= MAX_TARGETS && TargetsFine(c.targets)
    && HasPath(c.targets, c.destination)
  }

  predicate NoBars(targets: seq<Target>) { forall i :: 0 <= i < |targets| ==> BAR !in targets[i].path }

  /** The two legacy paths are not saved. */
  function Restored(c: Config): Config { c.(internal := INTERNAL_PATH, usb := USB_PATH) }

  lemma PathValueOk(p: Bytes)
    requires TextOk(p)
    ensures ValueOk(p)
  {
    forall i | 0 <= i < |p| ensures p[i] != NEWLINE && p[i] != 0 {
      assert !BadByte(p[i]);
    }
  }

  lemma NumberValueOk(n: nat, minimum: nat, maximum: nat)
    requires minimum <= n <= maximum <= MAX_BYTES
    ensures ParseU64(Print(n), minimum, maximum) == Some(n) && ValueOk(Print(n))
  {
    ParsePrinted(n, minimum, maximum);
    PrintShort(n);
    NoControl(n);
  }

  lemma NoControl(n: nat)
    ensures forall i :: 0 <= i < |Print(n)| ==> Print(n)[i] != NEWLINE && Print(n)[i] != 0
  {
    PrintRoundTrip(n);
    var s := Print(n);
    forall i | 0 <= i < |s| ensures s[i] != NEWLINE && s[i] != 0 {
      assert IsDigit(s[i]);
    }
  }

  /** Four digits at a time. */
  lemma PrintShort(n: nat)
    requires n <= MAX_BYTES
    ensures |Print(n)| <= 16
  {
    if n >= 10000 {
      FourDigits(n);
      if n / 10000 >= 10000 {
        FourDigits(n / 10000);
        FourDigits(n / 10000 / 10000);
        PrintLength(n / 10000 / 10000 / 10000, 4);
        PrintLength(n / 10000 / 10000 % 10000, 4);
      } else {
        PrintLength(n / 10000, 4);
      }
    } else {
      PrintLength(n, 4);
    }
  }

  lemma FourDigits(n: nat)
    ensures |Print(n)| <= |Print(n / 10000)| + 4
  {
    assert n / 10 / 10 / 10 / 10 == n / 10000;
    OneDigit(n);
    OneDigit(n / 10);
    OneDigit(n / 10 / 10);
    OneDigit(n / 10 / 10 / 10);
  }

  lemma OneDigit(n: nat)
    ensures |Print(n)| <= |Print(n / 10)| + 1
  {
  }

  // ---------------------------------------------------------------- storage targets

  lemma IdText(id: Bytes)
    requires IdSafe(id)
    ensures Trimmed(id) && BAR !in id
  {
    assert IdByte(id[0]) && IdByte(id[|id| - 1]);
    forall i | 0 <= i < |id| ensures id[i] != BAR {
      assert IdByte(id[i]);
    }
  }

  lemma TitleText(title: Bytes)
    requires LabelSafe(title)
    ensures BAR !in title
  {
    forall i | 0 <= i < |title| ensures title[i] != BAR {
      assert LabelByte(title[i]);
    }
  }

  /** Two trimmed texts around a separator are found again. */
  lemma CutJoins(x: Bytes, y: Bytes)
    requires BAR !in x && x != [] && y != [] && Trimmed(x) && Trimmed(y)
    ensures
      var t := x + [BAR] + y;
      Trimmed(t) && Trim(t) == t && Cut(t) == Some((x, y))
  {
    var t := x + [BAR] + y;
    assert t[0] == x[0] && t[|t| - 1] == y[|y| - 1];
    FindFirst(x, BAR, y);
    assert t[..|x|] == x && t[|x| + 1..] == y;
    TrimIsTrimmed(t);
    TrimIsTrimmed(x);
    TrimIsTrimmed(y);
  }

  /** Three trimmed texts, the first two without separators, are found again. */
  lemma SplitsThree(x: Bytes, y: Bytes, z: Bytes)
    requires BAR !in x && BAR !in y && x != [] && y != [] && z != [] && Trimmed(x) && Trimmed(y) && Trimmed(z)
    ensures SplitTarget(x + [BAR] + (y + [BAR] + z)) == Some(Target(x, y, z))
    ensures Trimmed(x + [BAR] + (y + [BAR] + z))
  {
    CutJoins(y, z);
    CutJoins(x, y + [BAR] + z);
  }

  lemma TargetParts(t: Target)
    requires TargetFine(t)
    ensures BAR !in t.id && BAR !in t.title && t.id != [] && t.title != [] && t.path != []
    ensures Trimmed(t.id) && Trimmed(t.title) && Trimmed(t.path)
    ensures |t.id| < ID_CAPACITY && |t.title| < LABEL_CAPACITY && |t.path| < PATH_CAPACITY
    ensures Clean(t.id) && Clean(t.title) && Clean(t.path)
  {
    IdText(t.id);
    TitleText(t.title);
    PathValueOk(t.path);
    forall i | 0 <= i < |t.id| ensures t.id[i] != NEWLINE && t.id[i] != 0 {
      assert IdByte(t.id[i]);
    }
    forall i | 0 <= i < |t.title| ensures t.title[i] != NEWLINE && t.title[i] != 0 {
      assert LabelByte(t.title[i]);
    }
  }

  /** No byte that would end a line or a C string. */
  predicate Clean(s: Bytes) { forall i :: 0 <= i < |s| ==> s[i] != NEWLINE && s[i] != 0 }

  lemma CleanJoin(x: Bytes, y: Bytes)
    requires Clean(x) && Clean(y)
    ensures Clean(x + [BAR] + y)
  {
  }

  /** The text of a target is split into its parts again. */
  lemma TargetSplits(t: Target)
    requires TargetFine(t)
    ensures SplitTarget(TargetText(t)) == Some(t)
  {
    TargetParts(t);
    SplitsThree(t.id, t.title, t.path);
  }

  lemma TargetValueOk(t: Target)
    requires TargetFine(t)
    ensures ValueOk(TargetText(t))
  {
    TargetParts(t);
    SplitsThree(t.id, t.title, t.path);
    CleanJoin(t.title, t.path);
    CleanJoin(t.id, t.title + [BAR] + t.path);
    assert forall i :: 0 <= i < |TargetText(t)| ==> TargetText(t)[i] != NEWLINE && TargetText(t)[i] != 0;
  }

  /** A written target is added, unless its path holds the separator. */
  lemma TargetAdds(targets: seq<Target>, t: Target)
    requires TargetFine(t) && |targets| < MAX_TARGETS && !HasId(targets, t.id)
    ensures AddTarget(targets, TargetText(t)) == if BAR in t.path then None else Some(targets + [t])
  {
    TargetSplits(t);
    TargetValueOk(t);
  }

  lemma TargetApplies(s: Loading, t: Target)
    requires TargetFine(t)
    requires
      var targets := Meet(s).config.targets;
      |targets| < MAX_TARGETS && !HasId(targets, t.id)
    ensures
      var c := Meet(s).config;
      Apply(s, StoragePath, TargetText(t)) ==
      if BAR in t.path then None else Some(Loading(c.(targets := c.targets + [t]), s.seen + {StoragePath}))
  {
    TargetAdds(Meet(s).config.targets, t);
  }

  /** The table is filled, unless a path holds the separator. */
  function Filled(s: Loading, targets: seq<Target>): Option<Loading> {
    if NoBars(targets) then Some(Loading(s.config.(targets := targets), s.seen + {StoragePath})) else None
  }

  /** The first `k` targets are in the table. */
  predicate FilledTo(s: Loading, targets: seq<Target>, k: nat)
    requires k <= |targets|
  {
    && NoBars(targets[..k])
    && if k == 0 then StoragePath !in s.seen else StoragePath in s.seen && s.config.targets == targets[..k]
  }

  lemma FilledAll(s: Loading, targets: seq<Target>)
    requires targets != [] && FilledTo(s, targets, |targets|)
    ensures Filled(s, targets) == Some(s)
  {
    assert targets[..|targets|] == targets;
    assert s.seen + {StoragePath} == s.seen;
  }

  lemma FilledOn(s: Loading, targets: seq<Target>, more: seq<Target>)
    ensures Filled(Loading(s.config.(targets := more), s.seen + {StoragePath}), targets) == Filled(s, targets)
  {
    assert s.seen + {StoragePath} + {StoragePath} == s.seen + {StoragePath};
  }

  /** The written targets fill the table, from target `k` on. */
  lemma {:induction false} TargetsApply(s: Loading, targets: seq<Target>, k: nat, entries: seq<Entry>)
    requires k <= |targets| <= MAX_TARGETS && targets != [] && TargetsFine(targets) && FilledTo(s, targets, k)
    requires entries == TargetEntries(targets)[k..]
    ensures ApplyAll(Some(s), entries) == Filled(s, targets)
    decreases |targets| - k
  {
    if k == |targets| {
      FilledAll(s, targets);
    } else {
      TargetNext(s, targets, k, entries);
      var r := OneMore(s, targets, k);
      if r.None? {
        BarStops(s, targets, k, entries[1..]);
      } else {
        TargetsApply(r.value, targets, k + 1, entries[1..]);
        FilledOn(s, targets, targets[..k + 1]);
      }
    }
  }

  lemma BarStops(s: Loading, targets: seq<Target>, k: nat, more: seq<Entry>)
    requires k < |targets| && BAR in targets[k].path
    ensures Filled(s, targets) == None && ApplyAll(None, more) == None
  {
  }

  /** Target `k` joins the table, unless its path holds the separator. */
  function OneMore(s: Loading, targets: seq<Target>, k: nat): Option<Loading>
    requires k < |targets|
  {
    if BAR in targets[k].path then None
    else Some(Loading(s.config.(targets := targets[..k + 1]), s.seen + {StoragePath}))
  }

  lemma TargetNext(s: Loading, targets: seq<Target>, k: nat, entries: seq<Entry>)
    requires k < |targets| <= MAX_TARGETS && TargetsFine(targets) && FilledTo(s, targets, k)
    requires entries == TargetEntries(targets)[k..]
    ensures entries != [] && entries[1..] == TargetEntries(targets)[k + 1..]
    ensures ApplyAll(Some(s), entries) == ApplyAll(OneMore(s, targets, k), entries[1..])
    ensures OneMore(s, targets, k).Some? ==> FilledTo(OneMore(s, targets, k).value, targets, k + 1)
  {
    TargetStep(s, targets, k);
    EntriesFrom(targets, k);
    ApplyFirst(s, StoragePath, TargetText(targets[k]), entries[1..]);
  }

  lemma EntriesFrom(targets: seq<Target>, k: nat)
    requires k < |targets|
    ensures TargetEntries(targets)[k..] ==
            [Entry(StoragePath, TargetText(targets[k]))] + TargetEntries(targets)[k + 1..]
  {
  }

  lemma ApplyFirst(s: Loading, key: Key, value: Bytes, more: seq<Entry>)
    ensures ApplyAll(Some(s), [Entry(key, value)] + more) == ApplyAll(Apply(s, key, value), more)
  {
    assert ([Entry(key, value)] + more)[1..] == more;
  }

  lemma TargetStep(s: Loading, targets: seq<Target>, k: nat)
    requires k < |targets| <= MAX_TARGETS && TargetsFine(targets) && FilledTo(s, targets, k)
    ensures Apply(s, StoragePath, TargetText(targets[k])) == OneMore(s, targets, k)
    ensures OneMore(s, targets, k).Some? ==> FilledTo(OneMore(s, targets, k).value, targets, k + 1)
  {
    assert targets[..k + 1] == targets[..k] + [targets[k]];
    MeetsTargets(s, targets[..k]);
    assert !HasId(targets[..k], targets[k].id);
    TargetApplies(s, targets[k]);
  }

  lemma MeetsTargets(s: Loading, before: seq<Target>)
    requires if before == [] then StoragePath !in s.seen else StoragePath in s.seen && s.config.targets == before
    ensures Meet(s) == Loading(s.config.(targets := before), s.seen + {StoragePath})
  {
  }

  // ---------------------------------------------------------------- the other lines

  /** The field of one key, taken from another configuration. */
  function Copy(d: Config, key: Key, c: Config): Config {
    match key
    case Port => d.(port := c.port)
    case Auth => d.(auth := c.auth)
    case PinTtl => d.(pinTtl := c.pinTtl)
    case SessionTtl => d.(sessionTtl := c.sessionTtl)
    case Destination => d.(destination := c.destination)
    case MaxBytes => d.(maxBytes := c.maxBytes)
    case MaxFiles => d.(maxFiles := c.maxFiles)
    case Lang => d.(language := c.language)
    case Internal => d.(internal := c.internal)
    case Usb => d.(usb := c.usb)
    case StoragePath => d.(targets := c.targets)
  }

  predicate Saved(key: Key) { key != Internal && key != Usb && key != StoragePath }

  lemma NumberSets(d: Config, key: Key, c: Config)
    requires NumbersFine(c) && (key == Port || key == PinTtl || key == SessionTtl || key == MaxBytes || key == MaxFiles)
    ensures SetField(d, key, ValueOf(c, key)) == Some(Copy(d, key, c)) && ValueOk(ValueOf(c, key))
  {
    match key
    case Port => NumberValueOk(c.port, 1024, 65535);
    case PinTtl => NumberValueOk(c.pinTtl, 30, 600);
    case SessionTtl => NumberValueOk(c.sessionTtl, 60, 86400);
    case MaxBytes => NumberValueOk(c.maxBytes, 1, MAX_BYTES);
    case MaxFiles => NumberValueOk(c.maxFiles, 1, 1000);
  }

  lemma NameSets(d: Config, key: Key, c: Config)
    requires key == Auth || key == Lang
    ensures SetField(d, key, ValueOf(c, key)) == Some(Copy(d, key, c)) && ValueOk(ValueOf(c, key))
  {
  }

  /** Writing a field and reading it back sets it. */
  lemma FieldSets(d: Config, key: Key, c: Config)
    requires NumbersFine(c) && TextOk(c.destination) && Saved(key)
    ensures SetField(d, key, ValueOf(c, key)) == Some(Copy(d, key, c)) && ValueOk(ValueOf(c, key))
  {
    match key
    case Destination => PathValueOk(c.destination);
    case Auth | Lang => NameSets(d, key, c);
    case Port | PinTtl | SessionTtl | MaxBytes | MaxFiles => NumberSets(d, key, c);
  }

  function CopyAll(d: Config, keys: seq<Key>, c: Config): Config
    decreases |keys|
  {
    if keys == [] then d else CopyAll(Copy(d, keys[0], c), keys[1..], c)
  }

  predicate Fresh(keys: seq<Key>, seen: set<Key>) {
    && (forall i :: 0 <= i < |keys| ==> Saved(keys[i]) && keys[i] !in seen)
    && (forall i, j :: 0 <= i < j < |keys| ==> keys[i] != keys[j])
  }

  function SeenAfter(seen: set<Key>, keys: seq<Key>): set<Key>
    decreases |keys|
  {
    if keys == [] then seen else SeenAfter(seen + {keys[0]}, keys[1..])
  }

  lemma {:induction false} EntriesApply(s: Loading, keys: seq<Key>, c: Config)
    requires NumbersFine(c) && TextOk(c.destination) && Fresh(keys, s.seen)
    ensures ApplyAll(Some(s), Entries(c, keys)) == Some(Loading(CopyAll(s.config, keys, c), SeenAfter(s.seen, keys)))
    ensures forall i :: 0 <= i < |Entries(c, keys)| ==> ValueOk(Entries(c, keys)[i].value)
    decreases |keys|
  {
    if keys != [] {
      FieldSets(s.config, keys[0], c);
      var s' := Loading(Copy(s.config, keys[0], c), s.seen + {keys[0]});
      assert Entries(c, keys)[1..] == Entries(c, keys[1..]);
      EntriesApply(s', keys[1..], c);
    }
  }

  // ---------------------------------------------------------------- the whole file

  lemma CommentLine(s: Loading, text: Bytes)
    requires ValueOk(text) && text[0] == 0x23
    ensures ProcessLine(s, text + [NEWLINE]) == Some(s)
  {
    TrimFinds([], text, [NEWLINE]);
    assert [] + text + [NEWLINE] == text + [NEWLINE];
  }

  lemma CommentFits(text: Bytes)
    requires ValueOk(text) && text[0] == 0x23
    ensures LineOf(text + [NEWLINE], true) == Some(text + [NEWLINE])
  {
    var line := text + [NEWLINE];
    NoNul(line);
    assert line[|text|] == NEWLINE;
  }

  /** A first line that is a comment is passed over. */
  lemma CommentLoads(s: Loading, text: Bytes, rest: Bytes)
    requires ValueOk(text) && text[0] == 0x23
    ensures LoadLines(s, text + [NEWLINE] + rest, true) == LoadLines(s, rest, false)
  {
    LineTaken(text + [NEWLINE], rest);
    CommentFits(text);
    CommentLine(s, text);
  }

  lemma CommentText()
    ensures ValueOk(COMMENT) && COMMENT[0] == 0x23
  {
  }

  lemma HeadCopies(c: Config)
    ensures CopyAll(DEFAULTS, HEAD, c) ==
            Restored(c).(targets := DEFAULTS.targets, maxBytes := DEFAULTS.maxBytes, maxFiles := DEFAULTS.maxFiles)
    ensures SeenAfter({}, HEAD) == {Port, Auth, Lang, PinTtl, SessionTtl, Destination}
  {
  }

  lemma TailCopies(d: Config, seen: set<Key>, c: Config)
    ensures CopyAll(d, TAIL, c) == d.(maxBytes := c.maxBytes, maxFiles := c.maxFiles)
    ensures SeenAfter(seen, TAIL) == seen + {MaxBytes, MaxFiles}
  {
  }

  const START: Loading := Loading(DEFAULTS, {})

  /** The state after the first six lines. */
  function Headed(c: Config): Loading {
    Loading(Restored(c).(targets := DEFAULTS.targets, maxBytes := DEFAULTS.maxBytes, maxFiles := DEFAULTS.maxFiles),
            {Port, Auth, Lang, PinTtl, SessionTtl, Destination})
  }

  lemma HeadLoads(c: Config, rest: Bytes)
    requires NumbersFine(c) && TextOk(c.destination)
    ensures LoadLines(START, Lines(Entries(c, HEAD), rest), false) == LoadLines(Headed(c), rest, false)
  {
    EntriesApply(START, HEAD, c);
    HeadCopies(c);
    LinesLoad(Some(START), Entries(c, HEAD), rest);
  }

  lemma TargetsLoad(s: Loading, targets: seq<Target>, rest: Bytes)
    requires 0 < |targets| <= MAX_TARGETS && TargetsFine(targets) && StoragePath !in s.seen
    ensures LoadLines(s, Lines(TargetEntries(targets), rest), false) == Then(Filled(s, targets), rest)
  {
    var entries := TargetEntries(targets);
    forall i | 0 <= i < |entries| ensures ValueOk(entries[i].value) {
      TargetValueOk(targets[i]);
    }
    LinesLoad(Some(s), entries, rest);
    assert entries[0..] == entries;
    TargetsApply(s, targets, 0, entries);
  }

  function AfterTargets(c: Config): Bytes { Lines(Entries(c, TAIL), []) }

  /** And after the last two lines. */
  function Tailed(s: Loading, c: Config): Loading {
    Loading(s.config.(maxBytes := c.maxBytes, maxFiles := c.maxFiles), s.seen + {MaxBytes, MaxFiles})
  }

  lemma TailLoads(s: Loading, c: Config)
    requires NumbersFine(c) && TextOk(c.destination) && MaxBytes !in s.seen && MaxFiles !in s.seen
    ensures LoadLines(s, AfterTargets(c), false) == Some(Tailed(s, c))
  {
    EntriesApply(s, TAIL, c);
    TailCopies(s.config, s.seen, c);
    LinesLoad(Some(s), Entries(c, TAIL), []);
  }

  function AfterHead(c: Config): Bytes { Lines(TargetEntries(c.targets), AfterTargets(c)) }

  /** The lines after the comment. */
  function Written(c: Config): Bytes { Lines(Entries(c, HEAD), AfterHead(c)) }

  /** The state after the lines of the targets. */
  function Targeted(c: Config): Option<Loading> {
    Filled(Headed(c), c.targets)
  }

  function Reloaded(c: Config): Option<Loading> {
    match Targeted(c)
    case None => None
    case Some(s) => Some(Tailed(s, c))
  }

  lemma TargetsThen(c: Config)
    requires WellFormed(c)
    ensures LoadLines(Headed(c), AfterHead(c), false) == Then(Targeted(c), AfterTargets(c))
  {
    TargetsLoad(Headed(c), c.targets, AfterTargets(c));
  }

  lemma TailThen(c: Config)
    requires WellFormed(c)
    ensures Then(Targeted(c), AfterTargets(c)) == Reloaded(c)
  {
    if NoBars(c.targets) {
      TailLoads(Targeted(c).value, c);
    }
  }

  lemma WrittenLoads(c: Config)
    requires WellFormed(c)
    ensures LoadLines(START, Written(c), false) == Reloaded(c)
  {
    HeadLoads(c, AfterHead(c));
    TargetsThen(c);
    TailThen(c);
  }

  lemma SavedLoads(c: Config)
    ensures LoadLines(START, Save(c), true) == LoadLines(START, Written(c), false)
  {
    CommentText();
    CommentLoads(START, COMMENT, Written(c));
  }

  lemma FinishesAsIs(c: Config)
    requires WellFormed(c) && NoBars(c.targets)
    ensures Finish(Reloaded(c).value) == Some(Restored(c))
  {
  }

  /**
    Loading a saved well-formed configuration restores it, except the two legacy paths, which are not saved, if and
    only if no target path holds the separator; otherwise the saved file does not load at all.
   */
  lemma ConfigRoundTrip(c: Config)
    requires WellFormed(c)
    ensures Load(Save(c)) == if NoBars(c.targets) then Some(Restored(c)) else None
  {
    SavedLoads(c);
    WrittenLoads(c);
    if NoBars(c.targets) { FinishesAsIs(c); }
  }

  // ---------------------------------------------------------------- what loads is well formed

  lemma DefaultPaths()
    ensures TextOk(INTERNAL_PATH) && TextOk(USB_PATH)
  {
    DefaultPath([DATA, APP, INBOX]);
    DefaultPath([MNT, USB0, APP, INBOX]);
  }

  predicate PlainSegment(s: Bytes) { 3 <= |s| <= 12 && forall i :: 0 <= i < |s| ==> IdByte(s[i]) }

  lemma PlainSegments()
    ensures PlainSegment(DATA) && PlainSegment(MNT) && PlainSegment(USB0) && PlainSegment(APP) && PlainSegment(INBOX)
  {
  }

  lemma DefaultPath(segments: seq<Bytes>)
    requires segments == [DATA, APP, INBOX] || segments == [MNT, USB0, APP, INBOX]
    ensures TextOk(JoinSegments(segments))
  {
    PlainSegments();
    PlainPath(segments);
    assert segments[0] != DEV && segments[0] != PROC && segments[0] != SYS;
    assert IsSafeJoin(JoinSegments(segments), segments);
    PathSafeExactly(JoinSegments(segments));
  }

  lemma {:induction false} PlainPath(segments: seq<Bytes>)
    requires 0 < |segments| <= 4 && forall i :: 0 <= i < |segments| ==> PlainSegment(segments[i])
    ensures
      var path := JoinSegments(segments);
      && AllGood(segments) && 0 < |path| <= 13 * |segments| && path[0] == SLASH && !Space(path[|path| - 1])
    decreases |segments|
  {
    var head := segments[0];
    assert forall i :: 0 <= i < |head| ==> IdByte(head[i]);
    assert IdByte(head[|head| - 1]);
    assert GoodSegment(head);
    if |segments| > 1 {
      PlainPath(segments[1..]);
      assert forall i :: 1 <= i < |segments| ==> segments[i] == segments[1..][i - 1];
    } else {
      assert JoinSegments(segments[1..]) == [];
    }
  }

  lemma DefaultNames()
    ensures IdSafe(INTERNAL_ID) && IdSafe(USB_ID) && INTERNAL_ID != USB_ID
    ensures LabelSafe(INTERNAL_LABEL) && Trimmed(INTERNAL_LABEL) && LabelSafe(USB_LABEL) && Trimmed(USB_LABEL)
  {
  }

  lemma LegacyFine(internal: Bytes, usb: Bytes)
    requires TextOk(internal) && TextOk(usb)
    ensures TargetsFine(LegacyTargets(internal, usb))
  {
    DefaultNames();
  }

  /** While loading: the table is either the default one or filled from storage paths. */
  predicate Sound(s: Loading) {
    && NumbersFine(s.config) && TextOk(s.config.destination) && TextOk(s.config.internal) && TextOk(s.config.usb)
    && |s.config.targets| <= MAX_TARGETS
    && if StoragePath in s.seen then TargetsFine(s.config.targets) && NoBars(s.config.targets)
       else s.config.targets == DEFAULTS.targets
  }

  lemma StartSound()
    ensures Sound(START)
  {
    DefaultPaths();
  }

  lemma CutIsTrimmed(s: Bytes)
    requires Cut(s).Some?
    ensures Trimmed(Cut(s).value.0) && Trimmed(Cut(s).value.1)
  {
    var i := Find(s, BAR).value;
    TrimIsTrimmed(s[..i]);
    TrimIsTrimmed(s[i + 1..]);
  }

  lemma SplitIsTrimmed(value: Bytes)
    requires SplitTarget(value).Some?
    ensures Trimmed(SplitTarget(value).value.title) && Trimmed(SplitTarget(value).value.path)
  {
    CutIsTrimmed(Cut(Trim(value)).value.1);
  }

  lemma AddedFine(targets: seq<Target>, value: Bytes)
    requires TargetsFine(targets) && NoBars(targets) && AddTarget(targets, value).Some?
    ensures
      var more := AddTarget(targets, value).value;
      TargetsFine(more) && NoBars(more) && |more| <= MAX_TARGETS
  {
    SplitIsTrimmed(value);
    AppendFine(targets, SplitTarget(value).value);
  }

  lemma AppendFine(targets: seq<Target>, t: Target)
    requires TargetsFine(targets) && NoBars(targets) && TargetFine(t) && BAR !in t.path && !HasId(targets, t.id)
    ensures TargetsFine(targets + [t]) && NoBars(targets + [t])
  {
  }

  lemma SetNumberSound(s: Loading, key: Key, value: Bytes)
    requires key == Port || key == PinTtl || key == SessionTtl || key == MaxBytes || key == MaxFiles
    requires Sound(s) && SetField(s.config, key, value).Some?
    ensures Sound(s.(config := SetField(s.config, key, value).value))
  {
  }

  lemma SetPathSound(s: Loading, key: Key, value: Bytes)
    requires key == Destination || key == Internal || key == Usb
    requires Sound(s) && Trimmed(value) && SetField(s.config, key, value).Some?
    ensures Sound(s.(config := SetField(s.config, key, value).value))
  {
    assert TextOk(value);
  }

  lemma SetNameSound(s: Loading, key: Key, value: Bytes)
    requires key == Auth || key == Lang
    requires Sound(s) && SetField(s.config, key, value).Some?
    ensures Sound(s.(config := SetField(s.config, key, value).value))
  {
    var c := SetField(s.config, key, value).value;
    assert c == s.config.(auth := c.auth, language := c.language);
    NamesLeaveSound(s, c.auth, c.language);
  }

  lemma NamesLeaveSound(s: Loading, auth: AuthMode, language: Language)
    requires Sound(s)
    ensures Sound(s.(config := s.config.(auth := auth, language := language)))
  {
    assert NumbersFine(s.config.(auth := auth, language := language));
  }

  lemma SetSound(s: Loading, key: Key, value: Bytes)
    requires Sound(s) && Trimmed(value) && key != StoragePath && SetField(s.config, key, value).Some?
    ensures Sound(s.(config := SetField(s.config, key, value).value))
  {
    match key
    case Port | PinTtl | SessionTtl | MaxBytes | MaxFiles => SetNumberSound(s, key, value);
    case Auth | Lang => SetNameSound(s, key, value);
    case Destination | Internal | Usb => SetPathSound(s, key, value);
  }

  lemma ApplySound(s: Loading, key: Key, value: Bytes)
    requires Sound(s) && Trimmed(value) && Apply(s, key, value).Some?
    ensures Sound(Apply(s, key, value).value)
  {
    if key == StoragePath {
      AddedFine(Meet(s).config.targets, value);
    } else {
      SetSound(s, key, value);
    }
  }

  lemma LineSound(s: Loading, line: Bytes)
    requires Sound(s) && ProcessLine(s, line).Some?
    ensures Sound(ProcessLine(s, line).value)
  {
    var text := Trim(line);
    if text != [] && text[0] != 0x23 && text[0] != 0x3B {
      var k := Find(text, EQUALS).value;
      TrimIsTrimmed(text[k + 1..]);
      ApplySound(s, FindKey(Trim(text[..k]), 0).value, Trim(text[k + 1..]));
    }
  }

  lemma {:induction false} LinesSound(s: Loading, content: Bytes, first: bool)
    requires Sound(s) && LoadLines(s, content, first).Some?
    ensures Sound(LoadLines(s, content, first).value)
    decreases |content|
  {
    if content != [] {
      var n := ChunkSize(content);
      var line := LineOf(content[..n], first).value;
      LineSound(s, line);
      LinesSound(ProcessLine(s, line).value, content[n..], false);
    }
  }

  lemma FinishSound(s: Loading)
    requires Sound(s) && Finish(s).Some?
    ensures WellFormed(Finish(s).value)
    ensures StoragePath in s.seen ==> NoBars(Finish(s).value.targets)
  {
    var c := Legacy(s);
    if StoragePath !in s.seen {
      LegacyFine(c.internal, c.usb);
      assert c.targets[0 := c.targets[0].(path := c.internal)][1 := c.targets[1].(path := c.usb)] ==
             LegacyTargets(c.internal, c.usb);
    }
  }

  /** The destination last given is kept if it is the path of a target; otherwise the first target takes its place. */
  lemma DestinationOrFirstTarget(content: Bytes, s: Loading, c: Config)
    requires LoadLines(START, content, true) == Some(s) && Load(content) == Some(c)
    ensures c.targets != []
    ensures
      var named := exists i :: 0 <= i < |c.targets| && c.targets[i].path == s.config.destination;
      c.destination == if named then s.config.destination else c.targets[0].path
  {
  }

  /**
    Every successful load yields numbers in range, one to eight targets with distinct ids and safe, trimmed fields, and
    a destination that is one of the targets.
   */
  lemma LoadedIsWellFormed(content: Bytes, c: Config)
    requires Load(content) == Some(c)
    ensures WellFormed(c)
  {
    StartSound();
    LinesSound(START, content, true);
    FinishSound(LoadLines(START, content, true).value);
  }

  /** So what was loaded can be saved and loaded again, exactly unless a legacy destination with a separator got in. */
  lemma LoadSaveLoad(content: Bytes, c: Config)
    requires Load(content) == Some(c)
    ensures Load(Save(c)) == if NoBars(c.targets) then Some(Restored(c)) else None
  {
    LoadedIsWellFormed(content, c);
    ConfigRoundTrip(c);
  }

  /** A first line that is written, not a comment. */
  lemma FirstLineLoads(e: Entry)
    requires ValueOk(e.value)
    ensures LoadLines(START, Line(e), true) == Apply(START, e.key, e.value)
  {
    var line := Line(e);
    KeyIsName(e.key);
    LineShape(KeyText(e.key), e.value);
    LineTaken(line, []);
    assert line + [] == line;
    NoNul(line);
    NoMark(line, KeyText(e.key));
    LineApplies(START, e);
  }

  lemma NoMark(line: Bytes, name: Bytes)
    requires NameText(name) && |line| > |name| && line[..|name|] == name && line[|line| - 1] == NEWLINE
    requires forall i :: 0 <= i < |line| ==> line[i] != 0
    ensures LineOf(line, true) == Some(line)
  {
    NoNul(line);
    assert line[0] == name[0] && NameByte(name[0]);
  }

  /** What that one line leads to. */
  function DestinationOnly(destination: Bytes): Loading {
    Loading(DEFAULTS.(destination := destination), {Destination})
  }

  lemma DestinationLoads(destination: Bytes)
    requires TextOk(destination)
    ensures LoadLines(START, Line(Entry(Destination, destination)), true) == Some(DestinationOnly(destination))
  {
    PathValueOk(destination);
    FirstLineLoads(Entry(Destination, destination));
    DestinationApplies(destination);
  }

  lemma DestinationApplies(destination: Bytes)
    requires TextOk(destination)
    ensures Apply(START, Destination, destination) == Some(DestinationOnly(destination))
  {
    assert {} + {Destination} == {Destination};
    assert SetField(DEFAULTS, Destination, destination) == Some(DEFAULTS.(destination := destination));
  }

  lemma DestinationFinishes(destination: Bytes, c: Config)
    requires TextOk(destination) && SafeChild(destination, DATA_ROOT)
    requires !SafeChild(destination, USB_ROOT) && destination != USB_ROOT
    requires c == DEFAULTS.(destination := destination, internal := destination,
                            targets := LegacyTargets(destination, USB_PATH))
    ensures Finish(DestinationOnly(destination)) == Some(c)
  {
    var d := DEFAULTS.(destination := destination, internal := destination);
    assert Legacy(DestinationOnly(destination)) == d;
    assert d.targets[0 := d.targets[0].(path := d.internal)][1 := d.targets[1].(path := d.usb)] == c.targets;
    assert c.targets[0].path == destination;
    assert HasPath(c.targets, destination);
  }

  /**
    A file that names only a destination under /data with the separator in it loads, with that destination as its
    internal target, and what is then saved does not load.
   */
  lemma LegacyBarDoesNotReload(destination: Bytes, c: Config)
    requires TextOk(destination) && SafeChild(destination, DATA_ROOT) && BAR in destination
    requires !SafeChild(destination, USB_ROOT) && destination != USB_ROOT
    requires c == DEFAULTS.(destination := destination, internal := destination,
                            targets := LegacyTargets(destination, USB_PATH))
    ensures Load(Line(Entry(Destination, destination))) == Some(c) && Load(Save(c)) == None
  {
    DestinationLoads(destination);
    DestinationFinishes(destination, c);
    LoadSaveLoad(Line(Entry(Destination, destination)), c);
    assert BAR in c.targets[0].path;
  }
}
