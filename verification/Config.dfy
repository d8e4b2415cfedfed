/** The configuration file of src/config.c: what a line does, what loading yields, and what saving writes. */
module Configs {
  import opened Bytes
  import opened Decimal
  import opened ConfigText

  const BAR: byte := 0x7C
  const EQUALS: byte := 0x3D

  const LINE_CAPACITY: nat := 2048
  const PATH_CAPACITY: nat := 1024
  const ID_CAPACITY: nat := 32
  const LABEL_CAPACITY: nat := 96
  const MAX_TARGETS: nat := 8
  const MAX_BYTES: nat := 0x100_0000_0000

  datatype AuthMode = Pin | NoAuth
  datatype Language = En | Ru

  datatype Target = Target(id: Bytes, title: Bytes, path: Bytes)

  datatype Config = Config(port: nat, auth: AuthMode, language: Language, pinTtl: nat, sessionTtl: nat,
                           destination: Bytes, internal: Bytes, usb: Bytes, targets: seq<Target>,
                           maxBytes: nat, maxFiles: nat)

  datatype Key =
    | Port | Auth | PinTtl | SessionTtl | Destination | Internal | Usb | StoragePath | MaxBytes | MaxFiles | Lang

  // ---------------------------------------------------------------- names and defaults

  function KeyText(k: Key): Bytes {
    match k
    case Port => [0x70, 0x6F, 0x72, 0x74]
    case Auth => [0x61, 0x75, 0x74, 0x68, 0x5F, 0x6D, 0x6F, 0x64, 0x65]
    case PinTtl => [0x70, 0x69, 0x6E, 0x5F, 0x74, 0x74, 0x6C, 0x5F, 0x73, 0x65, 0x63, 0x6F, 0x6E, 0x64, 0x73]
    case SessionTtl =>
      [0x73, 0x65, 0x73, 0x73, 0x69, 0x6F, 0x6E, 0x5F, 0x74, 0x74,
       0x6C, 0x5F, 0x73, 0x65, 0x63, 0x6F, 0x6E, 0x64, 0x73]
    case Destination => [0x64, 0x65, 0x73, 0x74, 0x69, 0x6E, 0x61, 0x74, 0x69, 0x6F, 0x6E]
    case Internal =>
      [0x69, 0x6E, 0x74, 0x65, 0x72, 0x6E, 0x61, 0x6C, 0x5F, 0x64,
       0x65, 0x73, 0x74, 0x69, 0x6E, 0x61, 0x74, 0x69, 0x6F, 0x6E]
    case Usb => [0x75, 0x73, 0x62, 0x5F, 0x64, 0x65, 0x73, 0x74, 0x69, 0x6E, 0x61, 0x74, 0x69, 0x6F, 0x6E]
    case StoragePath => [0x73, 0x74, 0x6F, 0x72, 0x61, 0x67, 0x65, 0x5F, 0x70, 0x61, 0x74, 0x68]
    case MaxBytes => [0x6D, 0x61, 0x78, 0x5F, 0x66, 0x69, 0x6C, 0x65, 0x5F, 0x62, 0x79, 0x74, 0x65, 0x73]
    case MaxFiles =>
      [0x6D, 0x61, 0x78, 0x5F, 0x66, 0x69, 0x6C, 0x65, 0x73, 0x5F, 0x70,
       0x65, 0x72, 0x5F, 0x73, 0x65, 0x73, 0x73, 0x69, 0x6F, 0x6E]
    case Lang => [0x6C, 0x61, 0x6E, 0x67, 0x75, 0x61, 0x67, 0x65]
  }

  const KEYS: seq<Key> := [Port, Auth, PinTtl, SessionTtl, Destination, Internal, Usb, StoragePath, MaxBytes,
                           MaxFiles, Lang]

  function FindKey(text: Bytes, i: nat): Option<Key>
    requires i <= |KEYS|
    decreases |KEYS| - i
  {
    if i == |KEYS| then None else if KeyText(KEYS[i]) == text then Some(KEYS[i]) else FindKey(text, i + 1)
  }

  const PIN_TEXT: Bytes := [0x70, 0x69, 0x6E]
  const NONE_TEXT: Bytes := [0x6E, 0x6F, 0x6E, 0x65]
  const EN_TEXT: Bytes := [0x65, 0x6E]
  const RU_TEXT: Bytes := [0x72, 0x75]

  function AuthText(a: AuthMode): Bytes { if a == NoAuth then NONE_TEXT else PIN_TEXT }

  function LanguageText(l: Language): Bytes { if l == Ru then RU_TEXT else EN_TEXT }

  const DATA: Bytes := [0x64, 0x61, 0x74, 0x61]
  const MNT: Bytes := [0x6D, 0x6E, 0x74]
  const USB0: Bytes := [0x75, 0x73, 0x62, 0x30]
  const APP: Bytes := [0x70, 0x73, 0x35, 0x6C, 0x6F, 0x63, 0x61, 0x6C, 0x73, 0x65, 0x6E, 0x64]
  const INBOX: Bytes := [0x69, 0x6E, 0x62, 0x6F, 0x78]

  const DATA_ROOT: Bytes := JoinSegments([DATA])
  const USB_ROOT: Bytes := JoinSegments([MNT, USB0])
  const INTERNAL_PATH: Bytes := JoinSegments([DATA, APP, INBOX])
  const USB_PATH: Bytes := JoinSegments([MNT, USB0, APP, INBOX])

  const INTERNAL_ID: Bytes := [0x69, 0x6E, 0x74, 0x65, 0x72, 0x6E, 0x61, 0x6C]
  const INTERNAL_LABEL: Bytes :=
    [0x49, 0x6E, 0x74, 0x65, 0x72, 0x6E, 0x61, 0x6C,
     0x20, 0x73, 0x74, 0x6F, 0x72, 0x61, 0x67, 0x65]
  const USB_ID: Bytes := [0x75, 0x73, 0x62]
  const USB_LABEL: Bytes := [0x55, 0x53, 0x42, 0x20, 0x64, 0x72, 0x69, 0x76, 0x65]

  function LegacyTargets(internal: Bytes, usb: Bytes): seq<Target> {
    [Target(INTERNAL_ID, INTERNAL_LABEL, internal), Target(USB_ID, USB_LABEL, usb)]
  }

  /** config_set_defaults. */
  const DEFAULTS: Config :=
    Config(53317, Pin, En, 120, 900, INTERNAL_PATH, INTERNAL_PATH, USB_PATH, LegacyTargets(INTERNAL_PATH, USB_PATH),
           21474836480, 100)

  // ---------------------------------------------------------------- values

  /** destination_is_safe_for_root. */
  predicate SafeChild(path: Bytes, root: Bytes) {
    PathSafe(path) && root <= path && |path| > |root| + 1 && path[|root|] == SLASH
  }

  predicate IdByte(b: byte) {
    0x30 <= b <= 0x39 || 0x41 <= b <= 0x5A || 0x61 <= b <= 0x7A || b == 0x5F || b == 0x2D
  }

  predicate IdSafe(id: Bytes) { 0 < |id| < ID_CAPACITY && forall i :: 0 <= i < |id| ==> IdByte(id[i]) }

  predicate LabelByte(b: byte) { b >= 0x20 && b != 0x7F && b != 0x22 && b != 0x5C && b != BAR }

  predicate LabelSafe(title: Bytes) {
    0 < |title| < LABEL_CAPACITY && forall i :: 0 <= i < |title| ==> LabelByte(title[i])
  }

  /** config_storage_by_id. */
  predicate HasId(targets: seq<Target>, id: Bytes) { exists i :: 0 <= i < |targets| && targets[i].id == id }

  /** config_storage_by_path. */
  predicate HasPath(targets: seq<Target>, path: Bytes) { exists i :: 0 <= i < |targets| && targets[i].path == path }

  /** What stands before and after the first separator, each trimmed. */
  function Cut(s: Bytes): Option<(Bytes, Bytes)> {
    match Find(s, BAR)
    case None => None
    case Some(i) => Some((Trim(s[..i]), Trim(s[i + 1..])))
  }

  /** The three parts of a storage_path value. */
  function SplitTarget(value: Bytes): Option<Target> {
    match Cut(Trim(value))
    case None => None
    case Some((id, rest)) =>
      match Cut(rest)
      case None => None
      case Some((title, path)) => Some(Target(id, title, path))
  }

  predicate TargetOk(t: Target) {
    && BAR !in t.path && IdSafe(t.id) && LabelSafe(t.title)
    && |t.path| < PATH_CAPACITY && PathSafe(t.path)
  }

  /** add_storage_target. */
  function AddTarget(targets: seq<Target>, value: Bytes): Option<seq<Target>> {
    if |value| >= LINE_CAPACITY then None
    else
      match SplitTarget(value)
      case None => None
      case Some(t) =>
        if !TargetOk(t) || |targets| >= MAX_TARGETS || HasId(targets, t.id) then None else Some(targets + [t])
  }

  /** The value of any other key. */
  function SetField(c: Config, key: Key, value: Bytes): Option<Config>
    requires key != StoragePath
  {
    match key
    case Port =>
      (match ParseU64(value, 1024, 65535)
       case None => None
       case Some(n) => Some(c.(port := n)))
    case Auth =>
      if value == PIN_TEXT then Some(c.(auth := Pin))
      else if value == NONE_TEXT then Some(c.(auth := NoAuth))
      else None
    case PinTtl =>
      (match ParseU64(value, 30, 600)
       case None => None
       case Some(n) => Some(c.(pinTtl := n)))
    case SessionTtl =>
      (match ParseU64(value, 60, 86400)
       case None => None
       case Some(n) => Some(c.(sessionTtl := n)))
    case Destination => if |value| < PATH_CAPACITY && PathSafe(value) then Some(c.(destination := value)) else None
    case Internal =>
      if |value| < PATH_CAPACITY && SafeChild(value, DATA_ROOT) then Some(c.(internal := value)) else None
    case Usb => if |value| < PATH_CAPACITY && SafeChild(value, USB_ROOT) then Some(c.(usb := value)) else None
    case MaxBytes =>
      (match ParseU64(value, 1, MAX_BYTES)
       case None => None
       case Some(n) => Some(c.(maxBytes := n)))
    case MaxFiles =>
      (match ParseU64(value, 1, 1000)
       case None => None
       case Some(n) => Some(c.(maxFiles := n)))
    case Lang =>
      if value == EN_TEXT then Some(c.(language := En))
      else if value == RU_TEXT then Some(c.(language := Ru))
      else None
  }

  /** The struct while it is being filled, and the keys met so far. */
  datatype Loading = Loading(config: Config, seen: set<Key>)

  /** The first storage_path drops the default targets. */
  function Meet(s: Loading): Loading {
    Loading(if StoragePath !in s.seen then s.config.(targets := []) else s.config, s.seen + {StoragePath})
  }

  /** A storage_path line, which may come more than once. */
  function AddStorage(s: Loading, value: Bytes): Option<Loading> {
    var m := Meet(s);
    match AddTarget(m.config.targets, value)
    case None => None
    case Some(targets) => Some(m.(config := m.config.(targets := targets)))
  }

  /** apply_value, None on error. */
  function Apply(s: Loading, key: Key, value: Bytes): Option<Loading> {
    if key == StoragePath then AddStorage(s, value)
    else if key in s.seen then None
    else
      match SetField(s.config, key, value)
      case None => None
      case Some(c) => Some(Loading(c, s.seen + {key}))
  }

  // ---------------------------------------------------------------- lines

  /** A line without its byte order mark. */
  function ProcessLine(s: Loading, line: Bytes): Option<Loading> {
    var text := Trim(line);
    if text == [] || text[0] == 0x23 || text[0] == 0x3B then Some(s)
    else
      match Find(text, EQUALS)
      case None => None
      case Some(k) =>
        var value, name := Trim(text[k + 1..]), Trim(text[..k]);
        if value == [] || name == [] then None
        else
          match FindKey(name, 0)
          case None => None
          case Some(key) => Apply(s, key, value)
  }

  /** How many bytes one fgets takes. */
  function ChunkSize(content: Bytes): (n: nat)
    requires content != []
    ensures 0 < n <= |content| && n < LINE_CAPACITY
  {
    var line := match Find(content, NEWLINE) case None => |content| case Some(k) => k + 1;
    if line < LINE_CAPACITY then line else LINE_CAPACITY - 1
  }

  /** The C string in a buffer of raw bytes. */
  function UpToNul(raw: Bytes): (r: Bytes)
    ensures r <= raw && 0 !in r
  {
    match Find(raw, 0)
    case None => raw
    case Some(k) => raw[..k]
  }

  predicate Utf16(raw: Bytes) {
    (At(raw, 0) == 0xFF && At(raw, 1) == 0xFE) || (At(raw, 0) == 0xFE && At(raw, 1) == 0xFF)
  }

  function WithoutMark(line: Bytes): Bytes {
    if |line| >= 3 && line[0] == 0xEF && line[1] == 0xBB && line[2] == 0xBF then line[3..] else line
  }

  /** The text of what one fgets read; None when the line is too long or the encoding is wrong. */
  function LineOf(raw: Bytes, first: bool): Option<Bytes> {
    if first && Utf16(raw) then None
    else
      var line := if first then WithoutMark(UpToNul(raw)) else UpToNul(raw);
      var atEnd := |raw| < LINE_CAPACITY - 1 && NEWLINE !in raw;
      if NEWLINE !in line && !atEnd then None else Some(line)
  }

  /** The loop of config_load_file. */
  function LoadLines(s: Loading, content: Bytes, first: bool): Option<Loading>
    decreases |content|
  {
    if content == [] then Some(s)
    else
      var n := ChunkSize(content);
      match LineOf(content[..n], first)
      case None => None
      case Some(line) =>
        match ProcessLine(s, line)
        case None => None
        case Some(s') => LoadLines(s', content[n..], false)
  }

  /** An old file names a destination but no storage paths. */
  function Legacy(s: Loading): Config {
    var c := s.config;
    if StoragePath in s.seen || Destination !in s.seen then c
    else if (SafeChild(c.destination, USB_ROOT) || c.destination == USB_ROOT) && Usb !in s.seen
        then c.(usb := c.destination)
    else if SafeChild(c.destination, DATA_ROOT) && Internal !in s.seen then c.(internal := c.destination)
    else c
  }

  /** The end of config_load_file. */
  function Finish(s: Loading): Option<Config> {
    var c := Legacy(s);
    var d := if StoragePath in s.seen || |c.targets| < 2 then c
             else c.(targets := c.targets[0 := c.targets[0].(path := c.internal)][1 := c.targets[1].(path := c.usb)]);
    if d.targets == [] then None
    else Some(if HasPath(d.targets, d.destination) then d else d.(destination := d.targets[0].path))
  }

  function Load(content: Bytes): Option<Config> {
    match LoadLines(Loading(DEFAULTS, {}), content, true)
    case None => None
    case Some(s) => Finish(s)
  }

  datatype FileState = Missing | Unreadable | Readable(content: Bytes, readError: bool)

  datatype LoadResult = LoadOk(config: Config) | NotFound(config: Config) | Invalid | IoError

  /** config_load_file. */
  function LoadFile(file: FileState): LoadResult {
    match file
    case Missing => NotFound(DEFAULTS)
    case Unreadable => IoError
    case Readable(content, readError) =>
      match LoadLines(Loading(DEFAULTS, {}), content, true)
      case None => Invalid
      case Some(s) =>
        if readError then IoError
        else
          match Finish(s)
          case None => Invalid
          case Some(c) => LoadOk(c)
  }

  // ---------------------------------------------------------------- saving

  const COMMENT: Bytes := [0x23, 0x20, 0x50, 0x53, 0x35, 0x20, 0x4C, 0x6F, 0x63, 0x61, 0x6C, 0x53, 0x65, 0x6E, 0x64,
                           0x20, 0x63, 0x6F, 0x6E, 0x66, 0x69, 0x67, 0x75, 0x72, 0x61, 0x74, 0x69, 0x6F, 0x6E]

  datatype Entry = Entry(key: Key, value: Bytes)

  function TargetText(t: Target): Bytes { t.id + [BAR] + (t.title + [BAR] + t.path) }

  function TargetEntries(targets: seq<Target>): seq<Entry> {
    seq(|targets|, i requires 0 <= i < |targets| => Entry(StoragePath, TargetText(targets[i])))
  }

  /** The value a key is written with. */
  function ValueOf(c: Config, key: Key): Bytes {
    match key
    case Port => Print(c.port)
    case Auth => AuthText(c.auth)
    case PinTtl => Print(c.pinTtl)
    case SessionTtl => Print(c.sessionTtl)
    case Destination => c.destination
    case MaxBytes => Print(c.maxBytes)
    case MaxFiles => Print(c.maxFiles)
    case Lang => LanguageText(c.language)
    case Internal => c.internal
    case Usb => c.usb
    case StoragePath => []
  }

  const HEAD: seq<Key> := [Port, Auth, Lang, PinTtl, SessionTtl, Destination]
  const TAIL: seq<Key> := [MaxBytes, MaxFiles]

  function Entries(c: Config, keys: seq<Key>): seq<Entry> {
    if keys == [] then [] else [Entry(keys[0], ValueOf(c, keys[0]))] + Entries(c, keys[1..])
  }

  function Line(e: Entry): Bytes { KeyText(e.key) + [EQUALS] + e.value + [NEWLINE] }

  /** The lines, and what follows them. */
  function Lines(entries: seq<Entry>, rest: Bytes): Bytes {
    if entries == [] then rest else Line(entries[0]) + Lines(entries[1..], rest)
  }

  /** The text config_save_file writes. */
  function Save(c: Config): Bytes {
    COMMENT + [NEWLINE] + Lines(Entries(c, HEAD), Lines(TargetEntries(c.targets), Lines(Entries(c, TAIL), [])))
  }
}
