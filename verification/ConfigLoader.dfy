/** config_load_file and config_save_file with the struct they fill and the buffers they walk. */
module ConfigLoaders {
  import opened Bytes
  import opened Decimal
  import opened ConfigText
  import opened Configs

  class ConfigLoader {
    var config: Config
    var seen: set<Key>

    ghost function View(): Loading
      reads this
    {
      Loading(config, seen)
    }

    constructor ()
      ensures View() == Loading(DEFAULTS, {})
    {
      config, seen := DEFAULTS, {};
    }

    /** strcmp of the id with every entry so far. */
    method TargetIdTaken(id: Bytes) returns (taken: bool)
      ensures taken == HasId(config.targets, id)
    {
      for index := 0 to |config.targets|
        invariant forall i :: 0 <= i < index ==> config.targets[i].id != id
      {
        if config.targets[index].id == id { return true; }
      }
      return false;
    }

    /** add_storage_target. */
    method AddStorageTarget(value: CString) returns (ok: bool)
      modifies `config
      ensures ok == AddTarget(old(config.targets), value).Some?
      ensures config == if ok then old(config).(targets := AddTarget(old(config.targets), value).value) else old(config)
    {
      if |value| >= LINE_CAPACITY { return false; }
      var copy := TrimText(value);
      assert copy == Trim(value);
      var split := SplitTarget(value);
      if split.None? { return false; }
      var t := split.value;
      if !TargetOk(t) || |config.targets| >= MAX_TARGETS { return false; }
      var taken := TargetIdTaken(t.id);
      if taken { return false; }
      config := config.(targets := config.targets + [t]);
      return true;
    }

    /** apply_value. On an error the table may already be emptied, and the caller gives the struct up. */
    method ApplyValue(key: Key, value: CString) returns (ok: bool)
      modifies this
      ensures ok == Apply(old(View()), key, value).Some?
      ensures ok ==> View() == Apply(old(View()), key, value).value
      ensures seen == old(seen) + {key}
      ensures !ok ==> config == if key == StoragePath && key !in old(seen)
              then old(config).(targets := []) else old(config)
    {
      if key != StoragePath && key in seen { return false; }
      if key == StoragePath {
        if key !in seen { config := config.(targets := []); }
        seen := seen + {key};
        ok := AddStorageTarget(value);
      } else {
        seen := seen + {key};
        var c := SetField(config, key, value);
        if c.None? { return false; }
        config := c.value;
        ok := true;
      }
    }

    /** One line of the file, from its trimming to apply_value. */
    method TakeLine(line: CString) returns (ok: bool)
      modifies this
      ensures ok == ProcessLine(old(View()), line).Some?
      ensures ok ==> View() == ProcessLine(old(View()), line).value
    {
      var text := TrimText(line);
      if text == [] || text[0] == 0x23 || text[0] == 0x3B { return true; }
      var separator := Find(text, EQUALS);
      if separator.None? { return false; }
      TrimKeepsOut(line, 0);
      var value := TrimText(text[separator.value + 1..]);
      var name := TrimText(text[..separator.value]);
      if name == [] || value == [] { return false; }
      var key := FindKey(name, 0);
      if key.None? { return false; }
      TrimKeepsOut(text[separator.value + 1..], 0);
      ok := ApplyValue(key.value, value);
    }

    /** The loop over the lines. */
    method TakeLines(content: Bytes) returns (ok: bool)
      modifies this
      ensures ok == LoadLines(old(View()), content, true).Some?
      ensures ok ==> View() == LoadLines(old(View()), content, true).value
    {
      var rest, first := content, true;
      while rest != []
        invariant LoadLines(View(), rest, first) == LoadLines(old(View()), content, true)
        decreases |rest|
      {
        var n := ChunkSize(rest);
        var line := LineOf(rest[..n], first);
        if line.None? { return false; }
        var taken := TakeLine(line.value);
        if !taken { return false; }
        rest, first := rest[n..], false;
      }
      return true;
    }

    /** config_load_file. */
    method LoadConfig(file: FileState) returns (r: LoadResult)
      modifies this
      ensures r == LoadFile(file)
    {
      config, seen := DEFAULTS, {};
      if file.Missing? { return NotFound(config); }
      if file.Unreadable? { return IoError; }
      var ok := TakeLines(file.content);
      if !ok { return Invalid; }
      if file.readError { return IoError; }
      var c := Finish(Loading(config, seen));
      if c.None? { return Invalid; }
      config := c.value;
      return LoadOk(config);
    }
  }

  lemma {:induction false} LinesAppend(entries: seq<Entry>, rest: Bytes)
    ensures Lines(entries, rest) == Lines(entries, []) + rest
    decreases |entries|
  {
    if entries != [] { LinesAppend(entries[1..], rest); }
  }

  /** The text config_save_file writes, line by line. */
  method SaveConfig(c: Config) returns (text: Bytes)
    ensures text == Save(c)
  {
    ghost var tail := Lines(Entries(c, TAIL), []);
    ghost var targets := TargetEntries(c.targets);
    text := COMMENT + [NEWLINE] + Lines(Entries(c, HEAD), []);
    LinesAppend(Entries(c, HEAD), Lines(targets, tail));
    assert targets[0..] == targets;
    for index := 0 to |c.targets|
      invariant text + Lines(targets[index..], tail) == Save(c)
    {
      assert targets[index..][1..] == targets[index + 1..];
      assert targets[index..][0] == Entry(StoragePath, TargetText(c.targets[index]));
      text := text + Line(Entry(StoragePath, TargetText(c.targets[index])));
    }
    text := text + Lines(Entries(c, TAIL), []);
  }
}
