/** parse_metadata of src/upload.c: the JSON object that announces an upload. */
module Metadata {
  import opened Bytes
  import opened Decimal
  import opened Json
  import SafePath
  import Upload

  const COLON: byte := 0x3A
  const COMMA: byte := 0x2C
  const OPEN: byte := 0x7B
  const CLOSE: byte := 0x7D

  const KEY_NAME: Bytes := [0x6E, 0x61, 0x6D, 0x65]
  const KEY_SIZE: Bytes := [0x73, 0x69, 0x7A, 0x65]
  const KEY_TYPE: Bytes := [0x74, 0x79, 0x70, 0x65]
  const KEY_HASH: Bytes := [0x73, 0x68, 0x61, 0x32, 0x35, 0x36]

  const KEY_CAPACITY: nat := 16
  const NAME_CAPACITY: nat := 256
  const TYPE_CAPACITY: nat := 128
  const HASH_CAPACITY: nat := 65

  predicate Space(b: byte) { b == 0x20 || b == 0x09 || b == 0x0A || b == 0x0D }

  predicate Spaces(s: Bytes) { forall i :: 0 <= i < |s| ==> Space(s[i]) }

  /** skip_ws. */
  function Skip(t: Bytes): (r: Bytes)
    ensures |r| <= |t| && (r != [] ==> !Space(r[0]))
  {
    if t != [] && Space(t[0]) then Skip(t[1..]) else t
  }

  // ---------------------------------------------------------------- the parser

  datatype Field = Name(text: Bytes) | Size(size: nat) | Kind(text: Bytes) | Hash(text: Bytes)

  /** What was seen so far; a field still None was not. */
  datatype Seen = Seen(name: Option<Bytes>, size: Option<nat>, kind: Option<Bytes>, hash: Option<Bytes>)

  const NOTHING := Seen(None, None, None, None)

  /** A key may come once. */
  function Put(seen: Seen, f: Field): Option<Seen> {
    match f
    case Name(text) => if seen.name.None? then Some(seen.(name := Some(text))) else None
    case Size(size) => if seen.size.None? then Some(seen.(size := Some(size))) else None
    case Kind(text) => if seen.kind.None? then Some(seen.(kind := Some(text))) else None
    case Hash(text) => if seen.hash.None? then Some(seen.(hash := Some(text))) else None
  }

  predicate HexHash(h: Bytes) { |h| == 64 && forall i :: 0 <= i < 64 ==> IsHex(h[i]) }

  /** The field that a key and its text value make. */
  function TextField(key: Bytes, text: Bytes): Option<Field> {
    if key == KEY_NAME then if |text| < NAME_CAPACITY then Some(Name(text)) else None
    else if key == KEY_TYPE then if |text| < TYPE_CAPACITY then Some(Kind(text)) else None
    else if key == KEY_HASH then if HexHash(text) then Some(Hash(text)) else None
    else None
  }

  /** Enough room for any text the field accepts. */
  function CapacityFor(key: Bytes): (n: nat)
    ensures n > 0
  {
    if key == KEY_NAME then NAME_CAPACITY else if key == KEY_TYPE then TYPE_CAPACITY else HASH_CAPACITY
  }

  /** The value after a key. */
  function ReadField(key: Bytes, t: Bytes): (r: Option<(Field, Bytes)>)
    ensures r.Some? ==> |r.value.1| < |t|
  {
    if key == KEY_SIZE then
      match Number(t)
      case None => None
      case Some((n, rest)) => Some((Size(n), rest))
    else
      match String(t, CapacityFor(key))
      case None => None
      case Some((text, rest)) =>
        match TextField(key, text)
        case None => None
        case Some(f) => Some((f, rest))
  }

  /** One `key : value` with the white space after it. */
  function Member(t: Bytes): (r: Option<(Field, Bytes)>)
    ensures r.Some? ==> |r.value.1| < |t|
  {
    match String(t, KEY_CAPACITY)
    case None => None
    case Some((key, afterKey)) =>
      var c := Skip(afterKey);
      if c == [] || c[0] != COLON then None
      else
        match ReadField(key, Skip(c[1..]))
        case None => None
        case Some((f, rest)) => Some((f, Skip(rest)))
  }

  /** One turn of the loop: it fails, reads the closing brace, or goes on behind a comma. */
  datatype Turn = Fail | Done(seen: Seen, rest: Bytes) | More(seen: Seen, rest: Bytes)

  function TurnAfter(seen: Seen, rest: Bytes): Turn {
    if rest == [] then Fail
    else if rest[0] == CLOSE then Done(seen, rest[1..])
    else if rest[0] != COMMA then Fail
    else
      var next := Skip(rest[1..]);
      if next == [] || next[0] == CLOSE then Fail else More(seen, next)
  }

  function TakeTurn(seen: Seen, t: Bytes): (r: Turn)
    ensures r.More? ==> |r.rest| < |t|
  {
    var a := Skip(t);
    if a != [] && a[0] == CLOSE then Done(seen, a[1..])
    else
      match Member(a)
      case None => Fail
      case Some((f, rest)) =>
        match Put(seen, f)
        case None => Fail
        case Some(seen') => TurnAfter(seen', rest)
  }

  /** The loop over the members, up to and past the closing brace. */
  function Members(seen: Seen, t: Bytes): Option<(Seen, Bytes)>
    decreases |t|
  {
    match TakeTurn(seen, t)
    case Fail => None
    case Done(seen', rest) => Some((seen', rest))
    case More(seen', rest) => Members(seen', rest)
  }

  datatype Announced = Announced(name: Bytes, size: nat, hash: Bytes)

  /** The checks after the last brace. A hash that was not given is the empty text. */
  function Accept(seen: Seen): Option<Announced> {
    if seen.name.Some? && seen.size.Some? && seen.kind.Some? && SafePath.ValidName(seen.name.value) &&
       !Upload.IsPartName(seen.name.value) && seen.kind.value != []
    then Some(Announced(seen.name.value, seen.size.value, if seen.hash.Some? then seen.hash.value else []))
    else None
  }

  /** parse_metadata. */
  function Parse(json: Bytes): Option<Announced> {
    var a := Skip(json);
    if a == [] || a[0] != OPEN then None
    else
      match Members(NOTHING, a[1..])
      case None => None
      case Some((seen, rest)) => if Skip(rest) == [] then Accept(seen) else None
  }

  // ---------------------------------------------------------------- the texts it is meant to read

  /** The text of a value: a string's raw body, or digits. */
  datatype Raw = Text(body: Bytes) | Digits(text: Bytes)

  /** One member as written, with the white space at each place that allows it. */
  datatype Item = Item(before: Bytes, key: Bytes, gap1: Bytes, gap2: Bytes, value: Raw, after: Bytes)

  function Quoted(body: Bytes, rest: Bytes): Bytes { [QUOTE] + body + [QUOTE] + rest }

  function WriteRaw(v: Raw, rest: Bytes): Bytes {
    match v
    case Text(body) => Quoted(body, rest)
    case Digits(text) => text + rest
  }

  function WriteValue(it: Item, rest: Bytes): Bytes { it.gap2 + WriteRaw(it.value, it.after + rest) }

  /** The item and what follows it. */
  function Write(it: Item, rest: Bytes): Bytes {
    it.before + Quoted(it.key, it.gap1 + ([COLON] + WriteValue(it, rest)))
  }

  /** The members separated by commas, the closing brace, and what follows it. */
  function WriteAll(items: seq<Item>, rest: Bytes): Bytes
    requires items != []
  {
    Write(items[0], if |items| == 1 then [CLOSE] + rest else [COMMA] + WriteAll(items[1..], rest))
  }

  function Document(lead: Bytes, items: seq<Item>, trail: Bytes): Bytes
    requires items != []
  {
    lead + ([OPEN] + WriteAll(items, trail))
  }

  predicate Spaced(it: Item) { Spaces(it.before) && Spaces(it.gap1) && Spaces(it.gap2) && Spaces(it.after) }

  /** The field of a raw value under a key. */
  function RawField(key: Bytes, v: Raw): Option<Field> {
    match v
    case Text(body) =>
      if key == KEY_SIZE || Unescape(body).None? then None else TextField(key, Unescape(body).value)
    case Digits(text) =>
      if key == KEY_SIZE && Canonical(text) && Value(text) < U64_LIMIT then Some(Size(Value(text))) else None
  }

  /** The field an item stands for. */
  function FieldOf(it: Item): Option<Field> {
    if !Spaced(it) || Unescape(it.key).None? || |Unescape(it.key).value| >= KEY_CAPACITY then None
    else RawField(Unescape(it.key).value, it.value)
  }

  /** All items put one after the other. */
  function PutAll(seen: Seen, items: seq<Item>): Option<Seen>
    decreases |items|
  {
    if items == [] then Some(seen)
    else
      match FieldOf(items[0])
      case None => None
      case Some(f) =>
        match Put(seen, f)
        case None => None
        case Some(seen') => PutAll(seen', items[1..])
  }

  // ---------------------------------------------------------------- reading what was written

  lemma {:induction false} SkipSpaces(w: Bytes, t: Bytes)
    requires Spaces(w) && (t != [] ==> !Space(t[0]))
    ensures Skip(w + t) == t
  {
    if w == [] {
      assert w + t == t;
    } else {
      assert (w + t)[1..] == w[1..] + t;
      SkipSpaces(w[1..], t);
    }
  }

  lemma SkipTwice(t: Bytes)
    ensures Skip(Skip(t)) == Skip(t)
  {
  }

  /** What may follow a value: white space, a comma or a brace, and so no digit. */
  predicate Ends(rest: Bytes) { rest != [] && (Space(rest[0]) || rest[0] == COMMA || rest[0] == CLOSE) }

  lemma RawReads(key: Bytes, v: Raw, rest: Bytes)
    requires RawField(key, v).Some? && Ends(rest)
    ensures ReadField(key, WriteRaw(v, rest)) == Some((RawField(key, v).value, rest))
  {
    match v
    case Text(body) =>
      TextFits(key, Unescape(body).value);
      StringReads(body, rest, CapacityFor(key));
    case Digits(text) =>
      CanonicalIsPrinted(text);
      NumberRoundTrip(Value(text), rest);
  }

  lemma TextFits(key: Bytes, text: Bytes)
    requires TextField(key, text).Some?
    ensures |text| < CapacityFor(key)
  {
  }

  lemma EndsAfter(after: Bytes, rest: Bytes)
    requires Spaces(after) && Ends(rest)
    ensures Ends(after + rest)
  {
  }

  lemma RawStarts(key: Bytes, v: Raw, rest: Bytes)
    requires RawField(key, v).Some?
    ensures WriteRaw(v, rest) != [] && !Space(WriteRaw(v, rest)[0])
  {
    if v.Digits? {
      assert IsDigit(v.text[0]);
    }
  }

  /** The value of an item, from the colon on. */
  lemma ValueReads(key: Bytes, it: Item, rest: Bytes)
    requires Spaced(it) && RawField(key, it.value).Some? && Ends(rest)
    ensures ReadField(key, Skip(WriteValue(it, rest))) == Some((RawField(key, it.value).value, it.after + rest))
  {
    EndsAfter(it.after, rest);
    RawStarts(key, it.value, it.after + rest);
    SkipSpaces(it.gap2, WriteRaw(it.value, it.after + rest));
    RawReads(key, it.value, it.after + rest);
  }

  lemma MemberReads(it: Item, rest: Bytes)
    requires FieldOf(it).Some? && Ends(rest) && !Space(rest[0])
    ensures Member(Skip(Write(it, rest))) == Some((FieldOf(it).value, rest))
  {
    var key, value := Unescape(it.key).value, WriteValue(it, rest);
    var t := it.gap1 + ([COLON] + value);
    SkipSpaces(it.before, Quoted(it.key, t));
    StringReads(it.key, t, KEY_CAPACITY);
    SkipSpaces(it.gap1, [COLON] + value);
    assert ([COLON] + value)[1..] == value;
    ValueReads(key, it, rest);
    SkipSpaces(it.after, rest);
  }

  /** Past white space, what is written starts with a quote. */
  lemma WriteStarts(it: Item, rest: Bytes)
    requires Spaced(it)
    ensures Skip(Write(it, rest)) != [] && Skip(Write(it, rest))[0] == QUOTE
  {
    SkipSpaces(it.before, Quoted(it.key, it.gap1 + ([COLON] + WriteValue(it, rest))));
  }

  lemma MembersSkip(seen: Seen, t: Bytes)
    ensures Members(seen, Skip(t)) == Members(seen, t)
  {
    SkipTwice(t);
  }

  lemma {:induction false} MembersRead(seen: Seen, items: seq<Item>, rest: Bytes)
    requires items != [] && PutAll(seen, items).Some?
    ensures Members(seen, WriteAll(items, rest)) == Some((PutAll(seen, items).value, rest))
    decreases |items|
  {
    var it := items[0];
    var seen' := Put(seen, FieldOf(it).value).value;
    WriteStarts(it, if |items| == 1 then [CLOSE] + rest else [COMMA] + WriteAll(items[1..], rest));
    if |items| == 1 {
      MemberReads(it, [CLOSE] + rest);
      assert ([CLOSE] + rest)[1..] == rest;
      assert items[1..] == [];
    } else {
      var more := WriteAll(items[1..], rest);
      MemberReads(it, [COMMA] + more);
      assert ([COMMA] + more)[1..] == more;
      assert FieldOf(items[1..][0]).Some?;
      WriteStarts(items[1], if |items[1..]| == 1 then [CLOSE] + rest else [COMMA] + WriteAll(items[1..][1..], rest));
      MembersSkip(seen', more);
      MembersRead(seen', items[1..], rest);
    }
  }

  // ---------------------------------------------------------------- nothing else is read

  /** The white space that was skipped. */
  function Skipped(t: Bytes): (w: Bytes)
    ensures Spaces(w) && t == w + Skip(t)
  {
    if t != [] && Space(t[0]) then [t[0]] + Skipped(t[1..]) else []
  }

  /** The raw value that was read. */
  function RawOf(key: Bytes, t: Bytes): Raw
    requires ReadField(key, t).Some?
  {
    if key == KEY_SIZE then Digits(t[..DigitRun(t)]) else Text(Json.Raw(t[1..], CapacityFor(key)))
  }

  lemma RawWasRead(key: Bytes, t: Bytes)
    requires ReadField(key, t).Some?
    ensures RawField(key, RawOf(key, t)) == Some(ReadField(key, t).value.0)
    ensures t == WriteRaw(RawOf(key, t), ReadField(key, t).value.1)
  {
    if key != KEY_SIZE {
      StringWasRead(t, CapacityFor(key));
    }
  }

  lemma MemberWasRead(w: Bytes, t: Bytes) returns (it: Item)
    requires Spaces(w) && Member(t).Some?
    ensures FieldOf(it) == Some(Member(t).value.0)
    ensures w + t == Write(it, Member(t).value.1)
  {
    var (key, afterKey) := String(t, KEY_CAPACITY).value;
    StringWasRead(t, KEY_CAPACITY);
    var c := Skip(afterKey);
    var d := Skip(c[1..]);
    var (f, rest) := ReadField(key, d).value;
    RawWasRead(key, d);
    it := Item(w, Json.Raw(t[1..], KEY_CAPACITY), Skipped(afterKey), Skipped(c[1..]), RawOf(key, d), Skipped(rest));
    assert c == [COLON] + c[1..];
    assert rest == it.after + Skip(rest);
    assert WriteValue(it, Skip(rest)) == c[1..];
    assert t == Quoted(it.key, afterKey);
  }

  /** What a turn read when it did not begin with the closing brace. */
  lemma TurnWasRead(seen: Seen, t: Bytes) returns (it: Item, rest: Bytes)
    requires !TakeTurn(seen, t).Fail? && Skip(t)[0] != CLOSE
    ensures FieldOf(it).Some? && Put(seen, FieldOf(it).value) == Some(TakeTurn(seen, t).seen)
    ensures t == Write(it, rest) && TakeTurn(seen, t) == TurnAfter(TakeTurn(seen, t).seen, rest)
  {
    var a := Skip(t);
    rest := Member(a).value.1;
    it := MemberWasRead(Skipped(t), a);
  }

  /** The bytes around the separators. */
  lemma AfterWasRead(seen: Seen, rest: Bytes)
    requires !TurnAfter(seen, rest).Fail?
    ensures
      match TurnAfter(seen, rest)
      case Done(_, end) => rest == [CLOSE] + end
      case More(_, next) => rest == [COMMA] + rest[1..] && next == Skip(rest[1..]) && next != [] && next[0] != CLOSE
  {
  }

  lemma {:induction false} MembersWereRead(seen: Seen, t: Bytes) returns (items: seq<Item>)
    requires Members(seen, t).Some? && Skip(t)[0] != CLOSE
    ensures items != [] && PutAll(seen, items) == Some(Members(seen, t).value.0)
    ensures t == WriteAll(items, Members(seen, t).value.1)
    decreases |t|
  {
    var it, rest := TurnWasRead(seen, t);
    var turn := TakeTurn(seen, t);
    AfterWasRead(turn.seen, rest);
    match turn
    case Done(seen', _) =>
      items := [it];
      assert PutAll(seen', items[1..]) == Some(seen');
    case More(seen', next) =>
      SkipTwice(rest[1..]);
      MembersSkip(seen', rest[1..]);
      MoreIsShorter(it, rest);
      var more := MembersWereRead(seen', rest[1..]);
      items := [it] + more;
      assert items[1..] == more;
  }

  lemma MoreIsShorter(it: Item, rest: Bytes)
    ensures |rest| < |Write(it, rest)|
  {
  }

  /**
    An upload is announced exactly by the documents that write it: members in any order and any white space, each key
    once, strings with any of the accepted escapes, and the checks of Accept.
   */
  ghost predicate Announces(json: Bytes, m: Announced) {
    exists lead, items, trail :: IsDocument(json, lead, items, trail) && Accept(PutAll(NOTHING, items).value) == Some(m)
  }

  predicate IsDocument(json: Bytes, lead: Bytes, items: seq<Item>, trail: Bytes) {
    && items != [] && Spaces(lead) && Spaces(trail) && json == Document(lead, items, trail)
    && PutAll(NOTHING, items).Some?
  }

  lemma DocumentReads(json: Bytes, lead: Bytes, items: seq<Item>, trail: Bytes)
    requires IsDocument(json, lead, items, trail)
    ensures Parse(json) == Accept(PutAll(NOTHING, items).value)
  {
    var inner := WriteAll(items, trail);
    SkipSpaces(lead, [OPEN] + inner);
    assert ([OPEN] + inner)[1..] == inner;
    MembersRead(NOTHING, items, trail);
    SkipSpaces(trail, []);
    assert trail + [] == trail;
  }

  lemma DocumentWasRead(json: Bytes) returns (lead: Bytes, items: seq<Item>, trail: Bytes)
    requires Parse(json).Some?
    ensures IsDocument(json, lead, items, trail)
  {
    var a := Skip(json);
    var (seen, rest) := Members(NOTHING, a[1..]).value;
    lead, trail := Skipped(json), Skipped(rest);
    assert a == [OPEN] + a[1..];
    assert rest == trail + [] == trail;
    items := MembersWereRead(NOTHING, a[1..]);
  }

  lemma ParseExactly(json: Bytes, m: Announced)
    ensures Parse(json) == Some(m) <==> Announces(json, m)
  {
    if Parse(json) == Some(m) {
      var lead, items, trail := DocumentWasRead(json);
      DocumentReads(json, lead, items, trail);
    }
    forall lead, items, trail | IsDocument(json, lead, items, trail) && Accept(PutAll(NOTHING, items).value) == Some(m)
      ensures Parse(json) == Some(m)
    {
      DocumentReads(json, lead, items, trail);
    }
  }

  // ---------------------------------------------------------------- the order does not matter

  /** The fields that were seen. */
  function FieldsOf(seen: Seen): set<Field> {
    (if seen.name.Some? then {Name(seen.name.value)} else {}) +
    (if seen.size.Some? then {Size(seen.size.value)} else {}) +
    (if seen.kind.Some? then {Kind(seen.kind.value)} else {}) +
    (if seen.hash.Some? then {Hash(seen.hash.value)} else {})
  }

  function FieldSet(items: seq<Item>): set<Field> {
    set i | 0 <= i < |items| && FieldOf(items[i]).Some? :: FieldOf(items[i]).value
  }

  lemma FieldSetStep(items: seq<Item>)
    requires items != [] && FieldOf(items[0]).Some?
    ensures FieldSet(items) == {FieldOf(items[0]).value} + FieldSet(items[1..])
  {
    var f := FieldOf(items[0]).value;
    forall g | g in FieldSet(items) ensures g in {f} + FieldSet(items[1..]) {
      var i :| 0 <= i < |items| && FieldOf(items[i]).Some? && g == FieldOf(items[i]).value;
      assert i > 0 ==> items[i] == items[1..][i - 1];
    }
    forall i | 0 <= i < |items[1..]| && FieldOf(items[1..][i]).Some?
      ensures FieldOf(items[1..][i]).value in FieldSet(items)
    {
      assert items[1..][i] == items[i + 1];
    }
  }

  lemma PutFields(seen: Seen, f: Field)
    requires Put(seen, f).Some?
    ensures FieldsOf(Put(seen, f).value) == FieldsOf(seen) + {f}
  {
  }

  lemma {:induction false} PutAllFields(seen: Seen, items: seq<Item>)
    requires PutAll(seen, items).Some?
    ensures FieldsOf(PutAll(seen, items).value) == FieldsOf(seen) + FieldSet(items)
    decreases |items|
  {
    if items == [] {
      assert FieldSet(items) == {};
    } else {
      var f := FieldOf(items[0]).value;
      PutFields(seen, f);
      FieldSetStep(items);
      PutAllFields(Put(seen, f).value, items[1..]);
    }
  }

  lemma SameFieldsSameSeen(x: Seen, y: Seen)
    requires FieldsOf(x) == FieldsOf(y)
    ensures x == y
  {
    assert forall t :: x.name == Some(t) <==> Name(t) in FieldsOf(x);
    assert forall t :: y.name == Some(t) <==> Name(t) in FieldsOf(y);
    assert forall t: nat :: x.size == Some(t) <==> Size(t) in FieldsOf(x);
    assert forall t: nat :: y.size == Some(t) <==> Size(t) in FieldsOf(y);
    assert forall t :: x.kind == Some(t) <==> Kind(t) in FieldsOf(x);
    assert forall t :: y.kind == Some(t) <==> Kind(t) in FieldsOf(y);
    assert forall t :: x.hash == Some(t) <==> Hash(t) in FieldsOf(x);
    assert forall t :: y.hash == Some(t) <==> Hash(t) in FieldsOf(y);
  }

  /** Two documents with the same fields announce the same upload, in whatever order and layout they are written. */
  lemma OrderDoesNotMatter(json1: Bytes, json2: Bytes, lead1: Bytes, items1: seq<Item>, trail1: Bytes,
                           lead2: Bytes, items2: seq<Item>, trail2: Bytes)
    requires IsDocument(json1, lead1, items1, trail1) && IsDocument(json2, lead2, items2, trail2)
    requires FieldSet(items1) == FieldSet(items2)
    ensures Parse(json1) == Parse(json2)
  {
    DocumentReads(json1, lead1, items1, trail1);
    DocumentReads(json2, lead2, items2, trail2);
    PutAllFields(NOTHING, items1);
    PutAllFields(NOTHING, items2);
    SameFieldsSameSeen(PutAll(NOTHING, items1).value, PutAll(NOTHING, items2).value);
  }

  // ---------------------------------------------------------------- the name that is chosen

  /** No part name has a space in it. */
  lemma PartNameBytes(id: Bytes)
    requires Upload.HexId(id)
    ensures forall i :: 0 <= i < |Upload.PartName(id)| ==> Upload.PartName(id)[i] != 0x20
  {
    var name := Upload.PartName(id);
    forall i | 0 <= i < |name| ensures name[i] != 0x20 {
      assert 14 <= i < 46 ==> name[i] == id[i - 14];
    }
  }

  /** The final name of an announced upload is never the name of a part file. */
  lemma ChosenIsNoPart(json: Bytes, directory: Bytes, taken: set<Bytes>, r: Option<Bytes>)
    requires Parse(json).Some? && SafePath.Chosen(directory, Parse(json).value.name, taken, r) && r.Some?
    ensures !Upload.IsPartName(r.value) && SafePath.ValidName(r.value)
  {
    var name := Parse(json).value.name;
    SafePath.ChosenIsFree(directory, name, taken, r);
    if r.value != name {
      var n :| SafePath.StopsAt(directory, name, taken, n, r);
      assert r.value[SafePath.Keep(name, n)] == 0x20;
      if Upload.IsPartName(r.value) { PartNameBytes(r.value[14..46]); }
    }
  }

  // ---------------------------------------------------------------- with a cursor

  method SkipFrom(json: Bytes, cursor: nat) returns (next: nat)
    requires cursor <= |json|
    ensures cursor <= next <= |json| && json[next..] == Skip(json[cursor..])
  {
    next := cursor;
    while next < |json| && Space(json[next])
      invariant cursor <= next <= |json| && Skip(json[next..]) == Skip(json[cursor..])
    {
      assert json[next..][1..] == json[next + 1..];
      next := next + 1;
    }
  }

  method ReadFieldFrom(json: Bytes, cursor: nat, key: Bytes) returns (r: Option<(Field, nat)>)
    requires cursor <= |json|
    ensures r.None? <==> ReadField(key, json[cursor..]).None?
    ensures r.Some? ==> cursor <= r.value.1 <= |json| &&
                        ReadField(key, json[cursor..]) == Some((r.value.0, json[r.value.1..]))
  {
    if key == KEY_SIZE {
      var n := ReadNumber(json, cursor);
      return if n.None? then None else Some((Size(n.value.0), n.value.1));
    }
    var text := ReadString(json, cursor, CapacityFor(key));
    if text.None? { return None; }
    var f := TextField(key, text.value.0);
    return if f.None? then None else Some((f.value, text.value.1));
  }

  method ReadMember(json: Bytes, cursor: nat) returns (r: Option<(Field, nat)>)
    requires cursor <= |json|
    ensures r.None? <==> Member(json[cursor..]).None?
    ensures r.Some? ==> cursor < r.value.1 <= |json| && Member(json[cursor..]) == Some((r.value.0, json[r.value.1..]))
  {
    var key := ReadString(json, cursor, KEY_CAPACITY);
    if key.None? { return None; }
    var i := SkipFrom(json, key.value.1);
    if i >= |json| || json[i] != COLON { return None; }
    assert json[i..][1..] == json[i + 1..];
    i := SkipFrom(json, i + 1);
    var f := ReadFieldFrom(json, i, key.value.0);
    if f.None? { return None; }
    i := SkipFrom(json, f.value.1);
    return Some((f.value.0, i));
  }

  /** What follows a member; the flag says whether it is the closing brace. */
  method ReadSeparator(json: Bytes, cursor: nat, seen: Seen) returns (next: Option<nat>, done: bool)
    requires cursor <= |json|
    ensures next.None? <==> TurnAfter(seen, json[cursor..]).Fail?
    ensures next.Some? ==> cursor < next.value <= |json|
    ensures next.Some? ==> TurnAfter(seen, json[cursor..]) ==
                           if done then Done(seen, json[next.value..]) else More(seen, json[next.value..])
  {
    if cursor >= |json| { return None, true; }
    assert json[cursor..][1..] == json[cursor + 1..];
    if json[cursor] == CLOSE { return Some(cursor + 1), true; }
    if json[cursor] != COMMA { return None, true; }
    var i := SkipFrom(json, cursor + 1);
    if i >= |json| || json[i] == CLOSE { return None, true; }
    return Some(i), false;
  }

  /** One turn of the loop; the flag says whether the closing brace was read. */
  method TurnFrom(json: Bytes, cursor: nat, seen: Seen) returns (r: Option<(Seen, nat)>, done: bool)
    requires cursor <= |json|
    ensures r.None? <==> TakeTurn(seen, json[cursor..]).Fail?
    ensures r.Some? ==> cursor < r.value.1 <= |json|
    ensures r.Some? ==> TakeTurn(seen, json[cursor..]) ==
                        if done then Done(r.value.0, json[r.value.1..]) else More(r.value.0, json[r.value.1..])
  {
    done := true;
    var i := SkipFrom(json, cursor);
    if i < |json| && json[i] == CLOSE {
      assert json[i..][1..] == json[i + 1..];
      return Some((seen, i + 1)), true;
    }
    var f := ReadMember(json, i);
    if f.None? { return None, true; }
    var put := Put(seen, f.value.0);
    if put.None? { return None, true; }
    var next;
    next, done := ReadSeparator(json, f.value.1, put.value);
    return if next.None? then None else Some((put.value, next.value)), done;
  }

  method ParseMembers(json: Bytes, start: nat) returns (r: Option<(Seen, nat)>)
    requires start <= |json|
    ensures r.None? <==> Members(NOTHING, json[start..]).None?
    ensures r.Some? ==> r.value.1 <= |json| && Members(NOTHING, json[start..]) == Some((r.value.0, json[r.value.1..]))
  {
    var cursor, seen := start, NOTHING;
    while true
      invariant cursor <= |json|
      invariant Members(seen, json[cursor..]) == Members(NOTHING, json[start..])
      decreases |json| - cursor
    {
      var turn, done := TurnFrom(json, cursor, seen);
      if turn.None? || done { return turn; }
      seen, cursor := turn.value.0, turn.value.1;
    }
  }

  /** parse_metadata, from its first byte to its last check. */
  method ParseMetadata(json: Bytes) returns (r: Option<Announced>)
    ensures r == Parse(json)
  {
    if |json| == 0 { return None; }
    var i := SkipFrom(json, 0);
    assert json[0..] == json;
    if i >= |json| || json[i] != OPEN { return None; }
    assert json[i..][1..] == json[i + 1..];
    var members := ParseMembers(json, i + 1);
    if members.None? { return None; }
    i := SkipFrom(json, members.value.1);
    if i != |json| { return None; }
    return Accept(members.value.0);
  }
}
