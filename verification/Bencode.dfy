/**
  The bencode parser behind torrent identity (src/rab/acquisition.py, `torrent_infohash`), and the
  encoding it reads (BEP 3, section "bencoding"). The parser records where each dictionary value
  starts and ends, so that the info hash is taken over the original bytes.
*/
module Bencode {
  import opened Common

  /** What the parser returns. A dictionary keeps, for each key, the value and its span. */
  datatype Parsed = PInt(n: int) | PStr(s: Bytes) | PList(items: seq<Parsed>) | PDict(entries: seq<Binding>)

  datatype Binding = Binding(key: Parsed, value: Parsed, start: int, end: int)

  /** ValueError: no terminator or no number. TypeError: a list or dictionary used as a key.
      Backward: a negative string length that leads back to the start of the string or before it, at
      which this model stops following the source. */
  datatype Fault = ValueError | TypeError | Backward

  const INT: Byte := 0x69
  const LIST: Byte := 0x6c
  const DICT: Byte := 0x64
  const END: Byte := 0x65
  const COLON: Byte := 0x3a
  const MINUS: Byte := 0x2d
  const PLUS: Byte := 0x2b
  const UNDERSCORE: Byte := 0x5f
  const ZERO: Byte := 0x30
  const INFO: Bytes := [0x69, 0x6e, 0x66, 0x6f]

  // ---------------------------------------------------------------- numbers, as Python's int() reads them

  predicate IsBlank(b: Byte) { b == 0x20 || 0x09 <= b <= 0x0d }

  predicate IsDigit(b: Byte) { 0x30 <= b <= 0x39 }

  function TrimLeft(s: Bytes): Bytes {
    if s != [] && IsBlank(s[0]) then TrimLeft(s[1..]) else s
  }

  function TrimRight(s: Bytes): Bytes {
    if s != [] && IsBlank(s[|s| - 1]) then TrimRight(s[..|s| - 1]) else s
  }

  /** Digits, with single underscores allowed between them. */
  function Digits(s: Bytes): Option<nat> {
    if s == [] || !IsDigit(s[|s| - 1]) then None
    else
      var digit: nat := s[|s| - 1] - ZERO;
      var rest := s[..|s| - 1];
      if rest == [] then Some(digit)
      else
        match Digits(if rest[|rest| - 1] == UNDERSCORE then rest[..|rest| - 1] else rest)
        case None => None
        case Some(n) => Some(10 * n + digit)
  }

  function ReadInt(text: Bytes): Option<int> {
    var s := TrimRight(TrimLeft(text));
    if s == [] then None
    else
      match Digits(if s[0] == MINUS || s[0] == PLUS then s[1..] else s)
      case None => None
      case Some(n) => Some(if s[0] == MINUS then Negate(n) else n)
  }

  function Negate(n: int): int { -n }

  /** `data.index(b, pos)`: the first position of `b` from `pos` on. */
  function IndexFrom(data: Bytes, b: Byte, pos: nat): (r: Option<nat>)
    ensures r.Some? ==> pos <= r.value < |data| && data[r.value] == b
    ensures r.Some? ==> forall i :: pos <= i < r.value ==> data[i] != b
    ensures r.None? ==> forall i :: pos <= i < |data| ==> data[i] != b
    decreases |data| - pos
  {
    if |data| <= pos then None else if data[pos] == b then Some(pos) else IndexFrom(data, b, pos + 1)
  }

  // ---------------------------------------------------------------- the parser

  function Left(data: Bytes, pos: nat): nat { if pos < |data| then |data| - pos else 0 }

  function ParseInt(data: Bytes, pos: nat): Result<(Parsed, nat), Fault>
    requires pos < |data|
  {
    match IndexFrom(data, END, pos)
    case None => Err(ValueError)
    case Some(end) =>
      match ReadInt(Slice(data, pos + 1, end))
      case None => Err(ValueError)
      case Some(n) => Ok((PInt(n), end + 1))
  }

  function ParseStr(data: Bytes, pos: nat): Result<(Parsed, nat), Fault> {
    match IndexFrom(data, COLON, pos)
    case None => Err(ValueError)
    case Some(colon) =>
      match ReadInt(Slice(data, pos, colon))
      case None => Err(ValueError)
      case Some(length) =>
        if colon + 1 + length <= pos then Err(Backward)
        else Ok((PStr(Slice(data, colon + 1, colon + 1 + length)), colon + 1 + length))
  }

  predicate Ends(data: Bytes, pos: nat) { pos < |data| && data[pos] == END }

  function ParseAt(data: Bytes, pos: nat): (r: Result<(Parsed, nat), Fault>)
    ensures r.Ok? ==> pos < |data| && pos < r.value.1
    decreases Left(data, pos), 0
  {
    if |data| <= pos then Err(ValueError)
    else if data[pos] == INT then ParseInt(data, pos)
    else if data[pos] == LIST then
      match ParseItems(data, pos + 1, [])
      case Err(e) => Err(e)
      case Ok((items, end)) => Ok((PList(items), end))
    else if data[pos] == DICT then
      match ParseEntries(data, pos + 1, [])
      case Err(e) => Err(e)
      case Ok((entries, end)) => Ok((PDict(entries), end))
    else ParseStr(data, pos)
  }

  function ParseItems(data: Bytes, pos: nat, items: seq<Parsed>): (r: Result<(seq<Parsed>, nat), Fault>)
    ensures r.Ok? ==> pos < r.value.1
    decreases Left(data, pos), 1
  {
    if Ends(data, pos) then Ok((items, pos + 1))
    else
      match ParseAt(data, pos)
      case Err(e) => Err(e)
      case Ok((item, next)) => ParseItems(data, next, items + [item])
  }

  predicate Hashable(key: Parsed) { key.PInt? || key.PStr? }

  function KeyIndex(entries: seq<Binding>, key: Parsed): (i: nat)
    ensures i <= |entries| && (i < |entries| ==> entries[i].key == key)
    ensures forall j :: 0 <= j < i ==> entries[j].key != key
  {
    if entries == [] || entries[0].key == key then 0 else 1 + KeyIndex(entries[1..], key)
  }

  /** Python's dictionary assignment: an existing key keeps its place and takes the new value. */
  function Put(entries: seq<Binding>, b: Binding): seq<Binding> {
    var i := KeyIndex(entries, b.key);
    if i < |entries| then entries[i := b] else entries + [b]
  }

  function ParseEntries(data: Bytes, pos: nat, entries: seq<Binding>): (r: Result<(seq<Binding>, nat), Fault>)
    ensures r.Ok? ==> pos < r.value.1
    decreases Left(data, pos), 1
  {
    if Ends(data, pos) then Ok((entries, pos + 1))
    else
      match ParseAt(data, pos)
      case Err(e) => Err(e)
      case Ok((key, mid)) =>
        match ParseAt(data, mid)
        case Err(e) => Err(e)
        case Ok((value, next)) =>
          if !Hashable(key) then Err(TypeError)
          else ParseEntries(data, next, Put(entries, Binding(key, value, mid, next)))
  }

  /** The nested `parse`, with its loops. */
  method Parse(data: Bytes, start: nat) returns (r: Result<(Parsed, nat), Fault>)
    ensures r == ParseAt(data, start)
    decreases Left(data, start)
  {
    var pos := start;
    if |data| <= pos {
      return Err(ValueError);
    }
    if data[pos] == INT {
      return ParseInt(data, pos);
    }
    if data[pos] == LIST {
      var items := [];
      pos := pos + 1;
      while !Ends(data, pos)
        invariant start < pos
        invariant ParseItems(data, start + 1, []) == ParseItems(data, pos, items)
        decreases Left(data, pos)
      {
        var item := Parse(data, pos);
        if item.Err? {
          return Err(item.error);
        }
        items, pos := items + [item.value.0], item.value.1;
      }
      return Ok((PList(items), pos + 1));
    }
    if data[pos] == DICT {
      var entries := [];
      pos := pos + 1;
      while !Ends(data, pos)
        invariant start < pos
        invariant ParseEntries(data, start + 1, []) == ParseEntries(data, pos, entries)
        decreases Left(data, pos)
      {
        var key := Parse(data, pos);
        if key.Err? {
          return Err(key.error);
        }
        var value := Parse(data, key.value.1);
        if value.Err? {
          return Err(value.error);
        }
        if !Hashable(key.value.0) {
          return Err(TypeError);
        }
        entries := Put(entries, Binding(key.value.0, value.value.0, key.value.1, value.value.1));
        pos := value.value.1;
      }
      return Ok((PDict(entries), pos + 1));
    }
    return ParseStr(data, pos);
  }

  /** The bytes that identify a torrent: the span of the value of "info" in a top-level dictionary
      that fills the whole file. */
  function InfoSpan(data: Bytes): Option<(int, int)> {
    match ParseAt(data, 0)
    case Err(_) => None
    case Ok((parsed, end)) => SpanIn(parsed, end, |data|)
  }

  function SpanIn(parsed: Parsed, end: int, length: nat): Option<(int, int)> {
    if end != length || !parsed.PDict? then None
    else
      var i := KeyIndex(parsed.entries, PStr(INFO));
      if i == |parsed.entries| then None else Some((parsed.entries[i].start, parsed.entries[i].end))
  }

  /** `data[lo:hi]`: a bound before the beginning counts from the end. */
  function SliceFrom(data: Bytes, lo: int, hi: int): Bytes {
    Slice(data, FromEnd(lo, |data|), FromEnd(hi, |data|))
  }

  function FromEnd(i: int, length: nat): nat { if 0 <= i then i else if 0 <= length + i then length + i else 0 }

  /** `torrent_infohash`, for any digest function; None is any of its exceptions. */
  function TorrentInfohash(data: Bytes, sha1: Bytes -> string): Option<string> {
    match InfoSpan(data)
    case None => None
    case Some((start, stop)) => Some(sha1(SliceFrom(data, start, stop)))
  }

  // ---------------------------------------------------------------- the encoding

  /** A bencoded value; dictionary keys are byte strings. */
  datatype Value = VInt(n: int) | VStr(s: Bytes) | VList(items: seq<Value>) | VDict(entries: seq<Field>)

  datatype Field = Field(key: Bytes, value: Value)

  function Decimal(n: nat): (text: Bytes)
    ensures text != [] && forall i :: 0 <= i < |text| ==> IsDigit(text[i])
  {
    if n < 10 then [ZERO + n] else Decimal(n / 10) + [ZERO + n % 10]
  }

  function EncodeStr(s: Bytes): Bytes { Decimal(|s|) + [COLON] + s }

  function Encode(v: Value): (enc: Bytes)
    ensures enc != []
    decreases v
  {
    match v
    case VInt(n) => [INT] + (if n < 0 then [MINUS] + Decimal(-n) else Decimal(n)) + [END]
    case VStr(s) => EncodeStr(s)
    case VList(items) => [LIST] + EncodeItems(items) + [END]
    case VDict(entries) => [DICT] + EncodeFields(entries) + [END]
  }

  function EncodeItems(items: seq<Value>): Bytes
    decreases items
  {
    if items == [] then [] else Encode(items[0]) + EncodeItems(items[1..])
  }

  function EncodeFields(entries: seq<Field>): Bytes
    decreases entries
  {
    if entries == [] then []
    else EncodeStr(entries[0].key) + Encode(entries[0].value) + EncodeFields(entries[1..])
  }

  /** No dictionary inside the value repeats a key. */
  ghost predicate KeysDistinct(v: Value)
    decreases v
  {
    match v
    case VInt(_) => true
    case VStr(_) => true
    case VList(items) => forall i :: 0 <= i < |items| ==> KeysDistinct(items[i])
    case VDict(entries) =>
      && (forall i, j :: 0 <= i < j < |entries| ==> entries[i].key != entries[j].key)
      && (forall i :: 0 <= i < |entries| ==> KeysDistinct(entries[i].value))
  }

  /** The value as the parser must return it when its encoding starts at `at`. */
  function Reflect(v: Value, at: nat): Parsed
    decreases v
  {
    match v
    case VInt(n) => PInt(n)
    case VStr(s) => PStr(s)
    case VList(items) => PList(ReflectItems(items, at + 1))
    case VDict(entries) => PDict(ReflectFields(entries, at + 1))
  }

  function ReflectItems(items: seq<Value>, at: nat): seq<Parsed>
    decreases items
  {
    if items == [] then [] else [Reflect(items[0], at)] + ReflectItems(items[1..], at + |Encode(items[0])|)
  }

  function ReflectFields(entries: seq<Field>, at: nat): seq<Binding>
    decreases entries
  {
    if entries == [] then []
    else
      var mid := at + |EncodeStr(entries[0].key)|;
      var next := mid + |Encode(entries[0].value)|;
      [Binding(PStr(entries[0].key), Reflect(entries[0].value, mid), mid, next)] + ReflectFields(entries[1..], next)
  }

  /** The encoding `enc` stands in the data at `pos`, whatever comes before and after it. */
  ghost predicate Stands(data: Bytes, pos: nat, enc: Bytes) {
    pos + |enc| <= |data| && data[pos..pos + |enc|] == enc
  }

  lemma StandsSplit(data: Bytes, pos: nat, a: Bytes, b: Bytes)
    requires Stands(data, pos, a + b)
    ensures Stands(data, pos, a) && Stands(data, pos + |a|, b)
  {
    var all := data[pos..pos + |a + b|];
    assert data[pos..pos + |a|] == all[..|a|] && data[pos + |a|..pos + |a| + |b|] == all[|a|..];
  }

  // ---------------------------------------------------------------- numbers are read back

  lemma {:induction false} DigitsOfDecimal(n: nat)
    ensures Digits(Decimal(n)) == Some(n)
  {
    if 10 <= n {
      DigitsOfDecimal(n / 10);
      var text, head := Decimal(n), Decimal(n / 10);
      assert text[..|text| - 1] == head && IsDigit(head[|head| - 1]);
    }
  }

  lemma NoBlanks(s: Bytes)
    requires s != [] && !IsBlank(s[0]) && !IsBlank(s[|s| - 1])
    ensures TrimRight(TrimLeft(s)) == s
  {}

  lemma ReadDecimal(n: nat)
    ensures ReadInt(Decimal(n)) == Some(n)
    ensures ReadInt([MINUS] + Decimal(n)) == Some(Negate(n))
  {
    var text := Decimal(n);
    DigitsOfDecimal(n);
    assert IsDigit(text[0]) && IsDigit(text[|text| - 1]);
    NoBlanks(text);
    NoBlanks([MINUS] + text);
    assert ([MINUS] + text)[1..] == text;
  }

  lemma {:induction false} FindTerminator(data: Bytes, pos: nat, text: Bytes, b: Byte)
    requires Stands(data, pos, text + [b]) && b !in text
    ensures IndexFrom(data, b, pos) == Some(pos + |text|) && Slice(data, pos, pos + |text|) == text
  {
    StandsSplit(data, pos, text, [b]);
    assert data[pos + |text|] == data[pos + |text|..pos + |text| + 1][0];
    forall i | pos <= i < pos + |text|
      ensures data[i] != b
    {
      assert data[i] == data[pos..pos + |text|][i - pos] == text[i - pos];
    }
  }

  lemma FirstByte(data: Bytes, pos: nat, enc: Bytes)
    requires Stands(data, pos, enc) && enc != []
    ensures pos < |data| && data[pos] == enc[0]
  {
    assert data[pos] == data[pos..pos + |enc|][0];
  }

  lemma StrIsRead(data: Bytes, pos: nat, s: Bytes)
    requires Stands(data, pos, EncodeStr(s))
    ensures ParseAt(data, pos) == Ok((PStr(s), pos + |EncodeStr(s)|))
  {
    hide Decimal, ReadInt, Stands;
    var text := Decimal(|s|);
    ReadDecimal(|s|);
    FirstByte(data, pos, EncodeStr(s));
    assert EncodeStr(s)[0] == text[0];
    assert COLON !in text;
    StandsSplit(data, pos, text + [COLON], s);
    FindTerminator(data, pos, text, COLON);
    StandsSlice(data, pos + |text| + 1, s);
  }

  lemma StandsSlice(data: Bytes, pos: nat, enc: Bytes)
    requires Stands(data, pos, enc)
    ensures Slice(data, pos, pos + |enc|) == enc
  {}

  /** `ParseAt` on an integer, once its end and its number are known. */
  lemma IntAt(data: Bytes, pos: nat, end: nat, n: int)
    requires pos < |data| && data[pos] == INT
    requires IndexFrom(data, END, pos) == Some(end) && ReadInt(Slice(data, pos + 1, end)) == Some(n)
    ensures ParseAt(data, pos) == Ok((PInt(n), end + 1))
  {}

  lemma IntIsRead(data: Bytes, pos: nat, n: int)
    requires Stands(data, pos, Encode(VInt(n)))
    ensures ParseAt(data, pos) == Ok((PInt(n), pos + |Encode(VInt(n))|))
  {
    hide Decimal, ReadInt, Stands, ParseAt, IndexFrom, Slice;
    var text := if n < 0 then [MINUS] + Decimal(-n) else Decimal(n);
    ReadDecimal(if n < 0 then -n else n);
    assert [INT] + text + [END] == Encode(VInt(n)) == [INT] + (text + [END]);
    FirstByte(data, pos, Encode(VInt(n)));
    assert END !in text;
    FindTerminator(data, pos, [INT] + text, END);
    StandsSplit(data, pos, [INT], text + [END]);
    StandsSplit(data, pos + 1, text, [END]);
    StandsSlice(data, pos + 1, text);
    IntAt(data, pos, pos + 1 + |text|, n);
  }

  // ---------------------------------------------------------------- the round trip

  /** Parsing the encoding of any value, with anything before and after it, returns that value with
      the exact span of every dictionary value, and stops exactly at the end of the encoding. */
  lemma {:induction false} RoundTrip(data: Bytes, pos: nat, v: Value)
    requires KeysDistinct(v) && Stands(data, pos, Encode(v))
    ensures ParseAt(data, pos) == Ok((Reflect(v, pos), pos + |Encode(v)|))
    decreases v, 0
  {
    hide ParseAt, ParseItems, ParseEntries, Stands;
    match v {
      case VInt(n) => IntIsRead(data, pos, n);
      case VStr(s) => StrIsRead(data, pos, s);
      case VList(items) =>
        assert [LIST] + (EncodeItems(items) + [END]) == Encode(v);
        FirstByte(data, pos, Encode(v));
        StandsSplit(data, pos, [LIST], EncodeItems(items) + [END]);
        ItemsRoundTrip(data, pos + 1, items, []);
        assert [] + ReflectItems(items, pos + 1) == ReflectItems(items, pos + 1);
        ListAt(data, pos);
      case VDict(entries) =>
        assert [DICT] + (EncodeFields(entries) + [END]) == Encode(v);
        FirstByte(data, pos, Encode(v));
        StandsSplit(data, pos, [DICT], EncodeFields(entries) + [END]);
        FieldsRoundTrip(data, pos + 1, entries, []);
        assert [] + ReflectFields(entries, pos + 1) == ReflectFields(entries, pos + 1);
        DictAt(data, pos);
    }
  }

  lemma ListAt(data: Bytes, pos: nat)
    requires pos < |data| && data[pos] == LIST && ParseItems(data, pos + 1, []).Ok?
    ensures var (items, end) := ParseItems(data, pos + 1, []).value; ParseAt(data, pos) == Ok((PList(items), end))
  {}

  lemma DictAt(data: Bytes, pos: nat)
    requires pos < |data| && data[pos] == DICT && ParseEntries(data, pos + 1, []).Ok?
    ensures var (entries, end) := ParseEntries(data, pos + 1, []).value; ParseAt(data, pos) == Ok((PDict(entries), end))
  {}

  lemma {:induction false} ItemsRoundTrip(data: Bytes, pos: nat, items: seq<Value>, before: seq<Parsed>)
    requires forall i :: 0 <= i < |items| ==> KeysDistinct(items[i])
    requires Stands(data, pos, EncodeItems(items) + [END])
    ensures ParseItems(data, pos, before)
            == Ok((before + ReflectItems(items, pos), pos + |EncodeItems(items)| + 1))
    decreases items
  {
    hide ParseAt, Stands, Encode, Reflect;
    if items == [] {
      assert EncodeItems(items) + [END] == [END];
      FirstByte(data, pos, EncodeItems(items) + [END]);
      assert before + ReflectItems(items, pos) == before;
    } else {
      var enc := Encode(items[0]);
      assert EncodeItems(items) + [END] == enc + (EncodeItems(items[1..]) + [END]);
      StandsSplit(data, pos, enc, EncodeItems(items[1..]) + [END]);
      StartsValue(data, pos, items[0]);
      RoundTrip(data, pos, items[0]);
      var item := Reflect(items[0], pos);
      ItemsRoundTrip(data, pos + |enc|, items[1..], before + [item]);
      assert before + [item] + ReflectItems(items[1..], pos + |enc|) == before + ReflectItems(items, pos);
    }
  }

  lemma StartsValue(data: Bytes, pos: nat, v: Value)
    requires Stands(data, pos, Encode(v))
    ensures !Ends(data, pos)
  {
    FirstByte(data, pos, Encode(v));
    if v.VStr? {
      assert Encode(v)[0] == Decimal(|v.s|)[0];
    }
  }

  lemma StartsField(data: Bytes, pos: nat, key: Bytes)
    requires Stands(data, pos, EncodeStr(key))
    ensures !Ends(data, pos)
  {
    FirstByte(data, pos, EncodeStr(key));
    assert EncodeStr(key)[0] == Decimal(|key|)[0];
  }

  lemma PutFresh(entries: seq<Binding>, b: Binding)
    requires forall i :: 0 <= i < |entries| ==> entries[i].key != b.key
    ensures Put(entries, b) == entries + [b]
  {}

  lemma NoFields(at: nat)
    ensures EncodeFields([]) == [] && ReflectFields([], at) == []
  {}

  lemma EntriesEnd(data: Bytes, pos: nat, entries: seq<Binding>)
    requires Ends(data, pos)
    ensures ParseEntries(data, pos, entries) == Ok((entries, pos + 1))
  {}

  /** `ParseEntries` on one more entry, once its key and its value are known. */
  lemma EntriesStep(data: Bytes, pos: nat, entries: seq<Binding>, b: Binding)
    requires !Ends(data, pos) && Hashable(b.key) && 0 <= b.start && 0 <= b.end
    requires ParseAt(data, pos) == Ok((b.key, b.start)) && ParseAt(data, b.start) == Ok((b.value, b.end))
    ensures ParseEntries(data, pos, entries) == ParseEntries(data, b.end, Put(entries, b))
  {
    hide ParseAt, Put;
  }

  lemma {:induction false} FieldsRoundTrip(data: Bytes, pos: nat, entries: seq<Field>, before: seq<Binding>)
    requires forall i :: 0 <= i < |entries| ==> KeysDistinct(entries[i].value)
    requires forall i, j :: 0 <= i < j < |entries| ==> entries[i].key != entries[j].key
    requires forall i, j :: 0 <= i < |before| && 0 <= j < |entries| ==> before[i].key != PStr(entries[j].key)
    requires Stands(data, pos, EncodeFields(entries) + [END])
    ensures ParseEntries(data, pos, before)
            == Ok((before + ReflectFields(entries, pos), pos + |EncodeFields(entries)| + 1))
    decreases entries
  {
    hide ParseAt, ParseEntries, Stands, Encode, EncodeFields, Reflect, ReflectFields, EncodeStr, Put;
    if entries == [] {
      NoFields(pos);
      assert entries == [] && EncodeFields(entries) + [END] == [END] && before + [] == before;
      FirstByte(data, pos, EncodeFields(entries) + [END]);
      EntriesEnd(data, pos, before);
    } else {
      var key, enc := EncodeStr(entries[0].key), Encode(entries[0].value);
      var mid := pos + |key|;
      FieldStands(data, pos, entries);
      StartsField(data, pos, entries[0].key);
      StrIsRead(data, pos, entries[0].key);
      RoundTrip(data, mid, entries[0].value);
      var b := Binding(PStr(entries[0].key), Reflect(entries[0].value, mid), mid, mid + |enc|);
      PutFresh(before, b);
      EntriesStep(data, pos, before, b);
      ReflectNext(entries, pos, before);
      FieldsRoundTrip(data, mid + |enc|, entries[1..], before + [b]);
    }
  }

  /** The first field of an encoding, and the rest. */
  lemma FieldStands(data: Bytes, pos: nat, entries: seq<Field>)
    requires entries != [] && Stands(data, pos, EncodeFields(entries) + [END])
    ensures var key, enc, rest := EncodeStr(entries[0].key), Encode(entries[0].value), EncodeFields(entries[1..]);
      && Stands(data, pos, key) && Stands(data, pos + |key|, enc)
      && Stands(data, pos + |key| + |enc|, rest + [END])
      && |EncodeFields(entries)| == |key| + |enc| + |rest|
  {
    hide Encode, EncodeStr, Stands;
    var key, enc, tail := EncodeStr(entries[0].key), Encode(entries[0].value), EncodeFields(entries[1..]) + [END];
    assert EncodeFields(entries) + [END] == key + (enc + tail);
    StandsSplit(data, pos, key, enc + tail);
    StandsSplit(data, pos + |key|, enc, tail);
  }

  lemma ReflectNext(entries: seq<Field>, at: nat, before: seq<Binding>)
    requires entries != []
    ensures var mid := at + |EncodeStr(entries[0].key)|;
      var next := mid + |Encode(entries[0].value)|;
      before + [Binding(PStr(entries[0].key), Reflect(entries[0].value, mid), mid, next)] + ReflectFields(entries[1..], next)
      == before + ReflectFields(entries, at)
  {
    hide Encode, EncodeStr, Reflect;
  }

  // ---------------------------------------------------------------- the info hash

  lemma {:induction false} SpanOfField(entries: seq<Field>, at: nat, k: nat, data: Bytes)
    requires k < |entries| && Stands(data, at, EncodeFields(entries) + [END])
    ensures |ReflectFields(entries, at)| == |entries|
    ensures var b := ReflectFields(entries, at)[k];
      b.key == PStr(entries[k].key) && 0 <= b.start && Stands(data, b.start, Encode(entries[k].value))
      && b.end == b.start + |Encode(entries[k].value)|
  {
    hide Encode, EncodeStr, Stands, Reflect;
    var key, enc, tail := EncodeStr(entries[0].key), Encode(entries[0].value), EncodeFields(entries[1..]) + [END];
    assert EncodeFields(entries) + [END] == key + (enc + tail);
    StandsSplit(data, at, key, enc + tail);
    StandsSplit(data, at + |key|, enc, tail);
    LengthOfReflection(entries, at);
    if 0 < k {
      SpanOfField(entries[1..], at + |key| + |enc|, k - 1, data);
    }
  }

  lemma KeyIndexIsUnique(entries: seq<Binding>, k: nat)
    requires k < |entries| && forall j :: 0 <= j < k ==> entries[j].key != entries[k].key
    ensures KeyIndex(entries, entries[k].key) == k
  {}

  lemma {:induction false} LengthOfReflection(entries: seq<Field>, at: nat)
    ensures |ReflectFields(entries, at)| == |entries|
  {
    if entries != [] {
      LengthOfReflection(entries[1..], at + |EncodeStr(entries[0].key)| + |Encode(entries[0].value)|);
    }
  }

  /** The info hash of an encoded torrent is the digest of the encoding of its info value: every
      other key, and the order of the keys, is irrelevant. */
  lemma InfohashIsOfInfo(entries: seq<Field>, k: nat, sha1: Bytes -> string)
    requires KeysDistinct(VDict(entries)) && k < |entries| && entries[k].key == INFO
    ensures TorrentInfohash(Encode(VDict(entries)), sha1) == Some(sha1(Encode(entries[k].value)))
  {
    hide Encode, EncodeFields, Reflect, ReflectFields, ParseAt, KeyIndex, Stands;
    var data := Encode(VDict(entries));
    WholeStands(data);
    RoundTrip(data, 0, VDict(entries));
    DictEncoding(entries);
    StandsSplit(data, 0, [DICT], EncodeFields(entries) + [END]);
    var bindings := ReflectFields(entries, 1);
    forall j | 0 <= j <= k
      ensures |bindings| == |entries| && bindings[j].key == PStr(entries[j].key)
    {
      SpanOfField(entries, 1, j, data);
    }
    SpanOfField(entries, 1, k, data);
    KeyIndexIsUnique(bindings, k);
    StandsSlice(data, bindings[k].start, Encode(entries[k].value));
  }

  lemma WholeStands(data: Bytes)
    ensures Stands(data, 0, data)
  {}

  lemma DictEncoding(entries: seq<Field>)
    ensures Encode(VDict(entries)) == [DICT] + (EncodeFields(entries) + [END])
    ensures Reflect(VDict(entries), 0) == PDict(ReflectFields(entries, 1))
    ensures KeysDistinct(VDict(entries)) ==>
              forall i, j :: 0 <= i < j < |entries| ==> entries[i].key != entries[j].key
  {}

  lemma InfohashIgnoresOtherKeys(a: seq<Field>, i: nat, b: seq<Field>, j: nat, sha1: Bytes -> string)
    requires KeysDistinct(VDict(a)) && i < |a| && a[i].key == INFO
    requires KeysDistinct(VDict(b)) && j < |b| && b[j].key == INFO
    requires a[i].value == b[j].value
    ensures TorrentInfohash(Encode(VDict(a)), sha1) == TorrentInfohash(Encode(VDict(b)), sha1)
  {
    InfohashIsOfInfo(a, i, sha1);
    InfohashIsOfInfo(b, j, sha1);
  }

  // ---------------------------------------------------------------- repeated keys and data behind the value

  /** What `parse` collects from fields whose keys may repeat. */
  function Collected(entries: seq<Field>, at: nat, before: seq<Binding>): seq<Binding>
    decreases entries
  {
    if entries == [] then before
    else
      var mid := at + |EncodeStr(entries[0].key)|;
      var next := mid + |Encode(entries[0].value)|;
      Collected(entries[1..], next, Put(before, Binding(PStr(entries[0].key), Reflect(entries[0].value, mid), mid, next)))
  }

  function Lookup(entries: seq<Binding>, key: Parsed): Option<Binding> {
    var i := KeyIndex(entries, key);
    if i == |entries| then None else Some(entries[i])
  }

  lemma LookupAfterPut(entries: seq<Binding>, b: Binding, key: Parsed)
    ensures Lookup(Put(entries, b), key) == if b.key == key then Some(b) else Lookup(entries, key)
  {
    var i, all := KeyIndex(entries, b.key), Put(entries, b);
    var k := KeyIndex(all, key);
    assert forall j :: 0 <= j < |entries| ==> all[j].key == entries[j].key && (j != i ==> all[j] == entries[j]);
    if b.key == key {
      assert all[i] == b;
      KeyIndexIsUnique(all, i);
    } else if k < |all| {
      KeyIndexIsUnique(entries, k);
    }
  }

  lemma {:induction false} FieldsAreCollected(data: Bytes, pos: nat, entries: seq<Field>, before: seq<Binding>)
    requires forall i :: 0 <= i < |entries| ==> KeysDistinct(entries[i].value)
    requires Stands(data, pos, EncodeFields(entries) + [END])
    ensures ParseEntries(data, pos, before) == Ok((Collected(entries, pos, before), pos + |EncodeFields(entries)| + 1))
    decreases entries
  {
    hide ParseAt, ParseEntries, Stands, Encode, EncodeFields, Reflect, ReflectFields, EncodeStr, Put;
    if entries == [] {
      NoFields(pos);
      assert entries == [] && EncodeFields(entries) + [END] == [END];
      FirstByte(data, pos, EncodeFields(entries) + [END]);
      EntriesEnd(data, pos, before);
    } else {
      var key, enc := EncodeStr(entries[0].key), Encode(entries[0].value);
      var mid := pos + |key|;
      FieldStands(data, pos, entries);
      StartsField(data, pos, entries[0].key);
      StrIsRead(data, pos, entries[0].key);
      RoundTrip(data, mid, entries[0].value);
      var b := Binding(PStr(entries[0].key), Reflect(entries[0].value, mid), mid, mid + |enc|);
      EntriesStep(data, pos, before, b);
      FieldsAreCollected(data, mid + |enc|, entries[1..], Put(before, b));
    }
  }

  /** A key that no field has is looked up as before. */
  lemma {:induction false} OthersAreCollected(entries: seq<Field>, at: nat, before: seq<Binding>, key: Bytes)
    requires forall j :: 0 <= j < |entries| ==> entries[j].key != key
    ensures Lookup(Collected(entries, at, before), PStr(key)) == Lookup(before, PStr(key))
    decreases entries
  {
    hide Encode, EncodeStr, Reflect, Put, Lookup;
    if entries != [] {
      var mid := at + |EncodeStr(entries[0].key)|;
      var next := mid + |Encode(entries[0].value)|;
      var b := Binding(PStr(entries[0].key), Reflect(entries[0].value, mid), mid, next);
      LookupAfterPut(before, b, PStr(key));
      OthersAreCollected(entries[1..], next, Put(before, b), key);
    }
  }

  /** Of equal keys the last one counts. */
  lemma {:induction false} LastIsCollected(data: Bytes, entries: seq<Field>, at: nat, before: seq<Binding>, k: nat)
    requires k < |entries| && forall j :: k < j < |entries| ==> entries[j].key != entries[k].key
    requires Stands(data, at, EncodeFields(entries) + [END])
    ensures var b := Lookup(Collected(entries, at, before), PStr(entries[k].key));
      b.Some? && 0 <= b.value.start && Stands(data, b.value.start, Encode(entries[k].value))
      && b.value.end == b.value.start + |Encode(entries[k].value)|
    decreases entries
  {
    hide Encode, EncodeStr, EncodeFields, Reflect, Put, Lookup, Stands;
    FieldStands(data, at, entries);
    var mid := at + |EncodeStr(entries[0].key)|;
    var next := mid + |Encode(entries[0].value)|;
    var b := Binding(PStr(entries[0].key), Reflect(entries[0].value, mid), mid, next);
    if k == 0 {
      LookupAfterPut(before, b, PStr(entries[0].key));
      OthersAreCollected(entries[1..], next, Put(before, b), entries[0].key);
    } else {
      LastIsCollected(data, entries[1..], next, Put(before, b), k - 1);
    }
  }

  /** A dictionary, in which keys may repeat, with anything behind it: it has an info hash iff nothing is behind it and
      it has the key "info". */
  lemma InfohashIff(entries: seq<Field>, more: Bytes, sha1: Bytes -> string)
    requires forall i :: 0 <= i < |entries| ==> KeysDistinct(entries[i].value)
    ensures TorrentInfohash(Encode(VDict(entries)) + more, sha1).Some? <==>
      more == [] && exists k :: 0 <= k < |entries| && entries[k].key == INFO
  {
    hide Encode, EncodeFields, EncodeStr, Reflect, ParseAt, ParseEntries, KeyIndex, Stands, Collected, Lookup;
    DictIsCollected(entries, more);
    var data := Encode(VDict(entries)) + more;
    var found := Lookup(Collected(entries, 1, []), PStr(INFO));
    SpanIsLooked(Collected(entries, 1, []), |Encode(VDict(entries))|, |data|);
    if k :| 0 <= k < |entries| && entries[k].key == INFO {
      var last := LastField(entries, k);
      LastIsCollected(data, entries, 1, [], last);
    } else {
      OthersAreCollected(entries, 1, [], INFO);
      NothingLooked(PStr(INFO));
    }
  }

  /** And then it is the digest of the encoding of the last value of that key. */
  lemma InfohashIsOfLastInfo(entries: seq<Field>, k: nat, sha1: Bytes -> string)
    requires forall i :: 0 <= i < |entries| ==> KeysDistinct(entries[i].value)
    requires k < |entries| && entries[k].key == INFO && forall j :: k < j < |entries| ==> entries[j].key != INFO
    ensures TorrentInfohash(Encode(VDict(entries)), sha1) == Some(sha1(Encode(entries[k].value)))
  {
    hide Encode, EncodeFields, EncodeStr, Reflect, ParseAt, ParseEntries, KeyIndex, Stands, Collected, Lookup;
    var data := Encode(VDict(entries));
    assert data + [] == data;
    DictIsCollected(entries, []);
    LastIsCollected(data, entries, 1, [], k);
    SpanIsLooked(Collected(entries, 1, []), |data|, |data|);
    StandsSlice(data, Lookup(Collected(entries, 1, []), PStr(INFO)).value.start, Encode(entries[k].value));
  }

  /** Only a dictionary has an info hash. */
  lemma OnlyDictionaries(v: Value, more: Bytes, sha1: Bytes -> string)
    requires KeysDistinct(v) && !v.VDict?
    ensures TorrentInfohash(Encode(v) + more, sha1) == None
  {
    hide Encode, ParseAt, KeysDistinct, Stands;
    HeadStands(Encode(v), more);
    RoundTrip(Encode(v) + more, 0, v);
  }

  lemma HeadStands(head: Bytes, more: Bytes)
    ensures Stands(head + more, 0, head)
  {}

  lemma DictIsCollected(entries: seq<Field>, more: Bytes)
    requires forall i :: 0 <= i < |entries| ==> KeysDistinct(entries[i].value)
    ensures var data := Encode(VDict(entries)) + more;
      && ParseAt(data, 0) == Ok((PDict(Collected(entries, 1, [])), |Encode(VDict(entries))|))
      && Stands(data, 1, EncodeFields(entries) + [END])
  {
    hide Encode, EncodeFields, Reflect, ParseAt, ParseEntries, Stands, Collected;
    var data := Encode(VDict(entries)) + more;
    DictEncoding(entries);
    HeadStands(Encode(VDict(entries)), more);
    FirstByte(data, 0, Encode(VDict(entries)));
    StandsSplit(data, 0, [DICT], EncodeFields(entries) + [END]);
    FieldsAreCollected(data, 1, entries, []);
    DictAt(data, 0);
  }

  lemma SpanIsLooked(entries: seq<Binding>, end: nat, length: nat)
    ensures SpanIn(PDict(entries), end, length)
            == match Lookup(entries, PStr(INFO))
               case Some(b) => if end == length then Some((b.start, b.end)) else None
               case None => None
  {}

  lemma NothingLooked(key: Parsed)
    ensures Lookup([], key) == None
  {}

  function LastField(entries: seq<Field>, k: nat): (last: nat)
    requires k < |entries|
    ensures k <= last < |entries| && entries[last].key == entries[k].key
    ensures forall j :: last < j < |entries| ==> entries[j].key != entries[k].key
    decreases |entries|
  {
    var end := |entries| - 1;
    if entries[end].key == entries[k].key then end else LastField(entries[..end], k)
  }

  // ---------------------------------------------------------------- which texts are numbers

  /** Digits with single underscores between them. */
  ghost predicate IsNumeral(s: Bytes) {
    && s != [] && IsDigit(s[0]) && IsDigit(s[|s| - 1])
    && (forall i :: 0 <= i < |s| ==> IsDigit(s[i]) || s[i] == 0x5f)
    && forall i, j :: 0 <= i && j == i + 1 < |s| && s[i] == 0x5f ==> s[j] != 0x5f
  }

  /** Its value: underscores do not count. */
  function ValueOf(s: Bytes): int {
    if s == [] then 0
    else if s[|s| - 1] == 0x5f then ValueOf(s[..|s| - 1])
    else 10 * ValueOf(s[..|s| - 1]) + s[|s| - 1] as int - 0x30
  }

  predicate AllBlank(s: Bytes) { forall i :: 0 <= i < |s| ==> s[i] == 0x20 || 0x09 <= s[i] <= 0x0d }

  /** Python's notation of a whole number: blanks, a sign, a numeral, blanks. */
  ghost predicate Spells(text: Bytes, n: int) {
    exists lead: Bytes, sign: Bytes, numeral: Bytes, trail: Bytes :: SpelledAs(text, n, lead, sign, numeral, trail)
  }

  ghost predicate SpelledAs(text: Bytes, n: int, lead: Bytes, sign: Bytes, numeral: Bytes, trail: Bytes) {
    && text == lead + sign + numeral + trail && AllBlank(lead) && AllBlank(trail) && IsNumeral(numeral)
    && (sign == [] || sign == [0x2b] || sign == [0x2d])
    && n == if sign == [0x2d] then -ValueOf(numeral) else ValueOf(numeral)
  }

  lemma OneMoreDigit(rest: Bytes, digit: Byte)
    requires rest != [] && rest[|rest| - 1] != UNDERSCORE && IsDigit(digit)
    ensures IsNumeral(rest + [digit]) <==> IsNumeral(rest)
  {
    var s := rest + [digit];
    assert forall i :: 0 <= i < |rest| ==> rest[i] == s[i];
  }

  lemma OneMoreGap(front: Bytes, digit: Byte)
    requires IsDigit(digit)
    ensures IsNumeral(front + [UNDERSCORE, digit]) <==> IsNumeral(front)
  {
    var s := front + [UNDERSCORE, digit];
    assert forall i :: 0 <= i < |front| ==> front[i] == s[i];
    assert s[|front|] == UNDERSCORE && s[|front| + 1] == digit;
    if IsNumeral(s) {
      assert front != [];
      assert s[|front| - 1] != UNDERSCORE;
    }
  }

  lemma {:induction false} DigitsIff(s: Bytes)
    ensures Digits(s).Some? <==> IsNumeral(s)
    ensures Digits(s).Some? ==> Digits(s).value == ValueOf(s)
  {
    if s == [] || !IsDigit(s[|s| - 1]) {
      assert !IsNumeral(s);
    } else if |s| == 1 {
      assert ValueOf(s[..0]) == 0;
    } else {
      hide IsNumeral;
      var digit, rest := s[|s| - 1], s[..|s| - 1];
      if rest[|rest| - 1] == UNDERSCORE {
        var front := rest[..|rest| - 1];
        DigitsIff(front);
        OneMoreGap(front, digit);
        assert s == front + [UNDERSCORE, digit];
      } else {
        DigitsIff(rest);
        OneMoreDigit(rest, digit);
        assert s == rest + [digit];
      }
    }
  }

  lemma {:induction false} TrimmedLeft(s: Bytes) returns (lead: Bytes)
    ensures s == lead + TrimLeft(s) && AllBlank(lead) && (TrimLeft(s) != [] ==> !IsBlank(TrimLeft(s)[0]))
  {
    if s != [] && IsBlank(s[0]) {
      var more := TrimmedLeft(s[1..]);
      return [s[0]] + more;
    }
    return [];
  }

  lemma {:induction false} TrimmedRight(s: Bytes) returns (trail: Bytes)
    ensures s == TrimRight(s) + trail && AllBlank(trail) && (TrimRight(s) != [] ==> TrimRight(s)[0] == s[0])
  {
    if s != [] && IsBlank(s[|s| - 1]) {
      var more := TrimmedRight(s[..|s| - 1]);
      return more + [s[|s| - 1]];
    }
    return [];
  }

  lemma {:induction false} LeadTrimmed(lead: Bytes, rest: Bytes)
    requires AllBlank(lead) && rest != [] && !IsBlank(rest[0])
    ensures TrimLeft(lead + rest) == rest
  {
    if lead != [] {
      assert (lead + rest)[1..] == lead[1..] + rest;
      LeadTrimmed(lead[1..], rest);
    } else {
      assert lead + rest == rest;
    }
  }

  lemma {:induction false} TrailTrimmed(core: Bytes, trail: Bytes)
    requires AllBlank(trail) && core != [] && !IsBlank(core[|core| - 1])
    ensures TrimRight(core + trail) == core
  {
    if trail != [] {
      assert (core + trail)[..|core + trail| - 1] == core + trail[..|trail| - 1];
      TrailTrimmed(core, trail[..|trail| - 1]);
    } else {
      assert core + trail == core;
    }
  }

  lemma BlanksTrimmed(lead: Bytes, core: Bytes, trail: Bytes)
    requires AllBlank(lead) && AllBlank(trail) && core != [] && !IsBlank(core[0]) && !IsBlank(core[|core| - 1])
    ensures TrimRight(TrimLeft(lead + core + trail)) == core
  {
    hide TrimLeft, TrimRight, AllBlank;
    assert lead + core + trail == lead + (core + trail) && (core + trail)[0] == core[0];
    LeadTrimmed(lead, core + trail);
    TrailTrimmed(core, trail);
  }

  /** `int()` accepts exactly the texts of that notation, with their value. */
  lemma ReadIntIff(text: Bytes, n: int)
    ensures ReadInt(text) == Some(n) <==> Spells(text, n)
  {
    hide Digits, IsNumeral, ValueOf, TrimLeft, TrimRight;
    if ReadInt(text) == Some(n) {
      ReadIsSpelled(text, n);
    }
    if Spells(text, n) {
      var lead: Bytes, sign: Bytes, numeral: Bytes, trail: Bytes :| SpelledAs(text, n, lead, sign, numeral, trail);
      SpelledIsRead(text, n, lead, sign, numeral, trail);
    }
  }

  lemma ReadIsSpelled(text: Bytes, n: int)
    requires ReadInt(text) == Some(n)
    ensures Spells(text, n)
  {
    hide Digits, IsNumeral, ValueOf, TrimLeft, TrimRight;
    var lead := TrimmedLeft(text);
    var trail := TrimmedRight(TrimLeft(text));
    var s := TrimRight(TrimLeft(text));
    var sign, numeral := if s[0] == MINUS || s[0] == PLUS then s[..1] else [], if s[0] == MINUS || s[0] == PLUS then s[1..] else s;
    DigitsIff(numeral);
    assert s == sign + numeral && text == lead + sign + numeral + trail;
    assert s[0] == PLUS ==> sign == [PLUS];
    assert s[0] == MINUS ==> sign == [MINUS];
    assert SpelledAs(text, n, lead, sign, numeral, trail);
  }

  lemma SpelledIsRead(text: Bytes, n: int, lead: Bytes, sign: Bytes, numeral: Bytes, trail: Bytes)
    requires SpelledAs(text, n, lead, sign, numeral, trail)
    ensures ReadInt(text) == Some(n)
  {
    hide Digits, ValueOf, TrimLeft, TrimRight;
    var s := sign + numeral;
    assert s[|s| - 1] == numeral[|numeral| - 1] && s[0] == if sign == [] then numeral[0] else sign[0];
    assert text == lead + s + trail;
    BlanksTrimmed(lead, s, trail);
    DigitsIff(numeral);
    assert (if s[0] == MINUS || s[0] == PLUS then s[1..] else s) == numeral;
  }

  // ---------------------------------------------------------------- which keys a dictionary may have

  /** A dictionary may have a number or a string as its key, and nothing else. */
  lemma KeyIff(key: Value, value: Value)
    requires KeysDistinct(key) && KeysDistinct(value)
    ensures var data, mid := [DICT] + Encode(key) + Encode(value) + [END], 1 + |Encode(key)|;
      ParseAt(data, 0) == if key.VInt? || key.VStr?
                          then Ok((PDict([Binding(Reflect(key, 1), Reflect(value, mid), mid, mid + |Encode(value)|)]), |data|))
                          else Err(TypeError)
  {
    hide ParseAt, Encode, Stands, Reflect, KeysDistinct, Put;
    var k, v := Encode(key), Encode(value);
    var data := [DICT] + k + v + [END];
    PairStands(k, v);
    RoundTrip(data, 1, key);
    RoundTrip(data, 1 + |k|, value);
    StartsValue(data, 1, key);
    var b := Binding(Reflect(key, 1), Reflect(value, 1 + |k|), 1 + |k|, 1 + |k| + |v|);
    KeyReflected(key);
    if key.VInt? || key.VStr? {
      KeyAccepted(data, b);
    } else {
      KeyRefused(data, b);
    }
  }

  lemma PairStands(k: Bytes, v: Bytes)
    ensures var data := [DICT] + k + v + [END];
      data[0] == DICT && Stands(data, 1, k) && Stands(data, 1 + |k|, v) && Ends(data, 1 + |k| + |v|)
  {
    hide Stands;
    var data := [DICT] + k + v + [END];
    assert data == [DICT] + (k + (v + [END]));
    WholeStands(data);
    StandsSplit(data, 0, [DICT], k + (v + [END]));
    StandsSplit(data, 1, k, v + [END]);
    StandsSplit(data, 1 + |k|, v, [END]);
    FirstByte(data, 1 + |k| + |v|, [END]);
  }

  lemma KeyAccepted(data: Bytes, b: Binding)
    requires data != [] && data[0] == DICT && !Ends(data, 1) && Hashable(b.key) && 0 <= b.start && 0 <= b.end && Ends(data, b.end)
    requires ParseAt(data, 1) == Ok((b.key, b.start)) && ParseAt(data, b.start) == Ok((b.value, b.end))
    ensures ParseAt(data, 0) == Ok((PDict([b]), b.end + 1))
  {
    hide ParseAt;
    PutFresh([], b);
    assert [] + [b] == [b];
    EntriesStep(data, 1, [], b);
    EntriesEnd(data, b.end, [b]);
    DictAt(data, 0);
  }

  lemma KeyReflected(key: Value)
    ensures Hashable(Reflect(key, 1)) <==> key.VInt? || key.VStr?
  {}

  lemma KeyRefused(data: Bytes, b: Binding)
    requires data != [] && data[0] == DICT && !Ends(data, 1) && !Hashable(b.key) && 0 <= b.start && 0 <= b.end
    requires ParseAt(data, 1) == Ok((b.key, b.start)) && ParseAt(data, b.start) == Ok((b.value, b.end))
    ensures ParseAt(data, 0) == Err(TypeError)
  {
    assert ParseEntries(data, 1, []) == Err(TypeError) by {
      hide Put;
    }
  }
}
