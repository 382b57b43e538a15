/**
  The spans of a dictionary on arbitrary input (src/rab/acquisition.py, `torrent_infohash`): when the bytes that
  are hashed are, by themselves, an encoding of the info value.
*/
module BencodeSpans {
  import opened Common
  import opened Bencode

  // ---------------------------------------------------------------- spans inside the data

  /** The spans recorded in a dictionary are those of its values, and end where the dictionary does or before. */
  ghost predicate SpansAreTrue(data: Bytes, entries: seq<Binding>, end: int) {
    forall i :: 0 <= i < |entries| ==>
      0 <= entries[i].start && entries[i].end <= end && Hashable(entries[i].key)
      && ParseAt(data, entries[i].start) == Ok((entries[i].value, entries[i].end))
  }

  lemma {:induction false} EntriesHaveTrueSpans(data: Bytes, pos: nat, entries: seq<Binding>)
    requires SpansAreTrue(data, entries, pos) && ParseEntries(data, pos, entries).Ok?
    ensures SpansAreTrue(data, ParseEntries(data, pos, entries).value.0, ParseEntries(data, pos, entries).value.1)
    decreases Left(data, pos)
  {
    hide ParseAt;
    if !Ends(data, pos) {
      var (key, mid) := ParseAt(data, pos).value;
      var (value, next) := ParseAt(data, mid).value;
      EntriesHaveTrueSpans(data, next, Put(entries, Binding(key, value, mid, next)));
    }
  }

  /** Whatever bytes are accepted as a torrent, the hashed span is the one at which the value stored under "info" was
      read. */
  lemma HashedSpanIsInfo(data: Bytes)
    requires InfoSpan(data).Some?
    ensures var (start, stop) := InfoSpan(data).value;
      var entries := ParseAt(data, 0).value.0.entries;
      && 0 <= start < stop <= |data|
      && ParseAt(data, start) == Ok((entries[KeyIndex(entries, PStr(INFO))].value, stop))
  {
    hide ParseAt, ParseEntries;
    TopDictionary(data);
    EntriesHaveTrueSpans(data, 1, []);
  }

  /** What has an info span is one dictionary. */
  lemma TopDictionary(data: Bytes)
    requires InfoSpan(data).Some?
    ensures ParseAt(data, 0).Ok? && ParseAt(data, 0).value.0.PDict? && ParseAt(data, 0).value.1 == |data|
    ensures ParseEntries(data, 1, []) == Ok((ParseAt(data, 0).value.0.entries, |data|))
  {
    hide ParseEntries, ParseItems, ReadInt;
  }

  // ---------------------------------------------------------------- moving a value to another place

  function Shift(v: Parsed, n: int): Parsed
    decreases v
  {
    match v
    case PInt(_) => v
    case PStr(_) => v
    case PList(items) => PList(ShiftItems(items, n))
    case PDict(entries) => PDict(ShiftEntries(entries, n))
  }

  function ShiftItems(items: seq<Parsed>, n: int): (r: seq<Parsed>)
    ensures |r| == |items| && forall i :: 0 <= i < |r| ==> r[i] == Shift(items[i], n)
    decreases items
  { seq(|items|, i requires 0 <= i < |items| => Shift(items[i], n)) }

  function ShiftBinding(b: Binding, n: int): Binding
    decreases b
  { Binding(b.key, Shift(b.value, n), b.start - n, b.end - n) }

  function ShiftEntries(entries: seq<Binding>, n: int): (r: seq<Binding>)
    ensures |r| == |entries| && forall i :: 0 <= i < |r| ==> r[i] == ShiftBinding(entries[i], n)
    decreases entries
  { seq(|entries|, i requires 0 <= i < |entries| => ShiftBinding(entries[i], n)) }

  lemma {:induction false} ShiftKeyIndex(entries: seq<Binding>, key: Parsed, n: int)
    ensures KeyIndex(ShiftEntries(entries, n), key) == KeyIndex(entries, key)
  {
    if entries != [] && entries[0].key != key {
      assert ShiftEntries(entries, n)[1..] == ShiftEntries(entries[1..], n);
      ShiftKeyIndex(entries[1..], key, n);
    }
  }

  lemma ShiftPut(entries: seq<Binding>, b: Binding, n: int)
    ensures ShiftEntries(Put(entries, b), n)
            == Put(ShiftEntries(entries, n), ShiftBinding(b, n))
  {
    ShiftKeyIndex(entries, b.key, n);
  }

  // ---------------------------------------------------------------- the text of a number

  /** The bytes that may stand in the text of a number. */
  predicate InNumber(b: Byte) { IsBlank(b) || IsDigit(b) || b in {MINUS, PLUS, UNDERSCORE} }

  lemma {:induction false} DigitsAreInNumber(s: Bytes)
    requires Digits(s).Some?
    ensures forall b :: b in s ==> InNumber(b)
  {
    var rest := s[..|s| - 1];
    assert s == rest + [s[|s| - 1]];
    if rest != [] {
      if rest[|rest| - 1] == UNDERSCORE {
        assert rest == rest[..|rest| - 1] + [UNDERSCORE];
        DigitsAreInNumber(rest[..|rest| - 1]);
      } else {
        DigitsAreInNumber(rest);
      }
    }
  }

  lemma {:induction false} TrimmedLeft(s: Bytes)
    ensures forall b :: b in s ==> b in TrimLeft(s) || IsBlank(b)
  {
    if s != [] && IsBlank(s[0]) {
      assert s == [s[0]] + s[1..];
      TrimmedLeft(s[1..]);
    }
  }

  lemma {:induction false} TrimmedRight(s: Bytes)
    ensures forall b :: b in s ==> b in Bencode.TrimRight(s) || IsBlank(b)
  {
    if s != [] && IsBlank(s[|s| - 1]) {
      assert s == s[..|s| - 1] + [s[|s| - 1]];
      TrimmedRight(s[..|s| - 1]);
    }
  }

  lemma NumberText(s: Bytes)
    requires ReadInt(s).Some?
    ensures forall b :: b in s ==> InNumber(b)
  {
    hide Digits, Bencode.TrimRight, TrimLeft, InNumber, IsBlank;
    var t := Bencode.TrimRight(TrimLeft(s));
    var digits := if t[0] == MINUS || t[0] == PLUS then t[1..] else t;
    DigitsAreInNumber(digits);
    TrimmedLeft(s);
    TrimmedRight(TrimLeft(s));
    forall b | b in s
      ensures InNumber(b)
    {
      if b in t {
        assert t == [t[0]] + t[1..];
        assert b == t[0] || b in t[1..];
        InNumberOne(b);
      } else {
        InNumberOne(b);
      }
    }
  }

  lemma InNumberOne(b: Byte)
    ensures IsBlank(b) || b == MINUS || b == PLUS ==> InNumber(b)
  {}

  // ---------------------------------------------------------------- a value depends on its own bytes only

  lemma {:induction false} IndexLocal(data: Bytes, a: nat, b: nat, c: Byte, pos: nat)
    requires a <= pos && b <= |data| && IndexFrom(data, c, pos).Some? && IndexFrom(data, c, pos).value < b
    ensures IndexFrom(data[a..b], c, pos - a) == Some(IndexFrom(data, c, pos).value - a)
    decreases |data| - pos
  {
    if data[pos] != c {
      IndexLocal(data, a, b, c, pos + 1);
    }
  }

  lemma SliceLocal(data: Bytes, a: nat, b: nat, lo: nat, hi: nat)
    requires a <= lo && a <= hi <= b && b <= |data|
    ensures Slice(data[a..b], lo - a, hi - a) == Slice(data, lo, hi)
  {
    if lo < hi {
      var x, y := data[a..b][lo - a..hi - a], data[lo..hi];
      assert |x| == |y| && forall i :: 0 <= i < |x| ==> x[i] == data[a..b][lo - a + i] == data[lo + i] == y[i];
    }
  }

  /** The end of what is looked at to read a value: for a string its colon is, even when its end comes before it. */
  function Reached(data: Bytes, pos: nat): nat
    requires ParseAt(data, pos).Ok?
  {
    var next := ParseAt(data, pos).value.1;
    if data[pos] in {INT, LIST, DICT} then next
    else
      match IndexFrom(data, COLON, pos)
      case None => next
      case Some(colon) => if next <= colon then colon + 1 else next
  }

  /** A string with a negative length that leads forward: it ends at its colon or before it. */
  predicate EndsBeforeColon(data: Bytes, pos: nat)
    requires ParseAt(data, pos).Ok?
  { Reached(data, pos) != ParseAt(data, pos).value.1 }

  /** Between the end of such a string and its colon there is only the text of its length. */
  predicate InLength(data: Bytes, pos: nat, colon: nat) {
    pos <= colon < |data| && data[colon] == COLON && forall i :: pos <= i < colon ==> InNumber(data[i]) && data[i] != COLON
  }

  lemma {:induction false} ColonAhead(data: Bytes, pos: nat, colon: nat)
    requires InLength(data, pos, colon)
    ensures IndexFrom(data, COLON, pos) == Some(colon)
    decreases colon - pos
  {
    if pos < colon {
      ColonAhead(data, pos + 1, colon);
    }
  }

  /** From there on nothing but strings with the same colon can be read until the colon is passed. */
  lemma StringAhead(data: Bytes, pos: nat, colon: nat)
    requires InLength(data, pos, colon)
    ensures !Ends(data, pos)
    ensures ParseAt(data, pos).Ok? ==>
      var next := ParseAt(data, pos).value.1; colon < next || (pos < next && InLength(data, next, colon))
  {
    hide ReadInt;
    ColonAhead(data, pos, colon);
  }

  lemma {:induction false} ItemsPassColon(data: Bytes, pos: nat, items: seq<Parsed>, colon: nat)
    requires InLength(data, pos, colon) && ParseItems(data, pos, items).Ok?
    ensures colon < ParseItems(data, pos, items).value.1
    decreases Left(data, pos)
  {
    hide ParseAt, InLength;
    StringAhead(data, pos, colon);
    var (item, next) := ParseAt(data, pos).value;
    if next <= colon {
      ItemsPassColon(data, next, items + [item], colon);
    }
  }

  lemma {:induction false} EntriesPassColon(data: Bytes, pos: nat, entries: seq<Binding>, colon: nat)
    requires InLength(data, pos, colon) && ParseEntries(data, pos, entries).Ok?
    ensures colon < ParseEntries(data, pos, entries).value.1
    decreases Left(data, pos)
  {
    hide ParseAt, InLength, Put;
    StringAhead(data, pos, colon);
    var (key, mid) := ParseAt(data, pos).value;
    if mid <= colon {
      StringAhead(data, mid, colon);
      var (value, next) := ParseAt(data, mid).value;
      if next <= colon {
        EntriesPassColon(data, next, Put(entries, Binding(key, value, mid, next)), colon);
      }
    }
  }

  lemma LengthRemains(data: Bytes, pos: nat)
    requires ParseAt(data, pos).Ok? && EndsBeforeColon(data, pos)
    ensures Reached(data, pos) > 0 && InLength(data, ParseAt(data, pos).value.1, Reached(data, pos) - 1)
  {
    hide ReadInt;
    var colon := IndexFrom(data, COLON, pos).value;
    NumberText(Slice(data, pos, colon));
    assert Slice(data, pos, colon) == data[pos..colon];
    forall i | pos <= i < colon
      ensures InNumber(data[i])
    {
      assert data[i] == data[pos..colon][i - pos];
    }
  }

  /** Reading a value from the bytes between `a` and `b` alone gives the same value, moved. */
  lemma {:induction false} AtLocal(data: Bytes, a: nat, b: nat, pos: nat)
    requires a <= pos && b <= |data| && ParseAt(data, pos).Ok? && Reached(data, pos) <= b
    ensures ParseAt(data[a..b], pos - a)
            == Ok((Shift(ParseAt(data, pos).value.0, a), ParseAt(data, pos).value.1 - a))
    decreases Left(data, pos), 0
  {
    hide ReadInt, ParseItems, ParseEntries, ParseInt, ParseStr;
    var next := ParseAt(data, pos).value.1;
    assert next <= Reached(data, pos) && data[a..b][pos - a] == data[pos];
    if data[pos] == LIST {
      ItemsLocal(data, a, b, pos + 1, []);
    } else if data[pos] == DICT {
      EntriesLocal(data, a, b, pos + 1, []);
    } else if data[pos] == INT {
      IntLocal(data, a, b, pos);
    } else {
      StringHasColon(data, pos);
      StrLocal(data, a, b, pos);
    }
  }

  lemma StringHasColon(data: Bytes, pos: nat)
    requires ParseStr(data, pos).Ok?
    ensures IndexFrom(data, COLON, pos).Some? && ParseStr(data, pos).value.0.PStr?
  {}

  lemma IntLocal(data: Bytes, a: nat, b: nat, pos: nat)
    requires a <= pos < b <= |data| && ParseInt(data, pos).Ok? && ParseInt(data, pos).value.1 <= b
    ensures ParseInt(data[a..b], pos - a) == Ok((ParseInt(data, pos).value.0, ParseInt(data, pos).value.1 - a))
    ensures ParseInt(data, pos).value.0.PInt?
  {
    hide ReadInt, Slice, IndexFrom;
    var end := IndexFrom(data, END, pos).value;
    IndexLocal(data, a, b, END, pos);
    SliceLocal(data, a, b, pos + 1, end);
  }

  lemma StrLocal(data: Bytes, a: nat, b: nat, pos: nat)
    requires a <= pos < b <= |data| && ParseStr(data, pos).Ok? && ParseStr(data, pos).value.1 <= b
    requires IndexFrom(data, COLON, pos).value < b
    ensures ParseStr(data[a..b], pos - a) == Ok((ParseStr(data, pos).value.0, ParseStr(data, pos).value.1 - a))
  {
    hide ReadInt, Slice, IndexFrom;
    var colon := IndexFrom(data, COLON, pos).value;
    var next := ParseStr(data, pos).value.1;
    IndexLocal(data, a, b, COLON, pos);
    SliceLocal(data, a, b, pos, colon);
    SliceLocal(data, a, b, colon + 1, next);
  }

  lemma {:induction false} ItemsLocal(data: Bytes, a: nat, b: nat, pos: nat, items: seq<Parsed>)
    requires a <= pos && b <= |data| && ParseItems(data, pos, items).Ok? && ParseItems(data, pos, items).value.1 <= b
    ensures ParseItems(data[a..b], pos - a, ShiftItems(items, a))
            == Ok((ShiftItems(ParseItems(data, pos, items).value.0, a), ParseItems(data, pos, items).value.1 - a))
    decreases Left(data, pos), 1
  {
    hide ParseAt, Reached, InLength;
    var end := ParseItems(data, pos, items).value.1;
    if Ends(data, pos) {
      assert data[a..b][pos - a] == data[pos];
    } else {
      var (item, next) := ParseAt(data, pos).value;
      StartStays(data, a, b, pos);
      ReachedByItems(data, pos, items);
      AtLocal(data, a, b, pos);
      assert ShiftItems(items + [item], a) == ShiftItems(items, a) + [Shift(item, a)];
      ItemsLocal(data, a, b, next, items + [item]);
    }
  }

  lemma StartStays(data: Bytes, a: nat, b: nat, pos: nat)
    requires a <= pos < b <= |data| && !Ends(data, pos)
    ensures !Ends(data[a..b], pos - a)
  {}

  lemma ReachedByItems(data: Bytes, pos: nat, items: seq<Parsed>)
    requires !Ends(data, pos) && ParseItems(data, pos, items).Ok?
    ensures Reached(data, pos) <= ParseItems(data, pos, items).value.1
  {
    hide ParseAt, InLength;
    var (item, next) := ParseAt(data, pos).value;
    if EndsBeforeColon(data, pos) {
      LengthRemains(data, pos);
      ItemsPassColon(data, next, items + [item], Reached(data, pos) - 1);
    }
  }

  lemma ReachedByEntries(data: Bytes, pos: nat, entries: seq<Binding>)
    requires !Ends(data, pos) && ParseEntries(data, pos, entries).Ok?
    ensures var mid, end := ParseAt(data, pos).value.1, ParseEntries(data, pos, entries).value.1;
      Reached(data, pos) <= end && Reached(data, mid) <= end
  {
    hide ParseAt, InLength, Put;
    var (key, mid) := ParseAt(data, pos).value;
    var (value, next) := ParseAt(data, mid).value;
    var more := Put(entries, Binding(key, value, mid, next));
    var end := ParseEntries(data, next, more).value.1;
    if EndsBeforeColon(data, mid) {
      LengthRemains(data, mid);
      EntriesPassColon(data, next, more, Reached(data, mid) - 1);
    }
    if EndsBeforeColon(data, pos) {
      var colon := Reached(data, pos) - 1;
      LengthRemains(data, pos);
      StringAhead(data, mid, colon);
      if next <= colon {
        EntriesPassColon(data, next, more, colon);
      }
    }
  }

  lemma {:induction false} EntriesLocal(data: Bytes, a: nat, b: nat, pos: nat, entries: seq<Binding>)
    requires a <= pos && b <= |data| && ParseEntries(data, pos, entries).Ok? && ParseEntries(data, pos, entries).value.1 <= b
    ensures ParseEntries(data[a..b], pos - a, ShiftEntries(entries, a))
            == Ok((ShiftEntries(ParseEntries(data, pos, entries).value.0, a), ParseEntries(data, pos, entries).value.1 - a))
    decreases Left(data, pos), 1
  {
    hide ParseAt, Reached, InLength, Put, ShiftEntries;
    var end := ParseEntries(data, pos, entries).value.1;
    if Ends(data, pos) {
      assert data[a..b][pos - a] == data[pos];
    } else {
      var (key, mid) := ParseAt(data, pos).value;
      var (value, next) := ParseAt(data, mid).value;
      StartStays(data, a, b, pos);
      ReachedByEntries(data, pos, entries);
      AtLocal(data, a, b, pos);
      AtLocal(data, a, b, mid);
      KeyStays(key, a);
      ShiftPut(entries, Binding(key, value, mid, next), a);
      EntriesLocal(data, a, b, next, Put(entries, Binding(key, value, mid, next)));
    }
  }

  lemma KeyStays(key: Parsed, n: int)
    requires Hashable(key)
    ensures Shift(key, n) == key
  {}

  // ---------------------------------------------------------------- the hashed bytes by themselves

  /** Whatever bytes are accepted as a torrent, the bytes that are hashed are by themselves an encoding of the info value,
      to their very end, unless that value is a string whose negative length makes it end at its colon or before. */
  lemma HashedBytesAreInfo(data: Bytes)
    requires InfoSpan(data).Some?
    ensures var (start, stop) := InfoSpan(data).value;
      && 0 <= start < stop <= |data|
      && ParseAt(data, start).Ok?
      && (ParseAt(data[start..stop], 0) == Ok((Shift(ParseAt(data, start).value.0, start), stop - start))
          <==> !EndsBeforeColon(data, start))
  {
    hide ParseAt, Shift;
    HashedSpanIsInfo(data);
    var (start, stop) := InfoSpan(data).value;
    if EndsBeforeColon(data, start) {
      NoColonAlone(data, start, stop);
    } else {
      AtLocal(data, start, stop, start);
    }
  }

  lemma NoColonAlone(data: Bytes, start: nat, stop: nat)
    requires start < stop <= |data| && ParseAt(data, start).Ok? && ParseAt(data, start).value.1 == stop
    requires EndsBeforeColon(data, start)
    ensures ParseAt(data[start..stop], 0).Err?
  {
    hide ReadInt;
    var alone := data[start..stop];
    assert alone[0] == data[start];
    var colon := IndexFrom(data, COLON, start).value;
    assert forall i :: 0 <= i < |alone| ==> alone[i] == data[start + i] && data[start + i] != COLON;
    assert IndexFrom(alone, COLON, 0) == None;
  }

  lemma {:induction false} ColonIsFound(data: Bytes, pos: nat, colon: nat)
    requires pos <= colon < |data| && data[colon] == COLON && COLON !in data[pos..colon]
    ensures IndexFrom(data, COLON, pos) == Some(colon)
    decreases colon - pos
  {
    if pos < colon {
      assert data[pos..colon][0] == data[pos] && data[pos + 1..colon] == data[pos..colon][1..];
      ColonIsFound(data, pos + 1, colon);
    }
  }

  /** A string whose length, standing between `pos` and the colon, leads forward. */
  lemma StringAt(data: Bytes, pos: nat, colon: nat, length: int)
    requires pos <= colon < |data| && data[colon] == COLON && COLON !in data[pos..colon]
    requires ReadInt(data[pos..colon]) == Some(length) && pos < colon + 1 + length && data[pos] !in {INT, LIST, DICT}
    ensures ParseAt(data, pos) == Ok((PStr(Slice(data, colon + 1, colon + 1 + length)), colon + 1 + length))
  {
    hide ReadInt, IndexFrom;
    ColonIsFound(data, pos, colon);
    assert Slice(data, pos, colon) == data[pos..colon];
  }

  /** "d4:info-2:ab0:e": the value of "info" is an empty string whose length leads back to its own second character. */
  const STEP_BACK: Bytes :=
    [DICT, 0x34, COLON, INT, 0x6e, 0x66, 0x6f, MINUS, 0x32, COLON, 0x61, 0x62, 0x30, COLON, END]

  /** These bytes are accepted, and what is hashed is the sign of that length. */
  lemma NegativeSpanIsNoValue()
    ensures InfoSpan(STEP_BACK) == Some((7, 8)) && ParseAt(STEP_BACK[7..8], 0).Err?
  {
    hide ParseAt, ParseEntries, ReadInt, Decimal, Put;
    var info, other := Binding(PStr(INFO), PStr([]), 7, 8), Binding(PStr(STEP_BACK[10..12]), PStr([]), 12, 14);
    StepBackStrings();
    assert |INFO| == 4 && |STEP_BACK[10..12]| == 2;
    PutFresh([], info);
    PutFresh([info], other);
    EntriesStep(STEP_BACK, 1, [], info);
    EntriesStep(STEP_BACK, 8, [info], other);
    assert [] + [info] == [info] && [info] + [other] == [info, other];
    EntriesEnd(STEP_BACK, 14, [info, other]);
    DictAt(STEP_BACK, 0);
    assert EndsBeforeColon(STEP_BACK, 7) by {
      ColonIsFound(STEP_BACK, 7, 9);
    }
    HashedBytesAreInfo(STEP_BACK);
    NoColonAlone(STEP_BACK, 7, 8);
  }

  lemma StepBackStrings()
    ensures ParseAt(STEP_BACK, 1) == Ok((PStr(INFO), 7)) && ParseAt(STEP_BACK, 7) == Ok((PStr([]), 8))
    ensures ParseAt(STEP_BACK, 8) == Ok((PStr(STEP_BACK[10..12]), 12)) && ParseAt(STEP_BACK, 12) == Ok((PStr([]), 14))
  {
    hide ParseAt, ReadInt;
    ReadDecimal(0);
    ReadDecimal(2);
    ReadDecimal(4);
    assert STEP_BACK[1..2] == Decimal(4) && STEP_BACK[7..9] == [MINUS] + Decimal(2);
    assert STEP_BACK[8..9] == Decimal(2) && STEP_BACK[12..13] == Decimal(0) && STEP_BACK[3..7] == INFO;
    StringAt(STEP_BACK, 1, 2, 4);
    StringAt(STEP_BACK, 7, 9, -2);
    StringAt(STEP_BACK, 8, 9, 2);
    StringAt(STEP_BACK, 12, 13, 0);
  }
}
