/**
  The nested `parse` of `torrent_infohash` (src/rab/acquisition.py) with Python's slices and without a check of
  string lengths: a negative length may lead backward, to positions counted from the end of the data, or round in
  a circle. Each call and each round of a loop uses up one unit of fuel.
*/
module BencodeSource {
  import opened Common
  import opened Bencode
  import opened BencodeSpans

  datatype Outcome<T> = OutOfFuel | Raises(fault: Fault) | Returns(value: T, end: int)

  /** `data[pos:pos + 1]`. */
  function Token(data: Bytes, pos: int): Bytes { SliceFrom(data, pos, pos + 1) }

  function SourceInt(data: Bytes, pos: int): Outcome<Parsed> {
    match IndexFrom(data, END, FromEnd(pos, |data|))
    case None => Raises(ValueError)
    case Some(end) =>
      match ReadInt(SliceFrom(data, pos + 1, end))
      case None => Raises(ValueError)
      case Some(n) => Returns(PInt(n), end + 1)
  }

  function SourceStr(data: Bytes, pos: int): Outcome<Parsed> {
    match IndexFrom(data, COLON, FromEnd(pos, |data|))
    case None => Raises(ValueError)
    case Some(colon) =>
      match ReadInt(SliceFrom(data, pos, colon))
      case None => Raises(ValueError)
      case Some(length) => Returns(PStr(SliceFrom(data, colon + 1, colon + 1 + length)), colon + 1 + length)
  }

  function SourceAt(data: Bytes, pos: int, fuel: nat): Outcome<Parsed>
    decreases fuel
  {
    if fuel == 0 then OutOfFuel
    else if Token(data, pos) == [INT] then SourceInt(data, pos)
    else if Token(data, pos) == [LIST] then
      match SourceItems(data, pos + 1, [], fuel - 1)
      case OutOfFuel => OutOfFuel
      case Raises(fault) => Raises(fault)
      case Returns(items, end) => Returns(PList(items), end)
    else if Token(data, pos) == [DICT] then
      match SourceEntries(data, pos + 1, [], fuel - 1)
      case OutOfFuel => OutOfFuel
      case Raises(fault) => Raises(fault)
      case Returns(entries, end) => Returns(PDict(entries), end)
    else SourceStr(data, pos)
  }

  function SourceItems(data: Bytes, pos: int, items: seq<Parsed>, fuel: nat): Outcome<seq<Parsed>>
    decreases fuel
  {
    if fuel == 0 then OutOfFuel
    else if Token(data, pos) == [END] then Returns(items, pos + 1)
    else
      match SourceAt(data, pos, fuel - 1)
      case OutOfFuel => OutOfFuel
      case Raises(fault) => Raises(fault)
      case Returns(item, next) => SourceItems(data, next, items + [item], fuel - 1)
  }

  function SourceEntries(data: Bytes, pos: int, entries: seq<Binding>, fuel: nat): Outcome<seq<Binding>>
    decreases fuel
  {
    if fuel == 0 then OutOfFuel
    else if Token(data, pos) == [END] then Returns(entries, pos + 1)
    else
      match SourceAt(data, pos, fuel - 1)
      case OutOfFuel => OutOfFuel
      case Raises(fault) => Raises(fault)
      case Returns(key, mid) =>
        match SourceAt(data, mid, fuel - 1)
        case OutOfFuel => OutOfFuel
        case Raises(fault) => Raises(fault)
        case Returns(value, next) =>
          if !Hashable(key) then Raises(TypeError)
          else SourceEntries(data, next, Put(entries, Binding(key, value, mid, next)), fuel - 1)
  }

  /** The span whose digest the source returns, if it returns one. */
  function SourceSpan(data: Bytes, fuel: nat): Option<(int, int)> {
    match SourceAt(data, 0, fuel)
    case Returns(parsed, end) => SpanIn(parsed, end, |data|)
    case _ => None
  }

  // ---------------------------------------------------------------- the parser follows the source

  function Lift<T>(r: Result<(T, nat), Fault>): Outcome<T> {
    match r case Ok((value, end)) => Returns(value, end) case Err(fault) => Raises(fault)
  }

  lemma TokenAt(data: Bytes, pos: nat)
    ensures Token(data, pos) == if pos < |data| then [data[pos]] else []
  {}

  lemma StrFollows(data: Bytes, pos: nat)
    requires ParseStr(data, pos) != Err(Backward)
    ensures SourceStr(data, pos) == Lift(ParseStr(data, pos))
  {
    hide ReadInt;
  }

  /** Where no string leads backward the parser gives the source's answer: the same value with the same spans, the same
      end, or the same exception. */
  lemma {:induction false} AtFollows(data: Bytes, pos: nat, fuel: nat)
    requires ParseAt(data, pos) != Err(Backward) && 2 * Left(data, pos) + 1 <= fuel
    ensures SourceAt(data, pos, fuel) == Lift(ParseAt(data, pos))
    decreases fuel
  {
    hide ReadInt, Slice, SliceFrom, ParseStr, SourceStr, ParseItems, ParseEntries, SourceItems, SourceEntries, IndexFrom;
    TokenAt(data, pos);
    if |data| <= pos {
      EndOfData(data, pos);
    } else if data[pos] == INT {
      IntFollows(data, pos);
    } else if data[pos] == LIST {
      ItemsFollow(data, pos + 1, [], fuel - 1);
    } else if data[pos] == DICT {
      EntriesFollow(data, pos + 1, [], fuel - 1);
    } else {
      StrFollows(data, pos);
    }
  }

  lemma EndOfData(data: Bytes, pos: nat)
    requires |data| <= pos
    ensures SourceStr(data, pos) == Raises(ValueError)
  {}

  lemma IntFollows(data: Bytes, pos: nat)
    requires pos < |data|
    ensures SourceInt(data, pos) == Lift(ParseInt(data, pos))
  {
    hide ReadInt;
  }

  lemma {:induction false} ItemsFollow(data: Bytes, pos: nat, items: seq<Parsed>, fuel: nat)
    requires ParseItems(data, pos, items) != Err(Backward) && 2 * Left(data, pos) + 2 <= fuel
    ensures SourceItems(data, pos, items, fuel) == Lift(ParseItems(data, pos, items))
    decreases fuel
  {
    hide ParseAt, SourceAt;
    TokenAt(data, pos);
    if !Ends(data, pos) {
      AtFollows(data, pos, fuel - 1);
      if ParseAt(data, pos).Ok? {
        var (item, next) := ParseAt(data, pos).value;
        ItemsFollow(data, next, items + [item], fuel - 1);
      }
    }
  }

  lemma {:induction false} EntriesFollow(data: Bytes, pos: nat, entries: seq<Binding>, fuel: nat)
    requires ParseEntries(data, pos, entries) != Err(Backward) && 2 * Left(data, pos) + 2 <= fuel
    ensures SourceEntries(data, pos, entries, fuel) == Lift(ParseEntries(data, pos, entries))
    decreases fuel
  {
    hide ParseAt, SourceAt, Put;
    TokenAt(data, pos);
    if !Ends(data, pos) {
      AtFollows(data, pos, fuel - 1);
      if ParseAt(data, pos).Ok? {
        var (key, mid) := ParseAt(data, pos).value;
        AtFollows(data, mid, fuel - 1);
        if ParseAt(data, mid).Ok? && Hashable(key) {
          var (value, next) := ParseAt(data, mid).value;
          EntriesFollow(data, next, Put(entries, Binding(key, value, mid, next)), fuel - 1);
        }
      }
    }
  }

  /** The source hashes the span the model hashes, for every input on which no string leads backward. */
  lemma SpanFollows(data: Bytes, fuel: nat)
    requires ParseAt(data, 0) != Err(Backward) && 2 * |data| + 1 <= fuel
    ensures SourceSpan(data, fuel) == InfoSpan(data)
  {
    AtFollows(data, 0, fuel);
  }

  // ---------------------------------------------------------------- input without negative lengths

  /** Nowhere does a minus sign begin a number that ends before the next colon. */
  ghost predicate NoNegativeLength(data: Bytes) {
    forall m, colon :: 0 <= m < colon < |data| && data[m] == MINUS && data[colon] == COLON && COLON !in data[m..colon] ==>
      ReadInt(data[m..colon]) == None
  }

  lemma NoMinusNoNegative(data: Bytes)
    requires MINUS !in data
    ensures NoNegativeLength(data)
  {}

  /** A negative number is one from its minus sign on. */
  lemma {:induction false} NegativeHasMinus(text: Bytes) returns (k: nat)
    requires ReadInt(text).Some? && ReadInt(text).value < 0
    ensures k < |text| && text[k] == MINUS && ReadInt(text[k..]) == ReadInt(text)
    decreases |text|
  {
    if IsBlank(text[0]) {
      k := NegativeHasMinus(text[1..]);
      assert text[1..][k..] == text[k + 1..];
      k := k + 1;
    } else {
      k := 0;
      assert text[0..] == text;
      FirstStays(text);
    }
  }

  /** Blanks at the end do not touch a first character that is none. */
  lemma {:induction false} FirstStays(s: Bytes)
    requires s != [] && !IsBlank(s[0])
    ensures TrimRight(s) != [] && TrimRight(s)[0] == s[0]
    decreases |s|
  {
    if IsBlank(s[|s| - 1]) {
      FirstStays(s[..|s| - 1]);
    }
  }

  lemma StrMovesOn(data: Bytes, pos: nat)
    requires NoNegativeLength(data)
    ensures ParseStr(data, pos) != Err(Backward)
  {
    hide ReadInt;
    var found := IndexFrom(data, COLON, pos);
    if found.Some? {
      var colon := found.value;
      var text := data[pos..colon];
      if ReadInt(text).Some? && ReadInt(text).value < 0 {
        var k := NegativeHasMinus(text);
        assert false;
      }
    }
  }

  /** On such input no string leads backward. */
  lemma {:induction false} NeverBackward(data: Bytes, pos: nat)
    requires NoNegativeLength(data)
    ensures ParseAt(data, pos) != Err(Backward)
    decreases Left(data, pos), 0
  {
    hide NoNegativeLength, ParseStr, ParseItems, ParseEntries, ReadInt;
    if pos < |data| {
      StrMovesOn(data, pos);
      ItemsMoveOn(data, pos + 1, []);
      EntriesMoveOn(data, pos + 1, []);
    }
  }

  lemma {:induction false} ItemsMoveOn(data: Bytes, pos: nat, items: seq<Parsed>)
    requires NoNegativeLength(data)
    ensures ParseItems(data, pos, items) != Err(Backward)
    decreases Left(data, pos), 1
  {
    hide NoNegativeLength, ParseAt;
    if !Ends(data, pos) {
      NeverBackward(data, pos);
      if ParseAt(data, pos).Ok? {
        var (item, next) := ParseAt(data, pos).value;
        ItemsMoveOn(data, next, items + [item]);
      }
    }
  }

  lemma {:induction false} EntriesMoveOn(data: Bytes, pos: nat, entries: seq<Binding>)
    requires NoNegativeLength(data)
    ensures ParseEntries(data, pos, entries) != Err(Backward)
    decreases Left(data, pos), 1
  {
    hide NoNegativeLength, ParseAt, Put;
    if !Ends(data, pos) {
      NeverBackward(data, pos);
      if ParseAt(data, pos).Ok? {
        var (key, mid) := ParseAt(data, pos).value;
        NeverBackward(data, mid);
        if ParseAt(data, mid).Ok? && Hashable(key) {
          var (value, next) := ParseAt(data, mid).value;
          EntriesMoveOn(data, next, Put(entries, Binding(key, value, mid, next)));
        }
      }
    }
  }

  /** The source ends on input in which no minus sign begins a number before a colon, such as input without any, and
      answers what the parser does: it parses and hashes the same, or raises the same exception. */
  lemma SourceEnds(data: Bytes, fuel: nat)
    requires NoNegativeLength(data) && 2 * |data| + 1 <= fuel
    ensures SourceAt(data, 0, fuel) == Lift(ParseAt(data, 0)) && SourceAt(data, 0, fuel) != OutOfFuel
    ensures SourceSpan(data, fuel) == InfoSpan(data)
  {
    NeverBackward(data, 0);
    AtFollows(data, 0, fuel);
    SpanFollows(data, fuel);
  }

  // ---------------------------------------------------------------- strings that lead backward

  /** A string moves the source forward exactly when its length does not undo the characters it was read from; the
      parser of the model stops at exactly the others. */
  lemma BackwardIff(data: Bytes, pos: nat)
    ensures ParseStr(data, pos) == Err(Backward) <==> SourceStr(data, pos).Returns? && SourceStr(data, pos).end <= pos
  {
    hide ReadInt;
  }

  /** In numbers: the length must be at least minus the number of characters that it was read from. */
  lemma SourceProgress(data: Bytes, pos: nat)
    requires SourceStr(data, pos).Returns?
    ensures IndexFrom(data, COLON, pos).Some? && ReadInt(Slice(data, pos, IndexFrom(data, COLON, pos).value)).Some?
    ensures var colon := IndexFrom(data, COLON, pos).value;
      pos < SourceStr(data, pos).end <==> pos - colon <= ReadInt(Slice(data, pos, colon)).value
  {
    hide ReadInt;
  }

  /** "l-3:": the one string of the list leads back to where it began. */
  const CIRCLE: Bytes := [LIST, MINUS, 0x33, COLON]

  /** The source never ends on it: however much fuel it gets, it uses up. */
  lemma NegativeLengthStalls(fuel: nat)
    ensures SourceAt(CIRCLE, 0, fuel) == OutOfFuel
  {
    TokenAt(CIRCLE, 0);
    if 0 < fuel {
      CircleTurns([], fuel - 1);
    }
  }

  lemma {:induction false} CircleTurns(items: seq<Parsed>, fuel: nat)
    ensures SourceItems(CIRCLE, 1, items, fuel) == OutOfFuel
    decreases fuel
  {
    hide SourceStr, Token;
    TokenAt(CIRCLE, 1);
    if 1 < fuel {
      CircleString();
      CircleTurns(items + [PStr([])], fuel - 1);
    }
  }

  lemma CircleString()
    ensures SourceStr(CIRCLE, 1) == Returns(PStr([]), 1)
  {
    ReadDecimal(3);
    assert CIRCLE[1..3] == [MINUS] + Decimal(3);
    StrIsAt(CIRCLE, 1, 3, -3);
  }

  /** A string whose length stands between `pos` and the colon. */
  lemma StrIsAt(data: Bytes, pos: nat, colon: nat, length: int)
    requires pos <= colon < |data| && data[colon] == COLON && COLON !in data[pos..colon]
    requires ReadInt(data[pos..colon]) == Some(length)
    ensures SourceStr(data, pos) == Returns(PStr(SliceFrom(data, colon + 1, colon + 1 + length)), colon + 1 + length)
  {
    hide ReadInt;
    ColonIsFound(data, pos, colon);
    assert SliceFrom(data, pos, colon) == data[pos..colon];
  }

  lemma StringToken(data: Bytes, pos: nat, colon: nat, length: int, fuel: nat)
    requires pos <= colon < |data| && data[colon] == COLON && COLON !in data[pos..colon]
    requires ReadInt(data[pos..colon]) == Some(length) && data[pos] !in {INT, LIST, DICT} && 0 < fuel
    ensures SourceAt(data, pos, fuel) == Returns(PStr(SliceFrom(data, colon + 1, colon + 1 + length)), colon + 1 + length)
  {
    hide ReadInt, SliceFrom, Token;
    TokenAt(data, pos);
    StrIsAt(data, pos, colon, length);
  }

  lemma NextEntry(data: Bytes, pos: nat, entries: seq<Binding>, b: Binding, fuel: nat)
    requires pos < |data| && data[pos] != END && Hashable(b.key) && 1 < fuel
    requires SourceAt(data, pos, fuel - 1) == Returns(b.key, b.start)
    requires SourceAt(data, b.start, fuel - 1) == Returns(b.value, b.end)
    ensures SourceEntries(data, pos, entries, fuel) == SourceEntries(data, b.end, Put(entries, b), fuel - 1)
  {
    hide SourceAt, Token, Put;
    TokenAt(data, pos);
  }

  /** "d6:xxx12:0:4:info-15:0:e": the length of the value of "info" leads back into the first key, whose tail is then
      read as the next key. */
  const DETOUR: Bytes :=
    [DICT, 0x36, COLON, 0x78, 0x78, 0x78, 0x31, 0x32, COLON, 0x30, COLON, 0x34, COLON, INT, 0x6e, 0x66, 0x6f, MINUS, 0x31, 0x35,
     COLON, 0x30, COLON, END]

  /** The source accepts these bytes although the span it hashes ends before it begins, so that the digest is that of
      no bytes at all; the parser of the model stops at the length that leads backward. */
  lemma BackwardSpanIsHashed(fuel: nat)
    requires 6 <= fuel
    ensures SourceSpan(DETOUR, fuel) == Some((17, 6)) && SliceFrom(DETOUR, 17, 6) == []
    ensures ParseAt(DETOUR, 0) == Err(Backward)
  {
    hide SourceSpan, ParseAt, InfoSpan;
    DetourSpan(fuel);
    DetourSpan(49);
    if ParseAt(DETOUR, 0) != Err(Backward) {
      SpanFollows(DETOUR, 49);
      HashedSpanIsInfo(DETOUR);
    }
  }

  lemma DetourSpan(fuel: nat)
    requires 6 <= fuel
    ensures SourceSpan(DETOUR, fuel) == Some((17, 6))
  {
    hide SourceAt, SourceEntries, Put;
    var first := Binding(PStr(DETOUR[3..9]), PStr([]), 9, 11);
    var second := Binding(PStr(INFO), PStr([]), 17, 6);
    var third := Binding(PStr(DETOUR[9..21]), PStr([]), 21, 23);
    assert |DETOUR[3..9]| == 6 && |INFO| == 4 && |DETOUR[9..21]| == 12;
    DetourStrings(fuel - 2);
    PutFresh([], first);
    NextEntry(DETOUR, 1, [], first, fuel - 1);
    DetourStrings(fuel - 3);
    PutFresh([first], second);
    NextEntry(DETOUR, 11, [first], second, fuel - 2);
    DetourStrings(fuel - 4);
    PutFresh([first, second], third);
    NextEntry(DETOUR, 6, [first, second], third, fuel - 3);
    assert [] + [first] == [first] && [first] + [second] == [first, second] && [first, second] + [third] == [first, second, third];
    LastEntry(DETOUR, 0, 23, [first, second, third], fuel, fuel - 4);
    KeyIndexIsUnique([first, second, third], 1);
    assert |DETOUR| == 24;
  }

  lemma LastEntry(data: Bytes, pos: nat, end: nat, entries: seq<Binding>, fuel: nat, rest: nat)
    requires pos < end < |data| && data[pos] == DICT && data[end] == END && 0 < rest <= fuel
    requires SourceEntries(data, pos + 1, [], fuel - 1) == SourceEntries(data, end, entries, rest)
    ensures SourceAt(data, pos, fuel) == Returns(PDict(entries), end + 1)
  {
    TokenAt(data, pos);
    TokenAt(data, end);
  }

  lemma DetourStrings(fuel: nat)
    requires 0 < fuel
    ensures SourceAt(DETOUR, 1, fuel) == Returns(PStr(DETOUR[3..9]), 9)
    ensures SourceAt(DETOUR, 9, fuel) == Returns(PStr([]), 11)
    ensures SourceAt(DETOUR, 11, fuel) == Returns(PStr(INFO), 17)
    ensures SourceAt(DETOUR, 17, fuel) == Returns(PStr([]), 6)
    ensures SourceAt(DETOUR, 6, fuel) == Returns(PStr(DETOUR[9..21]), 21)
    ensures SourceAt(DETOUR, 21, fuel) == Returns(PStr([]), 23)
  {
    hide SourceAt, ReadInt, Decimal;
    DetourNumbers();
    ForwardStrings(fuel);
    StringToken(DETOUR, 17, 20, -15, fuel);
    StringToken(DETOUR, 6, 8, 12, fuel);
    StringToken(DETOUR, 21, 22, 0, fuel);
  }

  lemma ForwardStrings(fuel: nat)
    requires 0 < fuel
    ensures SourceAt(DETOUR, 1, fuel) == Returns(PStr(DETOUR[3..9]), 9)
    ensures SourceAt(DETOUR, 9, fuel) == Returns(PStr([]), 11)
    ensures SourceAt(DETOUR, 11, fuel) == Returns(PStr(INFO), 17)
  {
    hide SourceAt, ReadInt, Decimal;
    DetourNumbers();
    StringToken(DETOUR, 1, 2, 6, fuel);
    StringToken(DETOUR, 9, 10, 0, fuel);
    StringToken(DETOUR, 11, 12, 4, fuel);
    assert DETOUR[13..17] == INFO;
  }

  lemma DetourNumbers()
    ensures ReadInt(DETOUR[1..2]) == Some(6) && ReadInt(DETOUR[9..10]) == Some(0) && ReadInt(DETOUR[11..12]) == Some(4)
    ensures ReadInt(DETOUR[17..20]) == Some(-15) && ReadInt(DETOUR[6..8]) == Some(12) && ReadInt(DETOUR[21..22]) == Some(0)
  {
    hide ReadInt, Decimal;
    OneDigit(6);
    OneDigit(0);
    OneDigit(4);
    TwoDigits(5);
    TwoDigits(2);
    ReadDecimal(12);
    ReadDecimal(15);
    assert DETOUR[1] == 0x36 && DETOUR[1..2] == [DETOUR[1]];
    assert DETOUR[9..10] == [0x30];
    assert DETOUR[11..12] == [0x34];
    assert DETOUR[21..22] == [0x30];
    assert DETOUR[6..8] == [0x31, 0x32];
    assert DETOUR[17..20] == [MINUS] + [0x31, 0x35];
  }

  lemma OneDigit(n: nat)
    requires n < 10
    ensures Decimal(n) == [ZERO + n] && ReadInt([ZERO + n]) == Some(n)
  {
    hide ReadInt;
    ReadDecimal(n);
  }

  lemma TwoDigits(n: nat)
    requires n < 10
    ensures Decimal(10 + n) == [0x31, ZERO + n]
  {
    assert Decimal(1) == [0x31];
  }
}
