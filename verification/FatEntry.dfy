/**
  A 32-byte directory entry as its author writes it, in the terms of the Microsoft FAT specification (version 1.03,
  section "FAT Directory Structure"): name and extension padded with blanks, attribute bits, the first cluster in two
  halves and the size. Nothing here refers to how the reader decodes it; the lemmas say that it decodes to the same.
*/
module FatEntry {
  import opened Common
  import opened FatDirectory

  /** A short name. */
  datatype Name = Name(base: string, ext: string) {
    function Text(): string { if ext == "" then base else base + "." + ext }
  }

  /** One 32-byte slot of a directory as its author meant it. */
  datatype Slot =
    | Ignored
    | FileSlot(name: Name, raw: Bytes, attributes: Byte, first: nat, chain: seq<nat>, content: Bytes)
    | DirSlot(name: Name, raw: Bytes, attributes: Byte, first: nat, chain: seq<nat>, size: nat, slots: seq<Slot>)

  // ---------------------------------------------------------------- what the bytes spell

  /** The characters of `text`, followed by blanks up to the end of the field. */
  predicate Spells(field: Bytes, text: string, decode: Byte -> char) {
    && |text| <= |field|
    && (forall i :: 0 <= i < |text| ==> decode(field[i]) == text[i])
    && (forall i :: |text| <= i < |field| ==> IsSpace(decode(field[i])))
    && (text != "" ==> !IsSpace(text[|text| - 1]))
  }

  predicate NameStands(e: Entry32, n: Name, decode: Byte -> char) {
    Spells(e[..8], n.base, decode) && Spells(e[8..11], n.ext, decode)
  }

  /** Two and four bytes, the least significant first. */
  function Short(e: Bytes, at: nat): nat
    requires at + 2 <= |e|
  { e[at] as int + 0x100 * (e[at + 1] as int) }

  function Long(e: Bytes, at: nat): nat
    requires at + 4 <= |e|
  { Short(e, at) + 0x1_0000 * Short(e, at + 2) }

  predicate Bit(b: Byte, weight: nat)
    requires 0 < weight
  { b / weight % 2 == 1 }

  /** A slot that is no file: a deleted entry, a part of a long name, a volume label, or one of "." and "..". */
  ghost predicate Passed(e: Entry32, decode: Byte -> char) {
    || e[0] == 0xe5 || e[11] == 0x0f || Bit(e[11], 8)
    || exists n :: NameStands(e, n, decode) && n.Text() in {".", ".."}
  }

  /** The entry says what the slot means. */
  ghost predicate EntryHolds(e: Entry32, s: Slot, decode: Byte -> char) {
    && e[0] != 0
    && (s.Ignored? ==> Passed(e, decode))
    && (!s.Ignored? ==>
          && e[0] != 0xe5 && e[11] != 0x0f && !Bit(e[11], 8) && s.name.Text() !in {".", ".."}
          && NameStands(e, s.name, decode) && e[..11] == s.raw && e[11] == s.attributes
          && (Bit(e[11], 0x10) <==> s.DirSlot?)
          && 0x1_0000 * Short(e, 20) + Short(e, 26) == s.first
          && Long(e, 28) == if s.DirSlot? then s.size else |s.content|)
  }

  // ---------------------------------------------------------------- the reader sees the same

  lemma {:induction false} SpelledIsRead(field: Bytes, text: string, decode: Byte -> char)
    requires Spells(field, text, decode)
    ensures TrimRight(Decoded(field, decode)) == text
    decreases |field|
  {
    var all := Decoded(field, decode);
    if |text| == |field| {
      assert all == text;
    } else {
      var front := field[..|field| - 1];
      assert all[..|field| - 1] == Decoded(front, decode);
      SpelledIsRead(front, text, decode);
    }
  }

  /** Whatever stands in the name field, the reader's name is the one its author meant. */
  lemma NameIsRead(e: Entry32, n: Name, decode: Byte -> char)
    requires NameStands(e, n, decode)
    ensures ShortName(e[..11], decode) == n.Text()
  {
    hide TrimRight, Decoded;
    assert e[..11][..8] == e[..8] && e[..11][8..] == e[8..11];
    SpelledIsRead(e[..8], n.base, decode);
    SpelledIsRead(e[8..11], n.ext, decode);
    assert n.base + "" == n.base;
  }

  lemma LittleIsShort(e: Bytes, at: nat)
    requires at + 2 <= |e|
    ensures Little(e[at..at + 2]) == Short(e, at)
  {
    var b := e[at..at + 2];
    assert b[1..] == [b[1]] && b[1..][1..] == [];
    assert Little(b[1..]) == b[1];
  }

  lemma LittleIsLong(e: Bytes, at: nat)
    requires at + 4 <= |e|
    ensures Little(e[at..at + 4]) == Long(e, at)
  {
    LittleIsShort(e, at + 2);
    var b := e[at..at + 4];
    assert b[1..][1..] == e[at + 2..at + 4];
    assert Little(b[1..]) == (b[1] as int) + 0x100 * Short(e, at + 2);
  }

  /** The reader skips what is passed and decodes the rest to name, attributes, first cluster and size. */
  lemma EntryIsRead(e: Entry32, s: Slot, decode: Byte -> char, path: string)
    requires EntryHolds(e, s, decode)
    ensures e[0] != 0 && (s.Ignored? <==> Skipped(e, decode))
    ensures !s.Ignored? ==> ShortName(e[..11], decode) == s.name.Text()
    ensures !s.Ignored? ==>
      MemberOf(e, path) == Member(path, s.raw, if s.DirSlot? then s.size else |s.content|, s.first, s.attributes, s.DirSlot?)
  {
    hide ShortName, NameStands, Little;
    if s.Ignored? {
      if n :| NameStands(e, n, decode) && n.Text() in {".", ".."} {
        NameIsRead(e, n, decode);
      }
    } else {
      NameIsRead(e, s.name, decode);
      LittleIsShort(e, 20);
      LittleIsShort(e, 26);
      LittleIsLong(e, 28);
    }
  }

  // ---------------------------------------------------------------- padded names

  /** The text in the bytes of an encoding, padded with blanks. */
  function Padded(text: string, n: nat, encode: char -> Byte): (field: Bytes)
    requires |text| <= n
    ensures |field| == n
  { seq(n, i requires 0 <= i < n => if i < |text| then encode(text[i]) else 0x20) }

  predicate Encodes(encode: char -> Byte, decode: Byte -> char, text: string) {
    decode(0x20) == ' ' && forall i :: 0 <= i < |text| ==> decode(encode(text[i])) == text[i]
  }

  /** Eight bytes of base and three of extension are listed as the base, or with a dot between the two. */
  lemma PaddedNameIsListed(base: string, ext: string, encode: char -> Byte, decode: Byte -> char)
    requires 1 <= |base| <= 8 && |ext| <= 3 && Encodes(encode, decode, base) && Encodes(encode, decode, ext)
    requires !IsSpace(base[|base| - 1]) && (ext != "" ==> !IsSpace(ext[|ext| - 1]))
    ensures ShortName(Padded(base, 8, encode) + Padded(ext, 3, encode), decode)
            == if ext == "" then base else base + "." + ext
  {
    hide ShortName;
    var rest: Bytes := seq(21, _ => 0);
    var e: Entry32 := Padded(base, 8, encode) + Padded(ext, 3, encode) + rest;
    assert e[..8] == Padded(base, 8, encode) && e[8..11] == Padded(ext, 3, encode);
    assert e[..11] == Padded(base, 8, encode) + Padded(ext, 3, encode);
    NameIsRead(e, Name(base, ext), decode);
  }

  /** Blanks are blank, and the visible characters of ASCII are not. */
  lemma VisibleIsNoBlank(c: char)
    ensures IsSpace(' ') && ('!' <= c <= '~' ==> !IsSpace(c))
  {}
}
