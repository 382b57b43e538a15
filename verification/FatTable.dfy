/**
  File allocation table entries (src/rab/analysis.py, `FATAnalyzer._fat_entry`), together with the
  table layout of the Microsoft FAT specification (version 1.03, "FAT Data Structure") that the
  reader has to undo. A 12-bit entry shares a byte with its neighbour, so a write must merge nibbles.
*/
module FatTable {
  import opened Common

  datatype Kind = Fat12 | Fat16 | Fat32

  /** Number of distinct values an entry can hold. */
  function Modulus(kind: Kind): nat {
    match kind
    case Fat12 => 0x1000
    case Fat16 => 0x1_0000
    case Fat32 => 0x1000_0000
  }

  /** Smallest value that marks the end of a cluster chain. */
  function EndOfChain(kind: Kind): nat {
    match kind
    case Fat12 => 0xff8
    case Fat16 => 0xfff8
    case Fat32 => 0x0fff_fff8
  }

  /** Position of the first byte that holds part of the entry of a cluster. */
  function EntryOffset(cluster: nat, kind: Kind): nat {
    match kind
    case Fat12 => cluster + cluster / 2
    case Fat16 => 2 * cluster
    case Fat32 => 4 * cluster
  }

  function EntryWidth(kind: Kind): nat {
    if kind == Fat32 then 4 else 2
  }

  predicate HasEntry(table: Bytes, cluster: nat, kind: Kind) {
    EntryOffset(cluster, kind) + EntryWidth(kind) <= |table|
  }

  /** The entry of a cluster; None is the source's MalformedInput for an entry outside the table. */
  function Entry(table: Bytes, cluster: nat, kind: Kind): (r: Option<nat>)
    ensures r.Some? <==> HasEntry(table, cluster, kind)
    ensures r.Some? ==> r.value < Modulus(kind)
  {
    if !HasEntry(table, cluster, kind) then None
    else
      var o := EntryOffset(cluster, kind);
      match kind
      case Fat12 =>
        var value := Word(table[o], table[o + 1]);
        Some(if cluster % 2 == 1 then value / 16 else value % 0x1000)
      case Fat16 => Some(Word(table[o], table[o + 1]))
      case Fat32 =>
        Some((Word(table[o], table[o + 1]) + 0x1_0000 * Word(table[o + 2], table[o + 3])) % 0x1000_0000)
  }

  /** Two bytes read little-endian. */
  function Word(low: int, high: int): int {
    low + 256 * high
  }

  /** Stores a value the way the on-disk format does: neighbouring nibbles and the reserved
      top four bits of a 32-bit entry keep their contents. */
  function SetEntry(table: Bytes, cluster: nat, value: nat, kind: Kind): (r: Bytes)
    requires HasEntry(table, cluster, kind)
    ensures |r| == |table|
  {
    var o := EntryOffset(cluster, kind);
    match kind
    case Fat12 =>
      if cluster % 2 == 1 then
        table[o := table[o] % 16 + 16 * (value % 16)][o + 1 := value / 16 % 256]
      else
        table[o := value % 256][o + 1 := 16 * (table[o + 1] / 16) + value / 256 % 16]
    case Fat16 => table[o := value % 256][o + 1 := value / 256 % 256]
    case Fat32 =>
      table[o := value % 256][o + 1 := value / 256 % 256][o + 2 := value / 256 / 256 % 256]
           [o + 3 := 16 * (table[o + 3] / 16) + value / 256 / 256 / 256 % 16]
  }

  /** Reading back a written entry gives the value reduced to the entry's width. */
  lemma ReadAfterWrite(table: Bytes, cluster: nat, value: nat, kind: Kind)
    requires HasEntry(table, cluster, kind)
    ensures Entry(SetEntry(table, cluster, value, kind), cluster, kind) == Some(value % Modulus(kind))
  {
    var o := EntryOffset(cluster, kind);
    match kind {
      case Fat12 =>
        if cluster % 2 == 1 {
          SplitOdd(value, table[o] % 16);
        } else {
          SplitEven(value, table[o + 1] / 16);
        }
      case Fat16 => SplitBytes(value);
      case Fat32 => SplitWord(value, table[o + 3] / 16);
    }
  }

  lemma Remainder(x: int, m: int, k: int, r: int)
    requires 0 <= r < m && x == m * k + r
    ensures x % m == r && x / m == k
  {
    var q := x / m;
    assert x == m * q + x % m;
    assert m * (k - q) == x % m - r && m * (q - k) == r - x % m;
    if k - q >= 1 {
      AtLeastOnce(m, k - q);
    } else if k - q <= -1 {
      AtLeastOnce(m, q - k);
    }
  }

  lemma AtLeastOnce(m: int, times: int)
    requires 0 < m && 1 <= times
    ensures m * times >= m
  {}

  lemma SplitOdd(value: nat, kept: int)
    requires 0 <= kept < 16
    ensures Word(kept + 16 * (value % 16), value / 16 % 256) / 16 == value % 0x1000
  {
    var q := value / 16;
    Remainder(value, 0x1000, q / 256, value % 16 + 16 * (q % 256));
    Remainder(Word(kept + 16 * (value % 16), q % 256), 16, value % 16 + 16 * (q % 256), kept);
  }

  lemma SplitEven(value: nat, kept: int)
    ensures Word(value % 256, 16 * kept + value / 256 % 16) % 0x1000 == value % 0x1000
  {
    var q := value / 256;
    Remainder(value, 0x1000, q / 16, value % 256 + 256 * (q % 16));
    Remainder(Word(value % 256, 16 * kept + q % 16), 0x1000, kept, value % 256 + 256 * (q % 16));
  }

  lemma SplitBytes(value: nat)
    ensures Word(value % 256, value / 256 % 256) == value % 0x1_0000
  {
    var q := value / 256;
    Remainder(value, 0x1_0000, q / 256, value % 256 + 256 * (q % 256));
  }

  lemma SplitWord(value: nat, kept: int)
    ensures (Word(value % 256, value / 256 % 256)
             + 0x1_0000 * Word(value / 256 / 256 % 256, 16 * kept + value / 256 / 256 / 256 % 16)) % 0x1000_0000
            == value % 0x1000_0000
  {
    var a := value / 256;
    var b := a / 256;
    var c := b / 256;
    var r := value % 256 + 256 * (a % 256) + 0x1_0000 * (b % 256) + 0x100_0000 * (c % 16);
    Remainder(value, 0x1000_0000, c / 16, r);
    Remainder(Word(value % 256, a % 256) + 0x1_0000 * Word(b % 256, 16 * kept + c % 16), 0x1000_0000, kept, r);
  }

  /** Writing one entry leaves the entry of every other cluster as it was, in a table of any length. */
  lemma WriteIsLocal(table: Bytes, cluster: nat, value: nat, other: nat, kind: Kind)
    requires HasEntry(table, cluster, kind) && other != cluster
    ensures Entry(SetEntry(table, cluster, value, kind), other, kind) == Entry(table, other, kind)
  {
    if kind == Fat12 && other / 2 == cluster / 2 {
      SharedByte(table, cluster, value, other);
    }
  }

  /** Two 12-bit entries that share their middle byte do not disturb each other. */
  lemma SharedByte(table: Bytes, cluster: nat, value: nat, other: nat)
    requires HasEntry(table, cluster, Fat12) && other != cluster && other / 2 == cluster / 2
    ensures Entry(SetEntry(table, cluster, value, Fat12), other, Fat12) == Entry(table, other, Fat12)
  {
    var o := EntryOffset(cluster, Fat12);
    var after := SetEntry(table, cluster, value, Fat12);
    if cluster % 2 == 1 {
      assert other == cluster - 1 && EntryOffset(other, Fat12) == o - 1;
      assert after[o] % 16 == table[o] % 16;
      KeepLow(table[o - 1], table[o], after[o]);
    } else {
      assert other == cluster + 1 && EntryOffset(other, Fat12) == o + 1;
      assert after[o + 1] / 16 == table[o + 1] / 16;
      if HasEntry(table, other, Fat12) {
        KeepHigh(table[o + 1], after[o + 1], table[o + 2]);
      }
    }
  }

  lemma KeepLow(first: Byte, shared: Byte, changed: Byte)
    requires changed % 16 == shared % 16
    ensures Word(first, changed) % 0x1000 == Word(first, shared) % 0x1000
  {
    var n := shared % 16;
    Remainder(Word(first, changed), 0x1000, changed / 16, first + 256 * n);
    Remainder(Word(first, shared), 0x1000, shared / 16, first + 256 * n);
  }

  lemma KeepHigh(shared: Byte, changed: Byte, last: Byte)
    requires changed / 16 == shared / 16
    ensures Word(changed, last) / 16 == Word(shared, last) / 16
  {
    Remainder(Word(changed, last), 16, changed / 16 + 16 * last, changed % 16);
    Remainder(Word(shared, last), 16, shared / 16 + 16 * last, shared % 16);
  }
}
