/**
  Boot sectors as the Microsoft FAT specification (version 1.03, section "Boot Sector and BPB Structure") lays them out,
  written byte by byte from a geometry, and the places that the geometry gives to tables, root directory and clusters.
  The reader finds the geometry again and looks for everything at these places.
*/
module FatBoot {
  import opened Common
  import opened AnalysisTypes
  import opened FatTable
  import opened FatChain
  import opened FatDirectory
  import opened FatEntry
  import opened FatRoundTrip

  /** A volume in sectors. `rootSectors` is the size of the fixed root directory, which FAT32 does not have. */
  datatype Geometry = Geometry(kind: Kind, bytesPerSector: nat, sectorsPerCluster: nat, reserved: nat, fats: nat,
                               rootEntries: nat, rootSectors: nat, sectorsPerFat: nat, total: nat, rootCluster: nat)
  {
    predicate Sound() {
      && bytesPerSector in {512, 1024, 2048, 4096} && sectorsPerCluster in {1, 2, 4, 8, 16, 32, 64, 128}
      && 1 <= reserved < 0x1_0000 && 1 <= fats < 0x100 && rootEntries < 0x1_0000
      && 1 <= total < 0x1_0000_0000 && rootCluster < 0x1_0000_0000
      && 32 * rootEntries <= rootSectors * bytesPerSector < 32 * rootEntries + bytesPerSector
      && if kind == Fat32 then rootEntries == 0 && 1 <= sectorsPerFat < 0x1_0000_0000
         else 1 <= rootEntries && 1 <= sectorsPerFat < 0x1_0000 && rootCluster == 0
    }

    /** The first sector behind the tables, and the first one behind the fixed root directory. */
    function RootSector(): nat { reserved + fats * sectorsPerFat }

    function DataSector(): nat { RootSector() + rootSectors }

    /** The first sector of a cluster; clusters are counted from 2. */
    function SectorOf(cluster: nat): nat
      requires 2 <= cluster
    { DataSector() + sectorsPerCluster * (cluster - 2) }
  }

  // ---------------------------------------------------------------- the boot sector

  /** The k-th byte of a number, the least significant first. */
  function ByteOf(n: nat, k: nat): Byte { if k == 0 then n % 0x100 else ByteOf(n / 0x100, k - 1) }

  /** "FAT12", "FAT16" or "FAT32", padded with blanks. */
  function LabelOf(kind: Kind): (text: Bytes)
    ensures |text| == 8
  {
    match kind
    case Fat12 => [0x46, 0x41, 0x54, 0x31, 0x32, 0x20, 0x20, 0x20]
    case Fat16 => [0x46, 0x41, 0x54, 0x31, 0x36, 0x20, 0x20, 0x20]
    case Fat32 => [0x46, 0x41, 0x54, 0x33, 0x32, 0x20, 0x20, 0x20]
  }

  /** A small volume has its number of sectors in two bytes, any other one in four. */
  function Total16(g: Geometry): nat { if g.kind != Fat32 && g.total < 0x1_0000 then g.total else 0 }

  function Total32(g: Geometry): nat { if g.kind != Fat32 && g.total < 0x1_0000 then 0 else g.total }

  /** Byte `i` of the boot sector; those that say nothing about the geometry keep what was there. */
  function BootByte(g: Geometry, i: nat, before: Byte): Byte
    requires g.Sound()
  {
    match i
    case 11 => ByteOf(g.bytesPerSector, 0)
    case 12 => ByteOf(g.bytesPerSector, 1)
    case 13 => g.sectorsPerCluster
    case 14 => ByteOf(g.reserved, 0)
    case 15 => ByteOf(g.reserved, 1)
    case 16 => g.fats
    case 17 => ByteOf(g.rootEntries, 0)
    case 18 => ByteOf(g.rootEntries, 1)
    case 19 => ByteOf(Total16(g), 0)
    case 20 => ByteOf(Total16(g), 1)
    case 32 => ByteOf(Total32(g), 0)
    case 33 => ByteOf(Total32(g), 1)
    case 34 => ByteOf(Total32(g), 2)
    case 35 => ByteOf(Total32(g), 3)
    case 510 => 0x55
    case 511 => 0xaa
    case _ => if g.kind == Fat32 then Byte32(g, i, before) else Byte16(g, i, before)
  }

  /** The fields that only FAT12 and FAT16 have at these places. */
  function Byte16(g: Geometry, i: nat, before: Byte): Byte {
    match i
    case 22 => ByteOf(g.sectorsPerFat, 0)
    case 23 => ByteOf(g.sectorsPerFat, 1)
    case _ => if 54 <= i < 62 then LabelOf(g.kind)[i - 54] else before
  }

  /** The fields of FAT32. */
  function Byte32(g: Geometry, i: nat, before: Byte): Byte {
    match i
    case 22 => 0
    case 23 => 0
    case 36 => ByteOf(g.sectorsPerFat, 0)
    case 37 => ByteOf(g.sectorsPerFat, 1)
    case 38 => ByteOf(g.sectorsPerFat, 2)
    case 39 => ByteOf(g.sectorsPerFat, 3)
    case 44 => ByteOf(g.rootCluster, 0)
    case 45 => ByteOf(g.rootCluster, 1)
    case 46 => ByteOf(g.rootCluster, 2)
    case 47 => ByteOf(g.rootCluster, 3)
    case _ => if 82 <= i < 90 then LabelOf(g.kind)[i - 82] else before
  }

  /** The image with the boot sector of a geometry. */
  function Formatted(image: Bytes, g: Geometry): (r: Bytes)
    requires 512 <= |image| && g.Sound()
    ensures |r| == |image|
  { seq(|image|, i requires 0 <= i < |image| => if i < 512 then BootByte(g, i, image[i]) else image[i]) }

  /** What the reader must make of it, in bytes. */
  function Geography(g: Geometry): Bpb {
    Bpb(g.bytesPerSector, g.sectorsPerCluster, g.reserved, g.fats, g.rootEntries, g.sectorsPerFat,
        g.bytesPerSector * g.DataSector(), g.bytesPerSector * g.RootSector(), g.rootCluster, g.kind)
  }

  lemma TwoBytesOf(n: nat)
    requires n < 0x1_0000
    ensures (ByteOf(n, 0) as int) + 0x100 * (ByteOf(n, 1) as int) == n
  {}

  lemma FourBytesOf(n: nat)
    requires n < 0x1_0000_0000
    ensures (ByteOf(n, 0) as int) + 0x100 * (ByteOf(n, 1) as int)
            + 0x1_0000 * ((ByteOf(n, 2) as int) + 0x100 * (ByteOf(n, 3) as int)) == n
  {
    var low, high := n % 0x1_0000, n / 0x1_0000;
    TwoBytesOf(low);
    TwoBytesOf(high);
    LowBytes(n);
  }

  lemma LowBytes(n: nat)
    ensures ByteOf(n, 0) == ByteOf(n % 0x1_0000, 0) && ByteOf(n, 1) == ByteOf(n % 0x1_0000, 1)
    ensures ByteOf(n, 2) == ByteOf(n / 0x1_0000, 0) && ByteOf(n, 3) == ByteOf(n / 0x1_0000, 1)
  {
    assert n / 0x100 / 0x100 == n / 0x1_0000;
    assert n % 0x1_0000 / 0x100 == n / 0x100 % 0x100;
  }

  /** The fields every kind has. */
  lemma CommonFields(image: Bytes, g: Geometry)
    requires 512 <= |image| && g.Sound()
    ensures var b := Formatted(image, g);
      && Little(b[11..13]) == g.bytesPerSector && b[13] == g.sectorsPerCluster && Little(b[14..16]) == g.reserved
      && b[16] == g.fats && Little(b[17..19]) == g.rootEntries && b[510..512] == [0x55, 0xaa]
  {
    hide Little, ByteOf, Geometry.Sound, Byte16, Byte32;
    var b := Formatted(image, g);
    InRange(g);
    LittleIsShort(b, 11);
    LittleIsShort(b, 14);
    LittleIsShort(b, 17);
    TwoBytesOf(g.bytesPerSector);
    TwoBytesOf(g.reserved);
    TwoBytesOf(g.rootEntries);
  }

  lemma InRange(g: Geometry)
    requires g.Sound()
    ensures g.bytesPerSector < 0x1_0000 && g.reserved < 0x1_0000 && g.rootEntries < 0x1_0000
    ensures Total16(g) < 0x1_0000 && Total32(g) < 0x1_0000_0000 && g.sectorsPerFat < 0x1_0000_0000
    ensures g.rootCluster < 0x1_0000_0000 && (g.kind != Fat32 ==> g.sectorsPerFat < 0x1_0000)
  {}

  lemma TotalFields(image: Bytes, g: Geometry)
    requires 512 <= |image| && g.Sound()
    ensures var b := Formatted(image, g);
      OrElse(Little(b[19..21]), Little(b[32..36])) == g.total
  {
    hide Little, ByteOf, Geometry.Sound, Byte16, Byte32;
    var b := Formatted(image, g);
    InRange(g);
    LittleIsShort(b, 19);
    LittleIsLong(b, 32);
    TwoBytesOf(Total16(g));
    FourBytesOf(Total32(g));
    assert g.total != 0 by {
      TotalIsPositive(g);
    }
  }

  lemma TotalIsPositive(g: Geometry)
    requires g.Sound()
    ensures 0 < g.total && 0 < g.sectorsPerFat
  {}

  /** The size of a table, the root cluster and the label. */
  lemma KindFields(image: Bytes, g: Geometry)
    requires 512 <= |image| && g.Sound()
    ensures var b := Formatted(image, g);
      && OrElse(Little(b[22..24]), Little(b[36..40])) == g.sectorsPerFat
      && (if g.kind == Fat32 then b[82..90] else b[54..62]) == LabelOf(g.kind)
      && (g.kind == Fat32 ==> Little(b[44..48]) == g.rootCluster)
  {
    hide Little, Formatted, Geometry.Sound, LabelOf;
    if g.kind == Fat32 {
      Fields32(image, g);
      RootField(image, g);
    } else {
      Fields16(image, g);
    }
  }

  lemma Fields16(image: Bytes, g: Geometry)
    requires 512 <= |image| && g.Sound() && g.kind != Fat32
    ensures var b := Formatted(image, g);
      && OrElse(Little(b[22..24]), Little(b[36..40])) == g.sectorsPerFat && b[54..62] == LabelOf(g.kind)
  {
    hide Little, ByteOf, Geometry.Sound, LabelOf, Byte32;
    var b := Formatted(image, g);
    InRange(g);
    TotalIsPositive(g);
    LittleIsShort(b, 22);
    TwoBytesOf(g.sectorsPerFat);
    LabelStands(image, g, 54);
  }

  lemma Fields32(image: Bytes, g: Geometry)
    requires 512 <= |image| && g.Sound() && g.kind == Fat32
    ensures var b := Formatted(image, g);
      && OrElse(Little(b[22..24]), Little(b[36..40])) == g.sectorsPerFat && b[82..90] == LabelOf(g.kind)
  {
    hide Little, ByteOf, Geometry.Sound, LabelOf, Byte16;
    var b := Formatted(image, g);
    InRange(g);
    LittleIsShort(b, 22);
    LittleIsLong(b, 36);
    FourBytesOf(g.sectorsPerFat);
    LabelStands(image, g, 82);
  }

  lemma RootField(image: Bytes, g: Geometry)
    requires 512 <= |image| && g.Sound() && g.kind == Fat32
    ensures Little(Formatted(image, g)[44..48]) == g.rootCluster
  {
    hide Little, ByteOf, Geometry.Sound, LabelOf, Byte16;
    InRange(g);
    LittleIsLong(Formatted(image, g), 44);
    FourBytesOf(g.rootCluster);
  }

  lemma LabelStands(image: Bytes, g: Geometry, at: nat)
    requires 512 <= |image| && g.Sound() && at == if g.kind == Fat32 then 82 else 54
    ensures Formatted(image, g)[at..at + 8] == LabelOf(g.kind)
  {
    hide ByteOf, Geometry.Sound, LabelOf;
    forall i | 0 <= i < 8
      ensures Formatted(image, g)[at + i] == LabelOf(g.kind)[i]
    {}
  }

  lemma LabelIsRead(kind: Kind)
    ensures LabelKind(LabelOf(kind)) == Some(kind)
  {
    var text := LabelOf(kind);
    assert text[..3] == [0x46, 0x41, 0x54] && text[3..5] == [text[3], text[4]];
  }

  lemma RootIsRounded(g: Geometry)
    requires g.Sound()
    ensures RootSectors(g.rootEntries, g.bytesPerSector) == g.rootSectors
  {}

  /** Whatever else the sector holds, the reader recognises the geometry written into it. */
  lemma FormatIsRead(image: Bytes, g: Geometry)
    requires 512 <= |image| && g.Sound()
    ensures ReadBpb(Formatted(image, g)) == Some(Geography(g))
  {
    hide Little, LabelOf, LabelKind, RootSectors, Formatted, KindByCount;
    CommonFields(image, g);
    TotalFields(image, g);
    KindFields(image, g);
    LabelIsRead(g.kind);
    RootIsRounded(g);
    Commute(g.DataSector(), g.bytesPerSector);
    Commute(g.RootSector(), g.bytesPerSector);
  }

  lemma Commute(a: nat, b: nat)
    ensures Product(a, b) == b * a
  {}

  // ---------------------------------------------------------------- where everything is

  /** The bytes from one sector on. */
  function Sectors(image: Bytes, g: Geometry, first: nat, length: nat): Bytes
    requires g.bytesPerSector * first + length <= |image|
  { image[g.bytesPerSector * first..g.bytesPerSector * first + length] }

  /** The reader looks for the table and the fixed root directory in the sectors of the geometry. */
  lemma FrontIsSpecified(image: Bytes, g: Geometry)
    requires g.Sound() && g.bytesPerSector * g.DataSector() <= |image|
    ensures g.bytesPerSector * g.reserved + g.bytesPerSector * g.sectorsPerFat <= g.bytesPerSector * g.RootSector()
            && g.bytesPerSector * g.RootSector() + 32 * g.rootEntries <= g.bytesPerSector * g.DataSector()
    ensures var v := Volume(image, Geography(g));
      && v.Table() == Sectors(image, g, g.reserved, g.bytesPerSector * g.sectorsPerFat)
      && RootData(v) == Sectors(image, g, g.RootSector(), 32 * g.rootEntries)
  {
    var v := Volume(image, Geography(g));
    TablesFit(g);
    assert v.bpb.TableStart() == g.bytesPerSector * g.reserved && v.bpb.TableSize() == g.bytesPerSector * g.sectorsPerFat;
    hide Geometry.Sound, Geometry.DataSector, Geometry.RootSector, Bpb.TableStart, Bpb.TableSize;
  }

  /** It looks for a cluster in the sectors that its number, counted from 2, gives. */
  lemma ClusterIsSpecified(image: Bytes, g: Geometry, cluster: nat)
    requires 2 <= cluster
    ensures var v, size := Volume(image, Geography(g)), g.bytesPerSector * g.sectorsPerCluster;
      && v.bpb.ClusterSize() == size
      && (v.Inside(cluster) <==> g.bytesPerSector * g.SectorOf(cluster) + size <= |image|)
      && (v.Inside(cluster) ==> v.Cluster(cluster) == Sectors(image, g, g.SectorOf(cluster), size))
  {
    hide Geometry.SectorOf, Geometry.DataSector;
    ClusterPlace(g, cluster);
  }

  lemma ClusterPlace(g: Geometry, cluster: nat)
    requires 2 <= cluster
    ensures g.bytesPerSector * g.SectorOf(cluster)
            == g.bytesPerSector * g.DataSector() + (cluster - 2) * (g.bytesPerSector * g.sectorsPerCluster)
  {
    var b, s, k := g.bytesPerSector, g.sectorsPerCluster, cluster - 2;
    assert b * (g.DataSector() + s * k) == b * g.DataSector() + b * (s * k);
    assert b * (s * k) == k * (b * s);
  }

  lemma TablesFit(g: Geometry)
    requires g.Sound()
    ensures g.bytesPerSector * g.reserved + g.bytesPerSector * g.sectorsPerFat <= g.bytesPerSector * g.RootSector()
    ensures g.bytesPerSector * g.RootSector() + 32 * g.rootEntries <= g.bytesPerSector * g.DataSector()
  {
    var b := g.bytesPerSector;
    Scale(1, g.fats, g.sectorsPerFat);
    Scale(g.reserved + g.sectorsPerFat, g.RootSector(), b);
    assert b * g.DataSector() == b * g.RootSector() + b * g.rootSectors;
  }

  /** The table entry of a cluster, from the bytes at its place: two bytes for FAT16, four without their top bits for
      FAT32, and one and a half for FAT12, where the odd entries start in the middle of a byte. */
  lemma EntryIsSpecified(table: Bytes, cluster: nat)
    ensures Entry(table, cluster, Fat16)
            == if 2 * cluster + 2 <= |table| then Some(Short(table, 2 * cluster)) else None
    ensures Entry(table, cluster, Fat32)
            == if 4 * cluster + 4 <= |table| then Some(Long(table, 4 * cluster) % 0x1000_0000) else None
    ensures Entry(table, 2 * cluster, Fat12)
            == if 3 * cluster + 2 <= |table|
               then Some((table[3 * cluster] as int) + 0x100 * (table[3 * cluster + 1] as int % 0x10)) else None
    ensures Entry(table, 2 * cluster + 1, Fat12)
            == if 3 * cluster + 3 <= |table|
               then Some(table[3 * cluster + 1] as int / 0x10 + 0x10 * (table[3 * cluster + 2] as int)) else None
  {
    hide Entry;
    Even12(table, cluster);
    Odd12(table, cluster);
    EntryOf16(table, cluster);
    EntryOf32(table, cluster);
  }

  lemma EntryOf16(table: Bytes, cluster: nat)
    ensures Entry(table, cluster, Fat16)
            == if 2 * cluster + 2 <= |table| then Some(Short(table, 2 * cluster)) else None
  {}

  lemma EntryOf32(table: Bytes, cluster: nat)
    ensures Entry(table, cluster, Fat32)
            == if 4 * cluster + 4 <= |table| then Some(Long(table, 4 * cluster) % 0x1000_0000) else None
  {}

  lemma Even12(table: Bytes, cluster: nat)
    ensures Entry(table, 2 * cluster, Fat12)
            == if 3 * cluster + 2 <= |table|
               then Some((table[3 * cluster] as int) + 0x100 * (table[3 * cluster + 1] as int % 0x10)) else None
  {
    assert EntryOffset(2 * cluster, Fat12) == 3 * cluster && 2 * cluster % 2 == 0;
    if 3 * cluster + 2 <= |table| {
      var low, high := table[3 * cluster] as int, table[3 * cluster + 1] as int;
      Remainder(Word(low, high), 0x1000, high / 0x10, low + 0x100 * (high % 0x10));
    }
  }

  lemma Odd12(table: Bytes, cluster: nat)
    ensures Entry(table, 2 * cluster + 1, Fat12)
            == if 3 * cluster + 3 <= |table|
               then Some(table[3 * cluster + 1] as int / 0x10 + 0x10 * (table[3 * cluster + 2] as int)) else None
  {
    assert EntryOffset(2 * cluster + 1, Fat12) == 3 * cluster + 1 && (2 * cluster + 1) % 2 == 1;
    if 3 * cluster + 3 <= |table| {
      var low, high := table[3 * cluster + 1] as int, table[3 * cluster + 2] as int;
      Remainder(Word(low, high), 0x10, low / 0x10 + 0x10 * high, low % 0x10);
    }
  }

  /** The values of an entry at which a chain goes on. */
  lemma MarksAreSpecified(v: Volume, value: nat)
    requires value < Modulus(v.bpb.kind)
    ensures !v.Stops(value) <==> 2 <= value <= match v.bpb.kind case Fat12 => 0xff7 case Fat16 => 0xfff7 case Fat32 => 0xfff_fff7
  {}

  // ---------------------------------------------------------------- from the geometry to the listing

  /** Round trip on a formatted image: whatever tree is laid out at the places of the geometry comes back, names, order
      and bytes. */
  lemma FormattedRoundTrip(image: Bytes, g: Geometry, lim: Limits, decode: Byte -> char, slots: seq<Slot>, rootChain: seq<nat>)
    requires 512 <= |image| && g.Sound()
    requires var c := Context(Volume(Formatted(image, g), Geography(g)), lim, decode);
      VolumeHolds(c, slots, rootChain) && |Expected(slots, [])| <= lim.maxFiles
    ensures var disk, expected := Formatted(image, g), Expected(slots, []);
      && ListImage(disk, lim, decode) == Ok(Members(expected))
      && forall i :: 0 <= i < |expected| && expected[i].content.Some? ==>
           Materialize(Volume(disk, Geography(g)), lim, expected[i].member) == Ok(expected[i].content.value)
  {
    hide ReadBpb, Formatted, Geography, Expected, VolumeHolds, Materialize, ListImage;
    FormatIsRead(image, g);
    RoundTrip(Formatted(image, g), lim, decode, slots, rootChain);
  }
}
