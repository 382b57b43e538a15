/**
  The boot sector and cluster chains of a FAT volume (src/rab/analysis.py, `FATAnalyzer._bpb` and
  `FATAnalyzer._chain`). Images are arbitrary bytes: tables may loop, cross-link or point outside.
*/
module FatChain {
  import opened Common
  import opened AnalysisTypes
  import opened FatTable

  datatype Bpb = Bpb(bytesPerSector: nat, sectorsPerCluster: nat, reserved: nat, fats: nat, rootEntries: nat,
                     sectorsPerFat: nat, dataOffset: nat, rootOffset: nat, rootCluster: nat, kind: Kind)
  {
    function ClusterSize(): nat { bytesPerSector * sectorsPerCluster }

    function TableStart(): nat { reserved * bytesPerSector }

    function TableSize(): nat { sectorsPerFat * bytesPerSector }
  }

  /** An image read through its boot sector. */
  datatype Volume = Volume(image: Bytes, bpb: Bpb) {
    function Table(): Bytes { Slice(image, bpb.TableStart(), bpb.TableStart() + bpb.TableSize()) }

    function Next(cluster: nat): Option<nat> { Entry(Table(), cluster, bpb.kind) }

    function ClusterOffset(cluster: nat): nat
      requires 2 <= cluster
    { bpb.dataOffset + (cluster - 2) * bpb.ClusterSize() }

    predicate Inside(cluster: nat)
      requires 2 <= cluster
    { ClusterOffset(cluster) + bpb.ClusterSize() <= |image| }

    function Cluster(cluster: nat): (data: Bytes)
      requires 2 <= cluster && Inside(cluster)
      ensures |data| == bpb.ClusterSize()
    { image[ClusterOffset(cluster)..ClusterOffset(cluster) + bpb.ClusterSize()] }

    /** A cluster number at which a chain stops: free, reserved, bad or end of chain. */
    predicate Stops(cluster: nat) { cluster < 2 || EndOfChain(bpb.kind) <= cluster }
  }

  /** The kind named by the label of the boot sector, when it names one. */
  function LabelKind(text: Bytes): Option<Kind> {
    if |text| < 5 || text[..3] != [0x46, 0x41, 0x54] then None
    else if text[3..5] == [0x31, 0x32] then Some(Fat12)
    else if text[3..5] == [0x31, 0x36] then Some(Fat16)
    else if text[3..5] == [0x33, 0x32] then Some(Fat32)
    else None
  }

  function KindByCount(clusters: int): Kind {
    if clusters < 4085 then Fat12 else if clusters < 65525 then Fat16 else Fat32
  }

  function OrElse(a: nat, b: nat): nat { if a != 0 then a else b }

  predicate PowerOfTwoByte(n: nat) { n in {1, 2, 4, 8, 16, 32, 64, 128} }

  function Product(a: nat, b: nat): nat { a * b }

  /** Sectors of the fixed root directory, rounded up. */
  function RootSectors(rootEntries: nat, bps: nat): nat
    requires 0 < bps
  { (rootEntries * 32 + bps - 1) / bps }

  /** The sector at which the tables end. */
  function TablesEnd(reserved: nat, fats: nat, spf: nat): nat { reserved + Product(fats, spf) }

  /** The text of the boot sector that may name the kind. */
  function Label(image: Bytes, rootEntries: nat): Bytes
    requires 512 <= |image|
  { if rootEntries == 0 then image[82..90] else image[54..62] }

  function Described(image: Bytes, bps: nat, spc: nat, reserved: nat, fats: nat, rootEntries: nat, spf: nat,
                     total: nat): Bpb
    requires 512 <= |image| && 0 < bps && 0 < spc
  {
    var root := TablesEnd(reserved, fats, spf);
    var data := root + RootSectors(rootEntries, bps);
    var kind := match LabelKind(Label(image, rootEntries)) case Some(k) => k case None => KindByCount((total - data) / spc);
    Bpb(bps, spc, reserved, fats, rootEntries, spf, Product(data, bps), Product(root, bps),
        if kind == Fat32 then Little(image[44..48]) else 0, kind)
  }

  /** `_bpb`: the volume described by the first sector of an image, or None if it is no FAT volume. */
  function ReadBpb(image: Bytes): Option<Bpb> {
    if |image| < 512 || image[510..512] != [0x55, 0xaa] then None
    else
      var bps := Little(image[11..13]);
      var spc: nat := image[13];
      var reserved := Little(image[14..16]);
      var fats: nat := image[16];
      var rootEntries := Little(image[17..19]);
      var declared := OrElse(Little(image[19..21]), Little(image[32..36]));
      var spf := OrElse(Little(image[22..24]), Little(image[36..40]));
      var total := if declared == 0 && bps != 0 then |image| / bps else declared;
      if bps !in {512, 1024, 2048, 4096} || !PowerOfTwoByte(spc)
         || reserved == 0 || fats == 0 || total == 0 || spf == 0 then None
      else Some(Described(image, bps, spc, reserved, fats, rootEntries, spf, total))
  }

  /** The number of clusters that the specification determines the kind by, from the fields of an accepted boot sector. */
  function ClusterCount(image: Bytes): int
    requires ReadBpb(image).Some?
  {
    var b := ReadBpb(image).value;
    var declared := OrElse(Little(image[19..21]), Little(image[32..36]));
    var total := if declared == 0 then |image| / b.bytesPerSector else declared;
    (total - (TablesEnd(b.reserved, b.fats, b.sectorsPerFat) + RootSectors(b.rootEntries, b.bytesPerSector))) / b.sectorsPerCluster
  }

  /** The kind is the one of the specification iff the label names no kind or this one. */
  lemma KindIsByCountIff(image: Bytes)
    requires ReadBpb(image).Some?
    ensures var b, count := ReadBpb(image).value, ClusterCount(image);
      var rule := if count < 4085 then Fat12 else if count < 65525 then Fat16 else Fat32;
      b.kind == rule <==> LabelKind(Label(image, b.rootEntries)) in {None, Some(rule)}
  {
    hide Little, LabelKind;
  }

  /** The fields of a boot sector with 100 sectors, one table of one sector, 16 root entries and the label "FAT16". */
  function MislabelledByte(i: nat): Byte {
    match i
    case 12 => 2
    case 13 => 1
    case 14 => 1
    case 16 => 1
    case 17 => 16
    case 19 => 100
    case 22 => 1
    case 54 => 0x46
    case 55 => 0x41
    case 56 => 0x54
    case 57 => 0x31
    case 58 => 0x36
    case 510 => 0x55
    case 511 => 0xaa
    case _ => 0
  }

  function Mislabelled(): (image: Bytes)
    ensures |image| == 512
  { seq(512, i requires 0 <= i < 512 => MislabelledByte(i)) }

  lemma MislabelledFields()
    ensures var image := Mislabelled();
      && Little(image[11..13]) == 512 && image[13] == 1 && Little(image[14..16]) == 1 && image[16] == 1
      && Little(image[17..19]) == 16 && Little(image[19..21]) == 100 && Little(image[22..24]) == 1
      && image[54..62] == [0x46, 0x41, 0x54, 0x31, 0x36, 0, 0, 0] && image[510..512] == [0x55, 0xaa]
  {
    hide Little;
    var image := Mislabelled();
    TwoBytes(image, 11);
    TwoBytes(image, 14);
    TwoBytes(image, 17);
    TwoBytes(image, 19);
    TwoBytes(image, 22);
  }

  lemma NamesFat16()
    ensures LabelKind([0x46, 0x41, 0x54, 0x31, 0x36, 0, 0, 0]) == Some(Fat16)
  {
    var text: Bytes := [0x46, 0x41, 0x54, 0x31, 0x36, 0, 0, 0];
    assert text[..3] == [0x46, 0x41, 0x54] && text[3..5] == [0x31, 0x36];
  }

  /** Its 97 clusters make it FAT12, but it is read as FAT16. */
  lemma LabelWins()
    ensures ReadBpb(Mislabelled()).Some? && ClusterCount(Mislabelled()) == 97 && KindByCount(97) == Fat12
    ensures ReadBpb(Mislabelled()).value.kind == Fat16
  {
    hide Little, Mislabelled, LabelKind;
    MislabelledFields();
    NamesFat16();
  }

  lemma TwoBytes(image: Bytes, at: nat)
    requires at + 2 <= |image|
    ensures Little(image[at..at + 2]) == Word(image[at], image[at + 1])
  {
    var both := image[at..at + 2];
    assert both[0] == image[at] && both[1..] == [image[at + 1]] && both[1..][1..] == [];
    assert Little(both[1..]) == image[at + 1];
  }

  /** An accepted boot sector gives clusters of positive size, puts the table behind the first
      sector, the root directory behind the table and the data behind the root directory. */
  lemma BpbGeometry(image: Bytes)
    requires ReadBpb(image).Some?
    ensures var b := ReadBpb(image).value;
      0 < b.ClusterSize() && 512 <= b.TableStart()
      && b.TableStart() + b.TableSize() <= b.rootOffset
      && b.rootOffset + 32 * b.rootEntries <= b.dataOffset
  {
    var b := ReadBpb(image).value;
    Layout(b.bytesPerSector, b.reserved, b.fats, b.rootEntries, b.sectorsPerFat);
    AtLeastOnce(b.bytesPerSector, b.sectorsPerCluster);
  }

  lemma Layout(bps: nat, reserved: nat, fats: nat, rootEntries: nat, spf: nat)
    requires 512 <= bps && 0 < reserved && 0 < fats
    ensures var root := TablesEnd(reserved, fats, spf);
      512 <= reserved * bps
      && reserved * bps + spf * bps <= Product(root, bps)
      && Product(root, bps) + 32 * rootEntries <= Product(root + RootSectors(rootEntries, bps), bps)
  {
    var root := TablesEnd(reserved, fats, spf);
    Scale(1, reserved, bps);
    Scale(1, fats, spf);
    Scale(reserved + spf, root, bps);
    var sectors := RootSectors(rootEntries, bps);
    assert Product(root + sectors, bps) == Product(root, bps) + sectors * bps;
    assert (rootEntries * 32 + bps - 1) == bps * sectors + (rootEntries * 32 + bps - 1) % bps;
  }

  lemma Scale(a: nat, b: nat, m: nat)
    requires a <= b
    ensures a * m <= b * m
  {}

  // ---------------------------------------------------------------- chains

  /** The clusters visited from `current` when `path` has been visited already. */
  function Follow(v: Volume, lim: Limits, current: nat, path: seq<nat>): Result<seq<nat>, Failure>
    requires current >= 2 || path != []
    decreases lim.maxMembers - |path|
  {
    if v.Stops(current) then Ok(path)
    else if current in path || lim.maxMembers <= |path| || !v.Inside(current) then Err(MalformedInput)
    else
      var longer := path + [current];
      if 1 < |longer| && lim.maxSingleBytes < |longer| * v.bpb.ClusterSize() then Err(LimitReached(MaxSingleBytes))
      else
        match v.Next(current)
        case None => Err(MalformedInput)
        case Some(next) => Follow(v, lim, next, longer)
  }

  /** The clusters of the chain that starts at `first`. */
  function ChainPath(v: Volume, lim: Limits, first: nat): Result<seq<nat>, Failure> {
    if first < 2 then Ok([]) else Follow(v, lim, first, [])
  }

  predicate AllInside(v: Volume, path: seq<nat>) {
    forall i :: 0 <= i < |path| ==> 2 <= path[i] && v.Inside(path[i])
  }

  /** The bytes of the clusters of a path, in order. */
  function Contents(v: Volume, path: seq<nat>): (data: Bytes)
    requires AllInside(v, path)
    ensures |data| == |path| * v.bpb.ClusterSize()
  {
    if path == [] then []
    else
      var last := |path| - 1;
      assert |path| * v.bpb.ClusterSize() == last * v.bpb.ClusterSize() + v.bpb.ClusterSize();
      Contents(v, path[..last]) + v.Cluster(path[last])
  }

  ghost predicate Distinct<T(!new)>(s: seq<T>) {
    forall i, j :: 0 <= i < j < |s| ==> s[i] != s[j]
  }

  /** The table leads from each cluster of `path` to the following one. */
  ghost predicate Linked(v: Volume, path: seq<nat>) {
    && AllInside(v, path)
    && Distinct(path)
    && (forall i :: 0 <= i < |path| ==> !v.Stops(path[i]) && v.Next(path[i]).Some?)
    && (forall i :: 0 < i < |path| ==> v.Next(path[i - 1]) == Some(path[i]))
  }

  ghost predicate WithinLimits(v: Volume, lim: Limits, length: nat) {
    length <= lim.maxMembers && (length <= 1 || length * v.bpb.ClusterSize() <= lim.maxSingleBytes)
  }

  /** `path` is the complete chain of `first`, declared without reference to any walk. */
  ghost predicate IsChain(v: Volume, first: nat, path: seq<nat>) {
    && Linked(v, path)
    && (path == [] ==> v.Stops(first))
    && (path != [] ==> path[0] == first && v.Stops(v.Next(path[|path| - 1]).value))
  }

  lemma {:induction false} FollowIsSound(v: Volume, lim: Limits, current: nat, path: seq<nat>)
    requires current >= 2 || path != []
    requires Linked(v, path) && WithinLimits(v, lim, |path|)
    requires path != [] ==> v.Next(path[|path| - 1]) == Some(current)
    requires Follow(v, lim, current, path).Ok?
    ensures var all := Follow(v, lim, current, path).value;
      && IsChain(v, if path == [] then current else path[0], all)
      && WithinLimits(v, lim, |all|)
    decreases lim.maxMembers - |path|
  {
    if !v.Stops(current) {
      FollowIsSound(v, lim, v.Next(current).value, path + [current]);
    }
  }

  lemma {:induction false} FollowIsComplete(v: Volume, lim: Limits, first: nat, all: seq<nat>, k: nat)
    requires 2 <= first && IsChain(v, first, all) && WithinLimits(v, lim, |all|) && k <= |all|
    ensures var current := if k == 0 then first else v.Next(all[k - 1]).value;
      Follow(v, lim, current, all[..k]) == Ok(all)
    decreases |all| - k
  {
    if k < |all| {
      assert all[..k] + [all[k]] == all[..k + 1];
      Scale(k + 1, |all|, v.bpb.ClusterSize());
      FollowIsComplete(v, lim, first, all, k + 1);
    } else {
      assert all[..k] == all;
    }
  }

  /** The walk succeeds exactly on complete chains within the limits, and then visits that chain:
      distinct clusters inside the image, each the table's successor of the one before. */
  lemma ChainPathIsChain(v: Volume, lim: Limits, first: nat, path: seq<nat>)
    requires first < 2 ==> path == []
    ensures ChainPath(v, lim, first) == Ok(path) <==> IsChain(v, first, path) && WithinLimits(v, lim, |path|)
  {
    if 2 <= first {
      if ChainPath(v, lim, first) == Ok(path) {
        FollowIsSound(v, lim, first, []);
      }
      if IsChain(v, first, path) && WithinLimits(v, lim, |path|) {
        FollowIsComplete(v, lim, first, path, 0);
        assert path[..0] == [];
      }
    }
  }

  /** A table that returns to a visited cluster has no chain at all, so the walk reports an error. */
  lemma {:induction false} LoopHasNoChain(v: Volume, lim: Limits, loop: seq<nat>, back: nat)
    requires loop != [] && 2 <= loop[0]
    requires forall i :: 0 < i < |loop| ==> v.Next(loop[i - 1]) == Some(loop[i])
    requires forall i :: 0 <= i < |loop| ==> !v.Stops(loop[i])
    requires back < |loop| && v.Next(loop[|loop| - 1]) == Some(loop[back])
    ensures ChainPath(v, lim, loop[0]).Err?
  {
    if ChainPath(v, lim, loop[0]).Ok? {
      var path := ChainPath(v, lim, loop[0]).value;
      ChainPathIsChain(v, lim, loop[0], path);
      UnrollLoop(v, loop, back, path, |path| - 1);
    }
  }

  /** Every cluster of a chain that starts on a loop lies on the loop. */
  lemma {:induction false} UnrollLoop(v: Volume, loop: seq<nat>, back: nat, path: seq<nat>, k: nat)
    requires loop != []
    requires forall i :: 0 < i < |loop| ==> v.Next(loop[i - 1]) == Some(loop[i])
    requires forall i :: 0 <= i < |loop| ==> !v.Stops(loop[i])
    requires back < |loop| && v.Next(loop[|loop| - 1]) == Some(loop[back])
    requires path != [] && path[0] == loop[0] && Linked(v, path) && k < |path|
    ensures path[k] in loop && v.Next(path[k]).Some? && v.Next(path[k]).value in loop
  {
    if 0 < k {
      UnrollLoop(v, loop, back, path, k - 1);
    }
    var i :| 0 <= i < |loop| && loop[i] == path[k];
    if i + 1 < |loop| {
      assert v.Next(loop[i + 1 - 1]) == Some(loop[i + 1]);
    }
  }

  /** What `_chain` computes: the concatenation of the clusters of the chain. */
  function ChainBytes(v: Volume, lim: Limits, first: nat): (r: Result<Bytes, Failure>)
    ensures r.Ok? ==> |r.value| <= lim.maxSingleBytes || |r.value| <= v.bpb.ClusterSize()
  {
    match ChainPath(v, lim, first)
    case Err(e) => Err(e)
    case Ok(path) =>
      ChainPathIsChain(v, lim, first, path);
      Ok(Contents(v, path))
  }

  lemma ContentsSnoc(v: Volume, path: seq<nat>, cluster: nat)
    requires AllInside(v, path) && 2 <= cluster && v.Inside(cluster)
    ensures AllInside(v, path + [cluster])
    ensures Contents(v, path + [cluster]) == Contents(v, path) + v.Cluster(cluster)
  {
    assert (path + [cluster])[..|path|] == path;
  }

  /** One round of the walk, as `Follow` defines it. */
  lemma FollowStep(v: Volume, lim: Limits, current: nat, path: seq<nat>)
    requires !v.Stops(current)
    ensures var longer := path + [current];
      Follow(v, lim, current, path)
      == if current in path || lim.maxMembers <= |path| || !v.Inside(current) then Err(MalformedInput)
         else if 1 < |longer| && lim.maxSingleBytes < |longer| * v.bpb.ClusterSize() then Err(LimitReached(MaxSingleBytes))
         else if v.Next(current).None? then Err(MalformedInput)
         else Follow(v, lim, v.Next(current).value, longer)
  {}

  lemma BytesOfWalk(v: Volume, lim: Limits, first: nat)
    ensures first < 2 ==> ChainBytes(v, lim, first) == Ok([])
    ensures 2 <= first ==>
      match Follow(v, lim, first, [])
      case Err(e) => ChainBytes(v, lim, first) == Err(e)
      case Ok(path) => AllInside(v, path) && ChainBytes(v, lim, first) == Ok(Contents(v, path))
  {
    hide Follow;
    if first < 2 {
      ChainPathIsChain(v, lim, first, []);
    } else if Follow(v, lim, first, []).Ok? {
      ChainPathIsChain(v, lim, first, Follow(v, lim, first, []).value);
    }
  }

  /** `_chain`: walks the table until it stops, collecting the clusters. */
  method Chain(v: Volume, lim: Limits, first: nat) returns (r: Result<Bytes, Failure>)
    ensures r == ChainBytes(v, lim, first)
  {
    hide Follow, Contents, Entry, ChainBytes, EndOfChain;
    BytesOfWalk(v, lim, first);
    if first < 2 {
      return Ok([]);
    }
    var table := v.Table();
    var out: Bytes, seen: set<nat>, current := [], {}, first;
    ghost var path: seq<nat> := [];
    while current < EndOfChain(v.bpb.kind)
      invariant 2 <= current
      invariant AllInside(v, path) && out == Contents(v, path)
      invariant |seen| == |path| && forall c :: c in seen <==> c in path
      invariant Follow(v, lim, first, []) == Follow(v, lim, current, path)
      decreases lim.maxMembers - |path|
    {
      FollowStep(v, lim, current, path);
      if current in seen || lim.maxMembers <= |seen| {
        return Err(MalformedInput);
      }
      seen := seen + {current};
      var offset := v.bpb.dataOffset + (current - 2) * v.bpb.ClusterSize();
      if |v.image| < offset + v.bpb.ClusterSize() {
        return Err(MalformedInput);
      }
      ContentsSnoc(v, path, current);
      path := path + [current];
      out := out + v.image[offset..offset + v.bpb.ClusterSize()];
      if lim.maxSingleBytes < |out| && 1 < |seen| {
        return Err(LimitReached(MaxSingleBytes));
      }
      var next := Entry(table, current, v.bpb.kind);
      if next == None {
        return Err(MalformedInput);
      }
      current := next.value;
      if current < 2 {
        StopsAt(v, lim, current, path);
        break;
      }
    }
    StopsAt(v, lim, current, path);
    return Ok(out);
  }

  lemma StopsAt(v: Volume, lim: Limits, current: nat, path: seq<nat>)
    requires v.Stops(current) && (2 <= current || path != [])
    ensures Follow(v, lim, current, path) == Ok(path)
  {}
}
