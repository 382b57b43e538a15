/**
  The writing side the reader has to undo: linking a chain in the allocation table and filling its
  clusters, as the Microsoft FAT specification (version 1.03, "FAT Data Structure" and "FAT Directory
  Structure") lays them out. Writing a file on free clusters adds that file to what the reader finds
  and changes nothing else.
*/
module FatWriter {
  import opened Common
  import opened FatTable
  import opened FatChain
  import opened FatDirectory
  import opened FatEntry
  import opened FatRoundTrip

  function Splice(image: Bytes, at: nat, patch: Bytes): (r: Bytes)
    requires at + |patch| <= |image|
    ensures |r| == |image|
  {
    image[..at] + patch + image[at + |patch|..]
  }

  lemma SpliceReads(image: Bytes, at: nat, patch: Bytes)
    requires at + |patch| <= |image|
    ensures Splice(image, at, patch)[at..at + |patch|] == patch
  {}

  lemma SpliceKeeps(image: Bytes, at: nat, patch: Bytes, lo: nat, hi: nat)
    requires at + |patch| <= |image| && lo <= hi <= |image|
    requires hi <= at || at + |patch| <= lo
    ensures Splice(image, at, patch)[lo..hi] == image[lo..hi]
  {
    var r := Splice(image, at, patch);
    forall i | lo <= i < hi
      ensures r[i] == image[i]
    {}
  }

  /** The volume has its whole table, and the table lies before the root directory and the data. */
  predicate WellPlaced(v: Volume) {
    && 512 <= v.bpb.TableStart()
    && v.bpb.TableStart() + v.bpb.TableSize() <= v.bpb.rootOffset
    && v.bpb.rootOffset + 32 * v.bpb.rootEntries <= v.bpb.dataOffset <= |v.image|
  }

  /** Clusters a file can be written to: distinct, inside the image, with a table entry of their own. */
  ghost predicate Usable(v: Volume, chain: seq<nat>) {
    && Distinct(chain)
    && AllInside(v, chain)
    && forall i :: 0 <= i < |chain| ==> !v.Stops(chain[i]) && v.Next(chain[i]).Some?
  }

  ghost predicate Writable(v: Volume, chain: seq<nat>) { WellPlaced(v) && Usable(v, chain) }

  /** Links the clusters of `chain` one after the other and marks the last one. */
  function Link(table: Bytes, chain: seq<nat>, kind: Kind): (r: Bytes)
    requires forall i :: 0 <= i < |chain| ==> HasEntry(table, chain[i], kind)
    ensures |r| == |table|
  {
    if chain == [] then table
    else
      var rest := Link(table, chain[1..], kind);
      assert HasEntry(table, chain[0], kind);
      SetEntry(rest, chain[0], LinkValue(chain, kind), kind)
  }

  /** The entry of the first cluster of a chain: the second one, or an end mark. */
  function LinkValue(chain: seq<nat>, kind: Kind): nat
    requires chain != []
  { if |chain| == 1 then Modulus(kind) - 1 else chain[1] }

  lemma {:induction false} LinkReads(table: Bytes, chain: seq<nat>, kind: Kind, k: nat)
    requires forall i :: 0 <= i < |chain| ==> HasEntry(table, chain[i], kind)
    requires Distinct(chain) && (forall i :: 0 <= i < |chain| ==> chain[i] < Modulus(kind))
    requires k < |chain|
    ensures Entry(Link(table, chain, kind), chain[k], kind) == Some(LinkValue(chain[k..], kind))
  {
    hide Entry, SetEntry;
    var rest := Link(table, chain[1..], kind);
    assert HasEntry(table, chain[0], kind);
    if k == 0 {
      ReadAfterWrite(rest, chain[0], LinkValue(chain, kind), kind);
      assert chain[0..] == chain && LinkValue(chain, kind) < Modulus(kind);
    } else {
      LinkReads(table, chain[1..], kind, k - 1);
      assert chain[1..][k - 1..] == chain[k..];
      WriteIsLocal(rest, chain[0], LinkValue(chain, kind), chain[k], kind);
    }
  }

  lemma {:induction false} LinkIsLocal(table: Bytes, chain: seq<nat>, kind: Kind, other: nat)
    requires forall i :: 0 <= i < |chain| ==> HasEntry(table, chain[i], kind)
    requires other !in chain
    ensures Entry(Link(table, chain, kind), other, kind) == Entry(table, other, kind)
  {
    hide Entry, SetEntry;
    if chain != [] {
      assert HasEntry(table, chain[0], kind);
      LinkIsLocal(table, chain[1..], kind, other);
      WriteIsLocal(Link(table, chain[1..], kind), chain[0], LinkValue(chain, kind), other, kind);
    }
  }

  /** Fills the clusters of `chain` with consecutive pieces of `data`. */
  function Fill(image: Bytes, v: Volume, chain: seq<nat>, data: Bytes): (r: Bytes)
    requires |image| == |v.image| && AllInside(v, chain) && |data| == |chain| * v.bpb.ClusterSize()
    ensures |r| == |image|
  {
    if chain == [] then image
    else
      var last := |chain| - 1;
      var cs := v.bpb.ClusterSize();
      assert |data| == last * cs + cs;
      Splice(Fill(image, v, chain[..last], data[..last * cs]), v.ClusterOffset(chain[last]), data[last * cs..])
  }

  lemma ClustersApart(v: Volume, a: nat, b: nat)
    requires 2 <= a < b
    ensures v.ClusterOffset(a) + v.bpb.ClusterSize() <= v.ClusterOffset(b)
  {
    Scale(a - 1, b - 2, v.bpb.ClusterSize());
    assert (a - 1) * v.bpb.ClusterSize() == (a - 2) * v.bpb.ClusterSize() + v.bpb.ClusterSize();
  }

  lemma BehindFront(v: Volume, cluster: nat)
    requires 2 <= cluster
    ensures v.bpb.dataOffset <= v.ClusterOffset(cluster)
  {
    Scale(0, cluster - 2, v.bpb.ClusterSize());
  }

  /** The bytes from `lo` to `hi` do not meet the cluster. */
  predicate Misses(v: Volume, cluster: nat, lo: nat, hi: nat)
    requires 2 <= cluster
  { hi <= v.ClusterOffset(cluster) || v.ClusterOffset(cluster) + v.bpb.ClusterSize() <= lo }

  lemma {:induction false} FillKeeps(image: Bytes, v: Volume, chain: seq<nat>, data: Bytes, lo: nat, hi: nat)
    requires |image| == |v.image| && AllInside(v, chain) && |data| == |chain| * v.bpb.ClusterSize()
    requires lo <= hi <= |image| && forall k :: 0 <= k < |chain| ==> Misses(v, chain[k], lo, hi)
    ensures Fill(image, v, chain, data)[lo..hi] == image[lo..hi]
  {
    hide Splice;
    if chain != [] {
      var last := |chain| - 1;
      var cs := v.bpb.ClusterSize();
      assert |data| == last * cs + cs;
      assert Misses(v, chain[last], lo, hi);
      FillKeeps(image, v, chain[..last], data[..last * cs], lo, hi);
      SpliceKeeps(Fill(image, v, chain[..last], data[..last * cs]), v.ClusterOffset(chain[last]), data[last * cs..], lo, hi);
    }
  }

  lemma {:induction false} FillReads(image: Bytes, v: Volume, chain: seq<nat>, data: Bytes)
    requires |image| == |v.image| && AllInside(v, chain) && Distinct(chain)
    requires |data| == |chain| * v.bpb.ClusterSize()
    ensures Contents(Volume(Fill(image, v, chain, data), v.bpb), chain) == data
  {
    hide Splice;
    if chain != [] {
      var last := |chain| - 1;
      var cs := v.bpb.ClusterSize();
      assert |data| == last * cs + cs;
      var part, patch := Fill(image, v, chain[..last], data[..last * cs]), data[last * cs..];
      var before := Volume(part, v.bpb);
      var after := Volume(Fill(image, v, chain, data), v.bpb);
      FillReads(image, v, chain[..last], data[..last * cs]);
      assert v.Inside(chain[last]);
      forall k | 0 <= k < last
        ensures after.Cluster(chain[k]) == before.Cluster(chain[k])
      {
        PatchKeepsCluster(part, v, chain[last], patch, chain[k]);
      }
      SameContents(before, after, chain[..last]);
      SpliceReads(part, v.ClusterOffset(chain[last]), patch);
      assert data[..last * cs] + patch == data;
    }
  }

  lemma PatchKeepsCluster(image: Bytes, v: Volume, written: nat, patch: Bytes, kept: nat)
    requires |image| == |v.image| && 2 <= written && v.Inside(written) && |patch| == v.bpb.ClusterSize()
    requires 2 <= kept && v.Inside(kept) && kept != written
    ensures Volume(Splice(image, v.ClusterOffset(written), patch), v.bpb).Cluster(kept)
            == Volume(image, v.bpb).Cluster(kept)
  {
    hide Splice;
    MissesOther(v, written, kept);
    var lo := v.ClusterOffset(kept);
    SpliceKeeps(image, v.ClusterOffset(written), patch, lo, lo + v.bpb.ClusterSize());
  }

  /** Different clusters occupy different bytes. */
  lemma MissesOther(v: Volume, a: nat, b: nat)
    requires 2 <= a && 2 <= b && a != b
    ensures Misses(v, a, v.ClusterOffset(b), v.ClusterOffset(b) + v.bpb.ClusterSize())
  {
    if a < b {
      ClustersApart(v, a, b);
    } else {
      ClustersApart(v, b, a);
    }
  }

  lemma {:induction false} SameContents(v: Volume, w: Volume, path: seq<nat>)
    requires v.bpb == w.bpb && AllInside(v, path) && AllInside(w, path)
    requires forall i :: 0 <= i < |path| ==> w.Cluster(path[i]) == v.Cluster(path[i])
    ensures Contents(w, path) == Contents(v, path)
  {
    if path != [] {
      SameContents(v, w, path[..|path| - 1]);
    }
  }

  /** The image once the table links the chain, before its clusters are filled. */
  function LinkedImage(v: Volume, chain: seq<nat>): (r: Bytes)
    requires Writable(v, chain)
    ensures |r| == |v.image|
  {
    forall i | 0 <= i < |chain|
      ensures HasEntry(v.Table(), chain[i], v.bpb.kind)
    {
      assert v.Next(chain[i]).Some?;
    }
    TableInPlace(v);
    Splice(v.image, v.bpb.TableStart(), Link(v.Table(), chain, v.bpb.kind))
  }

  lemma TableInPlace(v: Volume)
    requires WellPlaced(v)
    ensures v.Table() == v.image[v.bpb.TableStart()..v.bpb.TableStart() + v.bpb.TableSize()]
    ensures RootData(v) == v.image[v.bpb.rootOffset..v.bpb.rootOffset + 32 * v.bpb.rootEntries]
  {}

  /** The volume after writing `data` to the clusters of `chain`. */
  function WriteChain(v: Volume, chain: seq<nat>, data: Bytes): (w: Volume)
    requires Writable(v, chain) && |data| == |chain| * v.bpb.ClusterSize()
    ensures w.bpb == v.bpb && |w.image| == |v.image|
  {
    Volume(Fill(LinkedImage(v, chain), v, chain, data), v.bpb)
  }

  lemma HasEntries(v: Volume, chain: seq<nat>)
    requires Writable(v, chain)
    ensures forall i :: 0 <= i < |chain| ==> HasEntry(v.Table(), chain[i], v.bpb.kind)
  {
    forall i | 0 <= i < |chain|
      ensures HasEntry(v.Table(), chain[i], v.bpb.kind)
    {
      assert v.Next(chain[i]).Some?;
    }
  }

  /** In front of the data area a write changes no more than the linked image does. */
  lemma FrontIsLinked(v: Volume, chain: seq<nat>, data: Bytes, lo: nat, hi: nat)
    requires Writable(v, chain) && |data| == |chain| * v.bpb.ClusterSize()
    requires lo <= hi <= v.bpb.dataOffset
    ensures WriteChain(v, chain, data).image[lo..hi] == LinkedImage(v, chain)[lo..hi]
  {
    hide Fill, LinkedImage;
    forall k | 0 <= k < |chain|
      ensures Misses(v, chain[k], lo, hi)
    {
      BehindFront(v, chain[k]);
    }
    FillKeeps(LinkedImage(v, chain), v, chain, data, lo, hi);
  }

  /** After a write the table links the chain. */
  lemma TableIsLinked(v: Volume, chain: seq<nat>, data: Bytes)
    requires Writable(v, chain) && |data| == |chain| * v.bpb.ClusterSize()
    ensures forall i :: 0 <= i < |chain| ==> HasEntry(v.Table(), chain[i], v.bpb.kind)
    ensures WriteChain(v, chain, data).Table() == Link(v.Table(), chain, v.bpb.kind)
  {
    hide Splice, Fill, Link, WriteChain, Usable, HasEntry, Bpb.ClusterSize, Bpb.TableStart, Bpb.TableSize, Volume.Table;
    var w, t := WriteChain(v, chain, data), v.bpb.TableStart();
    HasEntries(v, chain);
    TableInPlace(v);
    TableInPlace(w);
    FrontIsLinked(v, chain, data, t, t + v.bpb.TableSize());
    SpliceReads(v.image, t, Link(v.Table(), chain, v.bpb.kind));
  }

  /** A write keeps the boot sector and the fixed root directory. */
  lemma FrontIsKept(v: Volume, chain: seq<nat>, data: Bytes)
    requires Writable(v, chain) && |data| == |chain| * v.bpb.ClusterSize()
    ensures WellPlaced(WriteChain(v, chain, data))
    ensures WriteChain(v, chain, data).image[0..512] == v.image[0..512]
    ensures RootData(WriteChain(v, chain, data)) == RootData(v)
  {
    hide Splice, Fill, Link, WriteChain;
    var w, t := WriteChain(v, chain, data), v.bpb.TableStart();
    HasEntries(v, chain);
    TableInPlace(v);
    TableInPlace(w);
    var link := Link(v.Table(), chain, v.bpb.kind);
    var lo, hi := v.bpb.rootOffset, v.bpb.rootOffset + 32 * v.bpb.rootEntries;
    FrontIsLinked(v, chain, data, 0, 512);
    SpliceKeeps(v.image, t, link, 0, 512);
    FrontIsLinked(v, chain, data, lo, hi);
    SpliceKeeps(v.image, t, link, lo, hi);
  }

  /** The entry a linked chain has at its i-th cluster. */
  function After(chain: seq<nat>, i: nat, kind: Kind): nat
    requires i < |chain|
  { if i + 1 < |chain| then chain[i + 1] else Modulus(kind) - 1 }

  lemma LinksMakeChain(w: Volume, chain: seq<nat>)
    requires chain != [] && AllInside(w, chain) && Distinct(chain)
    requires forall i :: 0 <= i < |chain| ==> !w.Stops(chain[i])
    requires forall i :: 0 <= i < |chain| ==> w.Next(chain[i]) == Some(After(chain, i, w.bpb.kind))
    ensures IsChain(w, chain[0], chain)
  {
    var last := |chain| - 1;
    assert w.Next(chain[last]) == Some(After(chain, last, w.bpb.kind));
    forall i | 0 < i < |chain|
      ensures w.Next(chain[i - 1]) == Some(chain[i])
    {
      var k := i - 1;
      assert w.Next(chain[k]) == Some(After(chain, k, w.bpb.kind));
    }
  }

  lemma WrittenLinks(v: Volume, chain: seq<nat>, data: Bytes, i: nat)
    requires Writable(v, chain) && i < |chain| && |data| == |chain| * v.bpb.ClusterSize()
    ensures WriteChain(v, chain, data).Next(chain[i]) == Some(After(chain, i, v.bpb.kind))
  {
    hide Entry, Link, Fill, Splice, WriteChain;
    TableIsLinked(v, chain, data);
    BelowModulus(v, chain);
    LinkReads(v.Table(), chain, v.bpb.kind, i);
    assert LinkValue(chain[i..], v.bpb.kind) == After(chain, i, v.bpb.kind);
  }

  /** A written chain is read back: its links and its bytes. */
  lemma WrittenChainReads(v: Volume, chain: seq<nat>, data: Bytes)
    requires Writable(v, chain) && chain != [] && |data| == |chain| * v.bpb.ClusterSize()
    ensures var w := WriteChain(v, chain, data);
      IsChain(w, chain[0], chain) && Contents(w, chain) == data
  {
    var w := WriteChain(v, chain, data);
    assert Contents(w, chain) == data by {
      hide Entry, Link, Fill, Splice;
      FillReads(LinkedImage(v, chain), v, chain, data);
    }
    assert IsChain(w, chain[0], chain) by {
      hide Entry, Link, Fill, Splice, WriteChain, IsChain;
      forall i | 0 <= i < |chain|
        ensures w.Next(chain[i]) == Some(After(chain, i, w.bpb.kind))
      {
        WrittenLinks(v, chain, data, i);
      }
      LinksMakeChain(w, chain);
    }
  }

  lemma BelowModulus(v: Volume, chain: seq<nat>)
    requires Writable(v, chain)
    ensures forall i :: 0 <= i < |chain| ==> chain[i] < Modulus(v.bpb.kind)
  {
    forall i | 0 <= i < |chain|
      ensures chain[i] < Modulus(v.bpb.kind)
    {
      assert !v.Stops(chain[i]);
    }
  }

  /** The two volumes agree on one cluster: its table entry and its bytes. */
  predicate SameAt(v: Volume, w: Volume, cluster: nat) {
    && v.bpb == w.bpb && |v.image| == |w.image|
    && w.Next(cluster) == v.Next(cluster)
    && (2 <= cluster && v.Inside(cluster) ==> w.Cluster(cluster) == v.Cluster(cluster))
  }

  /** Writing a chain leaves every other cluster of the volume alone. */
  lemma WriteIsConfined(v: Volume, chain: seq<nat>, data: Bytes, cluster: nat)
    requires Writable(v, chain) && |data| == |chain| * v.bpb.ClusterSize()
    requires cluster !in chain
    ensures SameAt(v, WriteChain(v, chain, data), cluster)
  {
    hide Entry, Link, Fill, Splice;
    TableIsLinked(v, chain, data);
    TableInPlace(v);
    LinkIsLocal(v.Table(), chain, v.bpb.kind, cluster);
    if 2 <= cluster && v.Inside(cluster) {
      var lo := v.ClusterOffset(cluster);
      var hi := lo + v.bpb.ClusterSize();
      forall k | 0 <= k < |chain|
        ensures Misses(v, chain[k], lo, hi)
      {
        MissesOther(v, chain[k], cluster);
      }
      BehindFront(v, cluster);
      FillKeeps(LinkedImage(v, chain), v, chain, data, lo, hi);
      var t, link := v.bpb.TableStart(), Link(v.Table(), chain, v.bpb.kind);
      SpliceKeeps(v.image, t, link, lo, hi);
    }
  }

  // ---------------------------------------------------------------- frame of a whole tree

  /** All clusters that the chains of a tree occupy. */
  function Clusters(slots: seq<Slot>): set<nat>
    decreases slots
  {
    if slots == [] then {}
    else
      (match slots[0]
       case Ignored => {}
       case FileSlot(_, _, _, _, chain, _) => (set x | x in chain)
       case DirSlot(_, _, _, _, chain, _, below) => (set x | x in chain) + Clusters(below))
      + Clusters(slots[1..])
  }

  lemma {:induction false} ClustersOfSlot(slots: seq<Slot>, i: nat)
    requires i < |slots| && !slots[i].Ignored?
    ensures forall k :: k in slots[i].chain ==> k in Clusters(slots)
    ensures slots[i].DirSlot? ==> Clusters(slots[i].slots) <= Clusters(slots)
  {
    if 0 < i {
      ClustersOfSlot(slots[1..], i - 1);
    }
  }

  lemma ChainFrame(v: Volume, w: Volume, first: nat, path: seq<nat>)
    requires IsChain(v, first, path) && v.bpb == w.bpb && |v.image| == |w.image|
    requires forall k :: k in path ==> SameAt(v, w, k)
    ensures IsChain(w, first, path) && Contents(w, path) == Contents(v, path)
  {
    forall i | 0 <= i < |path|
      ensures SameAt(v, w, path[i])
    {}
    SameContents(v, w, path);
  }

  /** A tree stays laid out as long as its own clusters keep their entries and bytes. */
  lemma {:induction false} TreeFrame(c: Context, d: Context, data: Bytes, slots: seq<Slot>, dir: seq<string>,
                                     ancestry: set<nat>)
    requires d.lim == c.lim && d.decode == c.decode && c.v.bpb == d.v.bpb && |c.v.image| == |d.v.image|
    requires forall k :: k in Clusters(slots) ==> SameAt(c.v, d.v, k)
    requires DirHolds(c, data, slots, dir, ancestry)
    ensures DirHolds(d, data, slots, dir, ancestry)
    decreases slots
  {
    forall i | 0 <= i < |slots|
      ensures SlotHolds(d, slots[i], dir, ancestry)
    {
      var s := slots[i];
      assert SlotHolds(c, s, dir, ancestry);
      if !s.Ignored? {
        ClustersOfSlot(slots, i);
        ChainFrame(c.v, d.v, s.first, s.chain);
        if s.DirSlot? {
          TreeFrame(c, d, Contents(c.v, s.chain), s.slots, PathOf(s, dir), ancestry + {s.first});
        }
      }
    }
  }

  // ---------------------------------------------------------------- the boot sector survives

  lemma SubSlice<T>(a: seq<T>, b: seq<T>, lo: nat, hi: nat, top: nat)
    requires lo <= hi <= top <= |a| && top <= |b| && a[0..top] == b[0..top]
    ensures a[lo..hi] == b[lo..hi]
  {
    forall i | lo <= i < hi
      ensures a[i] == b[i]
    {
      assert a[i] == a[0..top][i] && b[i] == b[0..top][i];
    }
  }

  /** `_bpb` looks at the first sector and the size of the image only. */
  lemma BpbFromFirstSector(a: Bytes, b: Bytes)
    requires 512 <= |a| == |b| && a[0..512] == b[0..512]
    ensures ReadBpb(a) == ReadBpb(b)
  {
    hide Little, LabelKind;
    assert a[13] == a[0..512][13] && b[13] == b[0..512][13] && a[16] == a[0..512][16] && b[16] == b[0..512][16];
    SubSlice(a, b, 11, 13, 512);
    SubSlice(a, b, 14, 16, 512);
    SubSlice(a, b, 17, 19, 512);
    SubSlice(a, b, 19, 21, 512);
    SubSlice(a, b, 22, 24, 512);
    SubSlice(a, b, 32, 36, 512);
    SubSlice(a, b, 36, 40, 512);
    SubSlice(a, b, 44, 48, 512);
    SubSlice(a, b, 54, 62, 512);
    SubSlice(a, b, 82, 90, 512);
    SubSlice(a, b, 510, 512, 512);
  }
}
