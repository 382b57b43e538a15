/**
  Adding a file to a volume that holds a tree: anywhere in the tree, in the fixed root directory, in the root chain of
  FAT32 or in the chain of any subdirectory. The reader finds the old tree with the file at its place, and nothing else
  has changed.
*/
module FatAdd {
  import opened Common
  import opened AnalysisTypes
  import opened FatTable
  import opened FatChain
  import opened SafePath
  import opened FatDirectory
  import opened FatEntry
  import opened FatRoundTrip
  import opened FatWriter

  // ---------------------------------------------------------------- writing one directory entry

  /** Where a directory entry is stored: a slot of the fixed root directory, or a place inside a cluster. */
  datatype Place = FixedRoot(n: nat) | InCluster(cluster: nat, offset: nat)

  predicate PlaceIsSound(v: Volume, p: Place) {
    match p
    case FixedRoot(n) => n < v.bpb.rootEntries
    case InCluster(cluster, offset) => 2 <= cluster && v.Inside(cluster) && offset + 32 <= v.bpb.ClusterSize()
  }

  function Position(v: Volume, p: Place): nat
    requires PlaceIsSound(v, p)
  {
    match p
    case FixedRoot(n) => v.bpb.rootOffset + 32 * n
    case InCluster(cluster, offset) => v.ClusterOffset(cluster) + offset
  }

  function PutEntry(v: Volume, p: Place, e: Entry32): (w: Volume)
    requires WellPlaced(v) && PlaceIsSound(v, p)
    ensures w.bpb == v.bpb && |w.image| == |v.image|
  {
    Volume(Splice(v.image, Position(v, p), e), v.bpb)
  }

  /** The clusters whose bytes a write to a place changes. */
  function Touched(p: Place): set<nat> { match p case FixedRoot(_) => {} case InCluster(cluster, _) => {cluster} }

  lemma PutKeepsFront(v: Volume, p: Place, e: Entry32)
    requires WellPlaced(v) && PlaceIsSound(v, p)
    ensures WellPlaced(PutEntry(v, p, e)) && PutEntry(v, p, e).Table() == v.Table()
    ensures PutEntry(v, p, e).image[0..512] == v.image[0..512]
    ensures p.InCluster? ==> RootData(PutEntry(v, p, e)) == RootData(v)
  {
    hide Splice;
    var w, at := PutEntry(v, p, e), Position(v, p);
    var root := v.bpb.rootOffset;
    if p.InCluster? {
      BehindFront(v, p.cluster);
      SpliceKeeps(v.image, at, e, root, root + 32 * v.bpb.rootEntries);
    }
    TableInPlace(v);
    TableInPlace(w);
    SpliceKeeps(v.image, at, e, v.bpb.TableStart(), v.bpb.TableStart() + v.bpb.TableSize());
    SpliceKeeps(v.image, at, e, 0, 512);
  }

  lemma PutIsConfined(v: Volume, p: Place, e: Entry32, cluster: nat)
    requires WellPlaced(v) && PlaceIsSound(v, p)
    ensures PutEntry(v, p, e).Next(cluster) == v.Next(cluster)
    ensures cluster !in Touched(p) ==> SameAt(v, PutEntry(v, p, e), cluster)
  {
    hide Splice, Entry;
    PutKeepsFront(v, p, e);
    if cluster !in Touched(p) && 2 <= cluster && v.Inside(cluster) {
      BehindFront(v, cluster);
      if p.InCluster? {
        MissesOther(v, p.cluster, cluster);
      }
      SpliceKeeps(v.image, Position(v, p), e, v.ClusterOffset(cluster), v.ClusterOffset(cluster) + v.bpb.ClusterSize());
    }
  }

  lemma PutKeepsCluster(v: Volume, p: Place, e: Entry32, cluster: nat)
    requires WellPlaced(v) && PlaceIsSound(v, p) && cluster !in Touched(p) && 2 <= cluster && v.Inside(cluster)
    ensures PutEntry(v, p, e).Inside(cluster) && PutEntry(v, p, e).Cluster(cluster) == v.Cluster(cluster)
  {
    hide PutEntry;
    PutIsConfined(v, p, e, cluster);
  }

  lemma {:induction false} ContentsConcat(v: Volume, a: seq<nat>, b: seq<nat>)
    requires AllInside(v, a + b)
    ensures AllInside(v, a) && AllInside(v, b) && Contents(v, a + b) == Contents(v, a) + Contents(v, b)
    decreases |b|
  {
    hide Volume.Cluster, Volume.ClusterOffset, Volume.Inside, Bpb.ClusterSize, AllInside;
    AllInsideParts(v, a, b);
    if b == [] {
      assert a + b == a;
    } else {
      var last := |b| - 1;
      assert (a + b)[..|a + b| - 1] == a + b[..last];
      assert a + b == a + b[..last] + [b[last]];
      AllInsideParts(v, a + b[..last], [b[last]]);
      assert b == b[..last] + [b[last]];
      AllInsideParts(v, b[..last], [b[last]]);
      ContentsConcat(v, a, b[..last]);
    }
  }

  lemma AllInsideParts(v: Volume, a: seq<nat>, b: seq<nat>)
    requires AllInside(v, a + b)
    ensures AllInside(v, a) && AllInside(v, b)
  {
    hide Volume.Inside;
    assert forall i :: 0 <= i < |a| ==> (a + b)[i] == a[i];
    assert forall i :: 0 <= i < |b| ==> (a + b)[|a| + i] == b[i];
  }

  lemma ContentsOne(v: Volume, cluster: nat)
    requires 2 <= cluster && v.Inside(cluster)
    ensures AllInside(v, [cluster]) && Contents(v, [cluster]) == v.Cluster(cluster)
  {
    assert [cluster][..0] == [];
  }

  lemma ContentsAround(v: Volume, chain: seq<nat>, k: nat)
    requires AllInside(v, chain) && k < |chain|
    ensures AllInside(v, chain[..k]) && AllInside(v, chain[k + 1..])
    ensures Contents(v, chain) == Contents(v, chain[..k]) + (v.Cluster(chain[k]) + Contents(v, chain[k + 1..]))
  {
    hide Contents;
    var a, b := chain[..k], chain[k + 1..];
    assert chain == a + ([chain[k]] + b);
    ContentsConcat(v, a, [chain[k]] + b);
    ContentsConcat(v, [chain[k]], b);
    ContentsOne(v, chain[k]);
  }

  /** An entry written into the k-th cluster of a chain is written into the bytes of the chain. */
  lemma PutIsRead(v: Volume, chain: seq<nat>, k: nat, offset: nat, at: nat, e: Entry32)
    requires WellPlaced(v) && AllInside(v, chain) && Distinct(chain) && k < |chain|
    requires PlaceIsSound(v, InCluster(chain[k], offset)) && at == k * v.bpb.ClusterSize() + offset
    ensures AllInside(PutEntry(v, InCluster(chain[k], offset), e), chain)
    ensures at + 32 <= |Contents(v, chain)|
    ensures Contents(PutEntry(v, InCluster(chain[k], offset), e), chain) == Splice(Contents(v, chain), at, e)
  {
    hide Splice, PutEntry, Contents, WellPlaced, SameAt, Bpb.ClusterSize;
    var w := PutEntry(v, InCluster(chain[k], offset), e);
    var a, b := chain[..k], chain[k + 1..];
    ContentsAround(v, chain, k);
    ContentsAround(w, chain, k);
    forall i | 0 <= i < |chain| && i != k
      ensures w.Cluster(chain[i]) == v.Cluster(chain[i])
    {
      PutKeepsCluster(v, InCluster(chain[k], offset), e, chain[i]);
    }
    SameContents(v, w, a);
    SameContents(v, w, b);
    ClusterIsPut(v, chain[k], offset, e);
    SpliceInMiddle(Contents(v, a), v.Cluster(chain[k]), Contents(v, b), offset, e);
  }

  lemma ClusterIsPut(v: Volume, cluster: nat, offset: nat, e: Entry32)
    requires WellPlaced(v) && 2 <= cluster && v.Inside(cluster) && offset + 32 <= v.bpb.ClusterSize()
    ensures PutEntry(v, InCluster(cluster, offset), e).Cluster(cluster) == Splice(v.Cluster(cluster), offset, e)
  {
    hide Splice;
    SpliceInside(v.image, v.ClusterOffset(cluster), v.bpb.ClusterSize(), offset, e);
  }

  lemma SpliceInside(image: Bytes, at: nat, size: nat, offset: nat, patch: Bytes)
    requires at + size <= |image| && offset + |patch| <= size
    ensures Splice(image, at + offset, patch)[at..at + size] == Splice(image[at..at + size], offset, patch)
  {
    var x, y := Splice(image, at + offset, patch)[at..at + size], Splice(image[at..at + size], offset, patch);
    var all := Splice(image, at + offset, patch);
    forall i | 0 <= i < size
      ensures x[i] == y[i]
    {
      assert x[i] == all[at + i];
    }
  }

  lemma SpliceInMiddle(a: Bytes, b: Bytes, c: Bytes, at: nat, patch: Bytes)
    requires at + |patch| <= |b|
    ensures Splice(a + (b + c), |a| + at, patch) == a + (Splice(b, at, patch) + c)
  {}

  /** Overwriting slot `n` sets that slot and keeps the earlier ones and what follows it. */
  lemma EntriesAfterSplice(before: Bytes, n: nat, e: Entry32)
    requires 32 * n + 32 <= |before|
    ensures EntryAt(Splice(before, 32 * n, e), n) == e
    ensures forall i :: 0 <= i < n ==> EntryAt(Splice(before, 32 * n, e), i) == EntryAt(before, i)
    ensures 32 * n + 32 < |before| ==> Splice(before, 32 * n, e)[32 * n + 32] == before[32 * n + 32]
  {}

  // ---------------------------------------------------------------- a file in a tree

  /** `path` leads through directories, by the indices of their slots. */
  predicate ValidPath(slots: seq<Slot>, path: seq<nat>)
    decreases |path|
  {
    path == [] || (path[0] < |slots| && slots[path[0]].DirSlot? && ValidPath(slots[path[0]].slots, path[1..]))
  }

  /** The tree with one more slot at the end of the directory that `path` leads to. */
  function Insert(slots: seq<Slot>, path: seq<nat>, s: Slot): (r: seq<Slot>)
    requires ValidPath(slots, path)
    ensures path != [] ==> |r| == |slots|
    decreases |path|
  {
    if path == [] then slots + [s]
    else
      var t := slots[path[0]];
      slots[path[0] := t.(slots := Insert(t.slots, path[1..], s))]
  }

  /** The slots of that directory. */
  function SlotsAt(slots: seq<Slot>, path: seq<nat>): seq<Slot>
    requires ValidPath(slots, path)
    decreases |path|
  { if path == [] then slots else SlotsAt(slots[path[0]].slots, path[1..]) }

  /** The chain of that directory; of the root directory it is `root`. */
  function ChainAt(slots: seq<Slot>, path: seq<nat>, root: seq<nat>): seq<nat>
    requires ValidPath(slots, path)
    decreases |path|
  { if path == [] then root else ChainAt(slots[path[0]].slots, path[1..], slots[path[0]].chain) }

  /** Its name, component by component. */
  function DirAt(slots: seq<Slot>, path: seq<nat>, dir: seq<string>): seq<string>
    requires ValidPath(slots, path)
    decreases |path|
  {
    if path == [] then dir else DirAt(slots[path[0]].slots, path[1..], PathOf(slots[path[0]], dir))
  }

  /** The touched clusters belong to no chain of the tree but that of the directory that `path` leads to. */
  ghost predicate Apart(slots: seq<Slot>, path: seq<nat>, touched: set<nat>)
    requires ValidPath(slots, path)
    decreases |path|
  {
    if path == [] then touched !! Clusters(slots)
    else
      var i := path[0];
      && (forall j :: 0 <= j < |slots| && j != i ==> touched !! Clusters([slots[j]]))
      && (1 < |path| ==> forall k :: k in slots[i].chain ==> k !in touched)
      && Apart(slots[i].slots, path[1..], touched)
  }

  /** One volume became the other: the bytes of the touched clusters may differ, and so may clusters outside the tree. */
  ghost predicate Kept(c: Context, d: Context, clusters: set<nat>, touched: set<nat>) {
    && d.lim == c.lim && d.decode == c.decode && c.v.bpb == d.v.bpb && |c.v.image| == |d.v.image|
    && (forall k :: k in clusters && k !in touched ==> SameAt(c.v, d.v, k))
    && (forall k :: k in clusters ==> d.v.Next(k) == c.v.Next(k))
  }

  lemma SlotFrame(c: Context, d: Context, s: Slot, dir: seq<string>, ancestry: set<nat>, touched: set<nat>)
    requires Kept(c, d, Clusters([s]), touched) && touched !! Clusters([s]) && SlotHolds(c, s, dir, ancestry)
    ensures SlotHolds(d, s, dir, ancestry)
  {
    if !s.Ignored? {
      assert [s][0] == s;
      ClustersOfSlot([s], 0);
      ChainFrame(c.v, d.v, s.first, s.chain);
      if s.DirSlot? {
        TreeFrame(c, d, Contents(c.v, s.chain), s.slots, PathOf(s, dir), ancestry + {s.first});
      }
    }
  }

  /** A chain stays the same path when only bytes of its clusters change. */
  lemma ChainStays(v: Volume, w: Volume, first: nat, path: seq<nat>)
    requires IsChain(v, first, path) && v.bpb == w.bpb && |v.image| == |w.image|
    requires forall k :: k in path ==> w.Next(k) == v.Next(k)
    ensures IsChain(w, first, path)
  {
    forall i | 0 <= i < |path|
      ensures w.Next(path[i]) == v.Next(path[i])
    {}
  }

  lemma {:induction false} OneOfClusters(slots: seq<Slot>, i: nat)
    requires i < |slots|
    ensures Clusters([slots[i]]) <= Clusters(slots)
  {
    var one := [slots[i]];
    assert one[1..] == [] && one[0] == slots[i];
    if 0 < i {
      OneOfClusters(slots[1..], i - 1);
    }
  }

  /** The grown directory of a tree: its data has the new entry behind its slots. */
  ghost predicate Grown(c: Context, d: Context, chain: seq<nat>, n: nat, e: Entry32) {
    AllInside(c.v, chain) ==>
      && AllInside(d.v, chain) && 32 * n + 32 <= |Contents(c.v, chain)|
      && Contents(d.v, chain) == Splice(Contents(c.v, chain), 32 * n, e)
      && (32 * n + 32 < |Contents(c.v, chain)| ==> Contents(c.v, chain)[32 * n + 32] == 0)
  }

  /** A directory with one more entry behind its slots. */
  lemma DirGrows(d: Context, before: Bytes, slots: seq<Slot>, e: Entry32, s: Slot, dir: seq<string>, ancestry: set<nat>)
    requires DirHolds(d, before, slots, dir, ancestry) && SlotHolds(d, s, dir, ancestry) && EntryHolds(e, s, d.decode)
    requires 32 * |slots| + 32 <= |before|
    requires 32 * |slots| + 32 < |before| ==> before[32 * |slots| + 32] == 0
    ensures DirHolds(d, Splice(before, 32 * |slots|, e), slots + [s], dir, ancestry)
  {
    hide Splice, EntryAt, DirHolds, SlotHolds, EntryHolds;
    EntriesAfterSplice(before, |slots|, e);
    DirSnoc(d, before, Splice(before, 32 * |slots|, e), slots, s, dir, ancestry);
  }

  lemma DirSnoc(d: Context, before: Bytes, data: Bytes, slots: seq<Slot>, s: Slot, dir: seq<string>, ancestry: set<nat>)
    requires DirHolds(d, before, slots, dir, ancestry) && SlotHolds(d, s, dir, ancestry)
    requires 32 * |slots| + 32 <= |before| == |data|
    requires 32 * |slots| + 32 < |data| ==> data[32 * |slots| + 32] == 0
    requires forall i :: 0 <= i < |slots| ==> EntryAt(data, i) == EntryAt(before, i)
    requires EntryHolds(EntryAt(data, |slots|), s, d.decode)
    ensures DirHolds(d, data, slots + [s], dir, ancestry)
  {
    hide SlotHolds, EntryHolds, EntryAt, DirHolds;
    DirParts(d, before, slots, dir, ancestry);
    var all := slots + [s];
    forall i | 0 <= i < |all|
      ensures EntryHolds(EntryAt(data, i), all[i], d.decode) && SlotHolds(d, all[i], dir, ancestry)
    {
      if i < |slots| {
        assert all[i] == slots[i] && EntryAt(data, i) == EntryAt(before, i);
      } else {
        assert all[i] == s;
      }
    }
    DirParts(d, data, all, dir, ancestry);
  }

  /** `DirHolds`, slot by slot. */
  lemma DirParts(d: Context, data: Bytes, slots: seq<Slot>, dir: seq<string>, ancestry: set<nat>)
    ensures DirHolds(d, data, slots, dir, ancestry) <==>
      && 32 * |slots| <= |data|
      && (|data| < 32 * |slots| + 32 || data[32 * |slots|] == 0)
      && forall i :: 0 <= i < |slots| ==>
           EntryHolds(EntryAt(data, i), slots[i], d.decode) && SlotHolds(d, slots[i], dir, ancestry)
  {
    hide SlotHolds, EntryHolds, EntryAt;
  }

  /** The new file itself is on the volume. */
  ghost predicate FileHolds(d: Context, s: Slot, dir: seq<string>) {
    && s.FileSlot? && NameIsLegal(s, dir) && IsChain(d.v, s.first, s.chain) && WithinLimits(d.v, d.lim, |s.chain|)
    && s.content <= Contents(d.v, s.chain)
  }

  /** The tree with the file in the directory that `path` leads to, after its entry was written there. */
  lemma {:induction false} TreeGrows(c: Context, d: Context, data: Bytes, slots: seq<Slot>, path: seq<nat>, root: seq<nat>,
                                     dir: seq<string>, ancestry: set<nat>, e: Entry32, s: Slot, touched: set<nat>)
    requires ValidPath(slots, path) && DirHolds(c, data, slots, dir, ancestry)
    requires Kept(c, d, Clusters(slots), touched) && Apart(slots, path, touched)
    requires EntryHolds(e, s, d.decode) && FileHolds(d, s, DirAt(slots, path, dir))
    requires path != [] ==> Grown(c, d, ChainAt(slots, path, root), |SlotsAt(slots, path)|, e)
    requires path == [] ==> 32 * |slots| + 32 <= |data| && (32 * |slots| + 32 < |data| ==> data[32 * |slots| + 32] == 0)
    ensures DirHolds(d, if path == [] then Splice(data, 32 * |slots|, e) else data, Insert(slots, path, s), dir, ancestry)
    decreases |path|, 0
  {
    hide Splice, EntryHolds, EntryAt, Grown, Contents, SlotHolds, DirHolds, Clusters, SameAt, FileHolds;
    DirParts(c, data, slots, dir, ancestry);
    if path == [] {
      TreeFrame(c, d, data, slots, dir, ancestry);
      FileSlotHolds(d, s, dir, ancestry);
      DirGrows(d, data, slots, e, s, dir, ancestry);
    } else {
      var i := path[0];
      var t := slots[i];
      OthersStay(c, d, slots, i, dir, ancestry, touched);
      assert SlotHolds(c, t, dir, ancestry);
      DirSlotParts(c, t, dir, ancestry);
      ClustersOfSlot(slots, i);
      SubtreeGrows(c, d, t, path[1..], dir, ancestry, e, s, touched);
      SlotReplaced(d, data, slots, i, Insert(t.slots, path[1..], s), dir, ancestry);
    }
  }

  lemma FileSlotHolds(d: Context, s: Slot, dir: seq<string>, ancestry: set<nat>)
    requires FileHolds(d, s, dir)
    ensures SlotHolds(d, s, dir, ancestry)
  {
    hide NameIsLegal, Contents, WithinLimits;
    ChainInside(d.v, s.first, s.chain);
  }

  lemma OthersStay(c: Context, d: Context, slots: seq<Slot>, i: nat, dir: seq<string>, ancestry: set<nat>, touched: set<nat>)
    requires i < |slots| && Kept(c, d, Clusters(slots), touched)
    requires forall j :: 0 <= j < |slots| ==> SlotHolds(c, slots[j], dir, ancestry)
    requires forall j :: 0 <= j < |slots| && j != i ==> touched !! Clusters([slots[j]])
    ensures forall j :: 0 <= j < |slots| && j != i ==> SlotHolds(d, slots[j], dir, ancestry)
  {
    hide SlotHolds, Clusters, SameAt;
    forall j | 0 <= j < |slots| && j != i
      ensures SlotHolds(d, slots[j], dir, ancestry)
    {
      OneOfClusters(slots, j);
      SlotFrame(c, d, slots[j], dir, ancestry, touched);
    }
  }

  /** A directory of which one subdirectory has other slots. */
  lemma SlotReplaced(d: Context, data: Bytes, slots: seq<Slot>, i: nat, below: seq<Slot>, dir: seq<string>, ancestry: set<nat>)
    requires i < |slots| && slots[i].DirSlot? && SlotHolds(d, slots[i].(slots := below), dir, ancestry)
    requires forall j :: 0 <= j < |slots| && j != i ==> SlotHolds(d, slots[j], dir, ancestry)
    requires 32 * |slots| <= |data| && (|data| < 32 * |slots| + 32 || data[32 * |slots|] == 0)
    requires forall j :: 0 <= j < |slots| ==> EntryHolds(EntryAt(data, j), slots[j], d.decode)
    ensures DirHolds(d, data, slots[i := slots[i].(slots := below)], dir, ancestry)
  {
    hide SlotHolds, EntryHolds, EntryAt, DirHolds;
    var after := slots[i := slots[i].(slots := below)];
    forall j | 0 <= j < |slots|
      ensures EntryHolds(EntryAt(data, j), after[j], d.decode)
    {
      EntryStays(EntryAt(data, j), slots[j], after[j], d.decode);
    }
    DirParts(d, data, after, dir, ancestry);
  }

  lemma EntryStays(e: Entry32, s: Slot, t: Slot, decode: Byte -> char)
    requires EntryHolds(e, s, decode) && (t == s || (s.DirSlot? && t.DirSlot? && t == s.(slots := t.slots)))
    ensures EntryHolds(e, t, decode)
  {}

  lemma {:induction false} SubtreeGrows(c: Context, d: Context, t: Slot, path: seq<nat>, dir: seq<string>, ancestry: set<nat>,
                                        e: Entry32, s: Slot, touched: set<nat>)
    requires t.DirSlot? && ValidPath(t.slots, path) && SlotHolds(c, t, dir, ancestry)
    requires Kept(c, d, Clusters(t.slots), touched) && Apart(t.slots, path, touched)
    requires forall k :: k in t.chain ==> d.v.Next(k) == c.v.Next(k)
    requires path != [] ==> forall k :: k in t.chain ==> SameAt(c.v, d.v, k)
    requires EntryHolds(e, s, d.decode) && NameIsLegal(t, dir) && FileHolds(d, s, DirAt(t.slots, path, PathOf(t, dir)))
    requires Grown(c, d, ChainAt(t.slots, path, t.chain), |SlotsAt(t.slots, path)|, e)
    ensures SlotHolds(d, t.(slots := Insert(t.slots, path, s)), dir, ancestry)
    decreases |path|, 1
  {
    hide Splice, EntryHolds, EntryAt, DirHolds, SlotHolds, IsChain, Contents, Clusters, FileHolds, Apart;
    DirSlotParts(c, t, dir, ancestry);
    ChainInside(c.v, t.first, t.chain);
    var below, data := PathOf(t, dir), Contents(c.v, t.chain);
    ChainStays(c.v, d.v, t.first, t.chain);
    if path != [] {
      ChainFrame(c.v, d.v, t.first, t.chain);
    }
    TreeGrows(c, d, data, t.slots, path, t.chain, below, ancestry + {t.first}, e, s, touched);
    var after := Insert(t.slots, path, s);
    assert NameIsLegal(t.(slots := after), dir) && PathOf(t.(slots := after), dir) == PathOf(t, dir);
    DirSlotParts(d, t.(slots := after), dir, ancestry);
    ChainInside(d.v, t.first, t.chain);
  }

  lemma ChainInside(v: Volume, first: nat, path: seq<nat>)
    requires IsChain(v, first, path)
    ensures AllInside(v, path)
  {}

  /** `SlotHolds` for a directory, part by part. */
  lemma DirSlotParts(c: Context, t: Slot, dir: seq<string>, ancestry: set<nat>)
    requires t.DirSlot?
    ensures SlotHolds(c, t, dir, ancestry) <==>
      && NameIsLegal(t, dir) && IsChain(c.v, t.first, t.chain) && WithinLimits(c.v, c.lim, |t.chain|)
      && (t.chain != [] ==> t.first !in ancestry)
      && DirHolds(c, Contents(c.v, t.chain), t.slots, PathOf(t, dir), ancestry + {t.first})
  {
    hide DirHolds, Contents, WithinLimits;
  }

  // ---------------------------------------------------------------- what is expected afterwards

  /** How many members come before the end of the directory that `path` leads to. */
  function Where(slots: seq<Slot>, path: seq<nat>, dir: seq<string>): nat
    requires ValidPath(slots, path)
    decreases |path|
  {
    if path == [] then |Expected(slots, dir)|
    else
      |Expected(slots[..path[0]], dir)| + 1 + Where(slots[path[0]].slots, path[1..], PathOf(slots[path[0]], dir))
  }

  lemma {:induction false} ExpectedConcat(a: seq<Slot>, b: seq<Slot>, dir: seq<string>)
    ensures Expected(a + b, dir) == Expected(a, dir) + Expected(b, dir)
    decreases |a|
  {
    hide ExpectedSlot;
    if a == [] {
      assert a + b == b;
    } else {
      assert (a + b)[1..] == a[1..] + b;
      ExpectedConcat(a[1..], b, dir);
    }
  }

  lemma ExpectedOne(s: Slot, dir: seq<string>)
    ensures Expected([s], dir) == ExpectedSlot(s, dir)
  {
    hide ExpectedSlot;
    assert [s][1..] == [];
  }

  /** The expected members are those of the tree, with what stands for the new slot at its place. */
  lemma {:induction false} ExpectedInsert(slots: seq<Slot>, path: seq<nat>, dir: seq<string>, s: Slot)
    requires ValidPath(slots, path)
    ensures var all, p := Expected(slots, dir), Where(slots, path, dir);
      && p <= |all|
      && Expected(Insert(slots, path, s), dir) == all[..p] + ExpectedSlot(s, DirAt(slots, path, dir)) + all[p..]
    decreases |path|
  {
    hide Expected, ExpectedSlot, NameIsLegal, PathOf;
    if path == [] {
      ExpectedConcat(slots, [s], dir);
      ExpectedOne(s, dir);
      var all := Expected(slots, dir);
      assert all[..|all|] == all && all[|all|..] == [];
      assert all + ExpectedSlot(s, dir) + [] == all + ExpectedSlot(s, dir);
    } else {
      var i := path[0];
      var t := slots[i];
      var below := PathOf(t, dir);
      var u := t.(slots := Insert(t.slots, path[1..], s));
      ExpectedInsert(t.slots, path[1..], below, s);
      ExpectedAround(slots, i, t, dir);
      assert slots[i := t] == slots;
      ExpectedAround(slots, i, u, dir);
      ExpectedDir(t, u, dir);
      var q := Where(t.slots, path[1..], below);
      InsertInMiddle(Expected(slots[..i], dir), ExpectedSlot(t, dir)[0], Expected(t.slots, below), q,
                     ExpectedSlot(s, DirAt(slots, path, dir)), Expected(slots[i + 1..], dir));
    }
  }

  lemma ExpectedAround(slots: seq<Slot>, i: nat, t: Slot, dir: seq<string>)
    requires i < |slots|
    ensures Expected(slots[i := t], dir)
            == Expected(slots[..i], dir) + (ExpectedSlot(t, dir) + Expected(slots[i + 1..], dir))
  {
    hide Expected, ExpectedSlot;
    assert slots[i := t] == slots[..i] + ([t] + slots[i + 1..]);
    ExpectedConcat(slots[..i], [t] + slots[i + 1..], dir);
    ExpectedConcat([t], slots[i + 1..], dir);
    ExpectedOne(t, dir);
  }

  lemma ExpectedDir(t: Slot, u: Slot, dir: seq<string>)
    requires t.DirSlot? && u.DirSlot? && u == t.(slots := u.slots)
    ensures ExpectedSlot(t, dir) != []
    ensures ExpectedSlot(t, dir) == [ExpectedSlot(t, dir)[0]] + Expected(t.slots, PathOf(t, dir))
    ensures ExpectedSlot(u, dir) == [ExpectedSlot(t, dir)[0]] + Expected(u.slots, PathOf(t, dir))
  {
    hide Expected;
  }

  lemma InsertInMiddle<T>(a: seq<T>, head: T, below: seq<T>, q: nat, x: seq<T>, b: seq<T>)
    requires q <= |below|
    ensures var all, p := a + (([head] + below) + b), |a| + 1 + q;
      a + (([head] + (below[..q] + x + below[q..])) + b) == all[..p] + x + all[p..]
  {
    var all, p := a + (([head] + below) + b), |a| + 1 + q;
    assert all[..p] == a + [head] + below[..q] && all[p..] == below[q..] + b;
  }

  // ---------------------------------------------------------------- the whole step

  /** The data of the directory that `path` leads to. */
  ghost function DataAt(c: Context, slots: seq<Slot>, rootChain: seq<nat>, path: seq<nat>): Bytes
    requires ValidPath(slots, path)
  {
    var chain := ChainAt(slots, path, rootChain);
    if path == [] && c.v.bpb.kind != Fat32 then RootData(c.v)
    else if AllInside(c.v, chain) then Contents(c.v, chain) else []
  }

  /** Where the next entry of that directory is stored. */
  function PlaceAt(v: Volume, slots: seq<Slot>, rootChain: seq<nat>, path: seq<nat>): Place
    requires ValidPath(slots, path)
  {
    var n, perCluster := |SlotsAt(slots, path)|, v.bpb.ClusterSize() / 32;
    var chain := ChainAt(slots, path, rootChain);
    if path == [] && v.bpb.kind != Fat32 then FixedRoot(n)
    else if perCluster == 0 || |chain| <= n / perCluster then FixedRoot(v.bpb.rootEntries)
    else InCluster(chain[n / perCluster], 32 * (n % perCluster))
  }

  /** There is room for a file in the directory that `path` leads to: its clusters are not in use; the directory has a slot
      left behind which it ends; and the cluster of that slot belongs to no other chain. */
  ghost predicate HasRoom(c: Context, slots: seq<Slot>, rootChain: seq<nat>, path: seq<nat>, e: Entry32, s: Slot, data: Bytes) {
    && VolumeHolds(c, slots, rootChain) && ValidPath(slots, path)
    && s.FileSlot? && EntryHolds(e, s, c.decode) && NameIsLegal(s, DirAt(slots, path, []))
    && s.chain != [] && s.first == s.chain[0] && s.content <= data
    && Usable(c.v, s.chain) && |data| == |s.chain| * c.v.bpb.ClusterSize() && WithinLimits(c.v, c.lim, |s.chain|)
    && (forall k :: k in s.chain ==> k !in Clusters(slots) && (c.v.bpb.kind == Fat32 ==> k !in rootChain))
    && var n, at, place := |SlotsAt(slots, path)|, DataAt(c, slots, rootChain, path), PlaceAt(c.v, slots, rootChain, path);
       && 32 * n + 32 <= |at| && (32 * n + 32 < |at| ==> at[32 * n + 32] == 0)
       && Apart(slots, path, Touched(place))
       && (path != [] && c.v.bpb.kind == Fat32 ==> forall k :: k in rootChain ==> k !in Touched(place))
  }

  /** The same on a volume whose parts are placed one behind the other, in clusters of whole directory entries. */
  ghost predicate CanAdd(c: Context, slots: seq<Slot>, rootChain: seq<nat>, path: seq<nat>, e: Entry32, s: Slot, data: Bytes) {
    HasRoom(c, slots, rootChain, path, e, s, data) && Writable(c.v, s.chain) && c.v.bpb.ClusterSize() % 32 == 0
  }

  /** Clusters of an accepted volume hold a whole number of directory entries. */
  lemma ClustersHoldEntries(image: Bytes)
    requires ReadBpb(image).Some?
    ensures ReadBpb(image).value.ClusterSize() % 32 == 0
  {
    var b := ReadBpb(image).value;
    assert b.bytesPerSector == 32 * (b.bytesPerSector / 32);
    Multiple(b.bytesPerSector / 32, b.sectorsPerCluster);
  }

  lemma Multiple(a: nat, b: nat)
    ensures (32 * a) * b % 32 == 0
  {
    assert (32 * a) * b == 32 * (a * b);
  }

  /** An accepted volume that has room is such a volume. */
  lemma RoomSuffices(c: Context, slots: seq<Slot>, rootChain: seq<nat>, path: seq<nat>, e: Entry32, s: Slot, data: Bytes)
    requires ReadBpb(c.v.image) == Some(c.v.bpb) && HasRoom(c, slots, rootChain, path, e, s, data)
    ensures CanAdd(c, slots, rootChain, path, e, s, data)
    ensures PlaceIsSound(c.v, PlaceAt(c.v, slots, rootChain, path))
  {
    assert Usable(c.v, s.chain) && s.chain != [] by {
      hide VolumeHolds, EntryHolds, Apart, NameIsLegal, WithinLimits, DirAt, DataAt, Clusters, Usable;
    }
    AcceptedIsWritable(c.v, s.chain);
    assert CanAdd(c, slots, rootChain, path, e, s, data) by {
      hide HasRoom, Writable;
    }
    hide HasRoom, Writable;
    PlaceIsInside(c, slots, rootChain, path, e, s, data);
  }

  /** The checks of an accepted boot sector place the parts of a volume that has a cluster. */
  lemma AcceptedIsWritable(v: Volume, chain: seq<nat>)
    requires ReadBpb(v.image) == Some(v.bpb) && Usable(v, chain) && chain != []
    ensures Writable(v, chain) && v.bpb.ClusterSize() % 32 == 0
  {
    hide ReadBpb;
    BpbGeometry(v.image);
    ClustersHoldEntries(v.image);
    assert 2 <= chain[0] && v.Inside(chain[0]);
    Scale(0, chain[0] - 2, v.bpb.ClusterSize());
  }

  lemma PlaceIsInside(c: Context, slots: seq<Slot>, rootChain: seq<nat>, path: seq<nat>, e: Entry32, s: Slot, data: Bytes)
    requires CanAdd(c, slots, rootChain, path, e, s, data)
    ensures PlaceIsSound(c.v, PlaceAt(c.v, slots, rootChain, path))
  {
    hide VolumeHolds, EntryHolds, Apart, NameIsLegal, Writable, Clusters, WithinLimits, DirAt, Contents, PlaceIsSound,
         WellPlaced;
    var chain := ChainAt(slots, path, rootChain);
    if path == [] && c.v.bpb.kind != Fat32 {
      TableIsPlaced(c.v, s.chain);
      RootPlace(c.v, |SlotsAt(slots, path)|);
    } else {
      assert AllInside(c.v, chain);
      ChainPlace(c.v, chain, |SlotsAt(slots, path)|);
    }
  }

  lemma RootPlace(v: Volume, n: nat)
    requires WellPlaced(v) && 32 * n + 32 <= |RootData(v)|
    ensures PlaceIsSound(v, FixedRoot(n))
  {
    TableInPlace(v);
  }

  lemma ChainPlace(v: Volume, chain: seq<nat>, n: nat)
    requires AllInside(v, chain) && v.bpb.ClusterSize() % 32 == 0 && 32 * n + 32 <= |Contents(v, chain)|
    ensures var m := v.bpb.ClusterSize() / 32;
      0 < m && n / m < |chain| && PlaceIsSound(v, InCluster(chain[n / m], 32 * (n % m)))
  {
    hide Contents;
    EntryInCluster(|chain|, v.bpb.ClusterSize(), n);
  }

  lemma TableIsPlaced(v: Volume, chain: seq<nat>)
    requires Writable(v, chain)
    ensures WellPlaced(v)
  {}

  /** The n-th entry of a chain lies in one cluster. */
  lemma EntryInCluster(length: nat, size: nat, n: nat)
    requires size % 32 == 0 && 32 * n + 32 <= length * size
    ensures 0 < size / 32 && n / (size / 32) < length && 32 * (n % (size / 32)) + 32 <= size
    ensures n / (size / 32) * size + 32 * (n % (size / 32)) == 32 * n
  {
    var m := size / 32;
    assert size == 32 * m;
    if m != 0 {
      var k, r := n / m, n % m;
      assert n == m * k + r;
      assert k * size == 32 * (m * k) by {
        assert k * (32 * m) == 32 * (m * k);
      }
      if length <= k {
        Scale(length, k, size);
      }
    }
  }

  /** The volume with the file. */
  function AddFile(v: Volume, p: Place, e: Entry32, chain: seq<nat>, data: Bytes): (w: Volume)
    requires Writable(v, chain) && |data| == |chain| * v.bpb.ClusterSize() && PlaceIsSound(v, p)
    ensures w.bpb == v.bpb && |w.image| == |v.image|
  {
    TableIsPlaced(v, chain);
    FrontIsKept(v, chain, data);
    assert PlaceIsSound(WriteChain(v, chain, data), p);
    PutEntry(WriteChain(v, chain, data), p, e)
  }

  /** Outside the file's clusters and the written place nothing changes; the file is a chain with its data. */
  lemma AddFileIsConfined(v: Volume, p: Place, e: Entry32, chain: seq<nat>, data: Bytes, k: nat)
    requires Writable(v, chain) && |data| == |chain| * v.bpb.ClusterSize() && PlaceIsSound(v, p) && k !in chain
    ensures AddFile(v, p, e, chain, data).Next(k) == v.Next(k)
    ensures k !in Touched(p) ==> SameAt(v, AddFile(v, p, e, chain, data), k)
  {
    hide WriteChain, PutEntry, Entry;
    TableIsPlaced(v, chain);
    FrontIsKept(v, chain, data);
    WriteIsConfined(v, chain, data, k);
    PutIsConfined(WriteChain(v, chain, data), p, e, k);
  }

  lemma SoundStays(v: Volume, w: Volume, p: Place)
    requires PlaceIsSound(v, p) && v.bpb == w.bpb && |v.image| == |w.image|
    ensures PlaceIsSound(w, p)
  {}

  lemma AddedFileReads(v: Volume, p: Place, e: Entry32, chain: seq<nat>, data: Bytes)
    requires Writable(v, chain) && |data| == |chain| * v.bpb.ClusterSize() && PlaceIsSound(v, p)
    requires chain != [] && forall k :: k in chain ==> k !in Touched(p)
    ensures var w := AddFile(v, p, e, chain, data); IsChain(w, chain[0], chain) && Contents(w, chain) == data
  {
    hide WriteChain, PutEntry, Entry, IsChain, Contents, SameAt, PlaceIsSound, Writable;
    TableIsPlaced(v, chain);
    FrontIsKept(v, chain, data);
    WrittenChainReads(v, chain, data);
    SoundStays(v, WriteChain(v, chain, data), p);
    forall k | k in chain
      ensures SameAt(WriteChain(v, chain, data), AddFile(v, p, e, chain, data), k)
    {
      PutIsConfined(WriteChain(v, chain, data), p, e, k);
    }
    ChainFrame(WriteChain(v, chain, data), AddFile(v, p, e, chain, data), chain[0], chain);
  }

  /** A directory stored in a chain has the entry behind its slots. */
  lemma ChainGrows(c: Context, dirChain: seq<nat>, k: nat, offset: nat, n: nat, p: Place, e: Entry32, chain: seq<nat>,
                   data: Bytes)
    requires Writable(c.v, chain) && |data| == |chain| * c.v.bpb.ClusterSize() && PlaceIsSound(c.v, p)
    requires AllInside(c.v, dirChain) && Distinct(dirChain) && forall k :: k in dirChain ==> k !in chain
    requires k < |dirChain| && p == InCluster(dirChain[k], offset) && 32 * n == k * c.v.bpb.ClusterSize() + offset
    requires 32 * n + 32 <= |Contents(c.v, dirChain)|
    ensures var w := AddFile(c.v, p, e, chain, data);
      AllInside(w, dirChain) && Contents(w, dirChain) == Splice(Contents(c.v, dirChain), 32 * n, e)
  {
    hide WriteChain, PutEntry, Entry, Contents, Splice, Bpb.ClusterSize, Writable, PlaceIsSound;
    var w := WriteChain(c.v, chain, data);
    TableIsPlaced(c.v, chain);
    FrontIsKept(c.v, chain, data);
    WriteKeepsChain(c.v, chain, data, dirChain);
    SoundStays(c.v, w, p);
    PutIsRead(w, dirChain, k, offset, 32 * n, e);
  }

  /** Writing a chain keeps the contents of another. */
  lemma WriteKeepsChain(v: Volume, chain: seq<nat>, data: Bytes, other: seq<nat>)
    requires Writable(v, chain) && |data| == |chain| * v.bpb.ClusterSize()
    requires AllInside(v, other) && forall k :: k in other ==> k !in chain
    ensures var w := WriteChain(v, chain, data);
      AllInside(w, other) && Contents(w, other) == Contents(v, other)
  {
    hide WriteChain, Contents, Writable;
    var w := WriteChain(v, chain, data);
    forall i | 0 <= i < |other|
      ensures w.Cluster(other[i]) == v.Cluster(other[i])
    {
      assert other[i] in other;
      WriteIsConfined(v, chain, data, other[i]);
    }
    SameContents(v, w, other);
  }

  lemma {:induction false} ChainAtIsUsed(slots: seq<Slot>, path: seq<nat>, root: seq<nat>)
    requires ValidPath(slots, path)
    ensures forall k :: k in ChainAt(slots, path, root) ==> (path == [] && k in root) || k in Clusters(slots)
    decreases |path|
  {
    if path != [] {
      ClustersOfSlot(slots, path[0]);
      ChainAtIsUsed(slots[path[0]].slots, path[1..], slots[path[0]].chain);
    }
  }

  lemma {:induction false} ChainAtIsLinked(c: Context, data: Bytes, slots: seq<Slot>, path: seq<nat>, root: seq<nat>,
                                           dir: seq<string>, ancestry: set<nat>)
    requires ValidPath(slots, path) && DirHolds(c, data, slots, dir, ancestry)
    ensures path != [] ==> AllInside(c.v, ChainAt(slots, path, root)) && Distinct(ChainAt(slots, path, root))
    decreases |path|
  {
    hide EntryHolds, Contents;
    if path != [] {
      var t := slots[path[0]];
      assert SlotHolds(c, t, dir, ancestry);
      ChainAtIsLinked(c, Contents(c.v, t.chain), t.slots, path[1..], t.chain, PathOf(t, dir), ancestry + {t.first});
    }
  }

  lemma DirectoryIsLinked(c: Context, slots: seq<Slot>, rootChain: seq<nat>, path: seq<nat>)
    requires VolumeHolds(c, slots, rootChain) && ValidPath(slots, path) && (path != [] || c.v.bpb.kind == Fat32)
    ensures AllInside(c.v, ChainAt(slots, path, rootChain)) && Distinct(ChainAt(slots, path, rootChain))
  {
    hide DirHolds, Contents;
    if c.v.bpb.kind == Fat32 {
      ChainAtIsLinked(c, Contents(c.v, rootChain), slots, path, rootChain, [], {c.v.bpb.rootCluster});
    } else {
      ChainAtIsLinked(c, RootData(c.v), slots, path, rootChain, [], {});
    }
  }

  /** The written place is not in the clusters of the file. */
  lemma PlaceIsNotInFile(c: Context, slots: seq<Slot>, rootChain: seq<nat>, path: seq<nat>, e: Entry32, s: Slot, data: Bytes)
    requires CanAdd(c, slots, rootChain, path, e, s, data)
    ensures forall k :: k in s.chain ==> k !in Touched(PlaceAt(c.v, slots, rootChain, path))
    ensures forall k :: k in ChainAt(slots, path, rootChain) && (path != [] || c.v.bpb.kind == Fat32) ==> k !in s.chain
  {
    hide VolumeHolds, EntryHolds, Apart, NameIsLegal, Writable, Usable, WithinLimits, DirAt, Contents, DataAt, Clusters,
         PlaceAt, Touched, ChainAt, SlotsAt;
    ChainAtIsUsed(slots, path, rootChain);
    PlaceIsInChain(c.v, slots, rootChain, path);
  }

  lemma PlaceIsInChain(v: Volume, slots: seq<Slot>, rootChain: seq<nat>, path: seq<nat>)
    requires ValidPath(slots, path)
    ensures forall k :: k in Touched(PlaceAt(v, slots, rootChain, path)) ==>
      k in ChainAt(slots, path, rootChain) && (path != [] || v.bpb.kind == Fat32)
  {
    hide ValidPath, SlotsAt, ChainAt;
  }

  /** What adding the file needs to know about the volume afterwards. */
  lemma TreeIsKept(c: Context, slots: seq<Slot>, rootChain: seq<nat>, path: seq<nat>, e: Entry32, s: Slot, data: Bytes)
    requires CanAdd(c, slots, rootChain, path, e, s, data) && PlaceIsSound(c.v, PlaceAt(c.v, slots, rootChain, path))
    ensures var p := PlaceAt(c.v, slots, rootChain, path);
      Kept(c, c.(v := AddFile(c.v, p, e, s.chain, data)), Clusters(slots), Touched(p))
  {
    hide VolumeHolds, EntryHolds, Apart, NameIsLegal, WithinLimits, DirAt, Contents, DataAt, Clusters, AddFile, PlaceAt,
         SameAt, Writable, PlaceIsSound;
    forall k | k in Clusters(slots)
      ensures k !in s.chain
    {}
    var p := PlaceAt(c.v, slots, rootChain, path);
    forall k | k in Clusters(slots)
      ensures AddFile(c.v, p, e, s.chain, data).Next(k) == c.v.Next(k)
      ensures k !in Touched(p) ==> SameAt(c.v, AddFile(c.v, p, e, s.chain, data), k)
    {
      AddFileIsConfined(c.v, p, e, s.chain, data, k);
    }
  }

  lemma TheFileHolds(c: Context, slots: seq<Slot>, rootChain: seq<nat>, path: seq<nat>, e: Entry32, s: Slot, data: Bytes)
    requires CanAdd(c, slots, rootChain, path, e, s, data) && PlaceIsSound(c.v, PlaceAt(c.v, slots, rootChain, path))
    ensures var d := c.(v := AddFile(c.v, PlaceAt(c.v, slots, rootChain, path), e, s.chain, data));
      FileHolds(d, s, DirAt(slots, path, []))
  {
    hide VolumeHolds, EntryHolds, Apart, DirAt, DataAt, Clusters, AddFile, PlaceAt, IsChain, Contents, Writable,
         PlaceIsSound;
    PlaceIsNotInFile(c, slots, rootChain, path, e, s, data);
    AddedFileReads(c.v, PlaceAt(c.v, slots, rootChain, path), e, s.chain, data);
    ChainInside(AddFile(c.v, PlaceAt(c.v, slots, rootChain, path), e, s.chain, data), s.first, s.chain);
  }

  lemma RoomBehind(c: Context, slots: seq<Slot>, rootChain: seq<nat>, path: seq<nat>, e: Entry32, s: Slot, data: Bytes)
    requires CanAdd(c, slots, rootChain, path, e, s, data)
    ensures VolumeHolds(c, slots, rootChain) && ValidPath(slots, path)
    ensures s.FileSlot? && |data| == |s.chain| * c.v.bpb.ClusterSize() && Writable(c.v, s.chain)
    ensures c.v.bpb.ClusterSize() % 32 == 0
    ensures var chain, n := ChainAt(slots, path, rootChain), |SlotsAt(slots, path)|;
      (path != [] || c.v.bpb.kind == Fat32) && AllInside(c.v, chain) ==>
        && 32 * n + 32 <= |Contents(c.v, chain)|
        && (32 * n + 32 < |Contents(c.v, chain)| ==> Contents(c.v, chain)[32 * n + 32] == 0)
  {
    hide VolumeHolds, EntryHolds, Apart, NameIsLegal, WithinLimits, DirAt, Clusters, Contents, PlaceAt, ChainAt, SlotsAt,
         AllInside, Usable, Writable, RootData;
  }

  /** A directory that is stored in a chain has grown. */
  lemma DirectoryGrows(c: Context, slots: seq<Slot>, rootChain: seq<nat>, path: seq<nat>, e: Entry32, s: Slot, data: Bytes)
    requires CanAdd(c, slots, rootChain, path, e, s, data) && PlaceIsSound(c.v, PlaceAt(c.v, slots, rootChain, path))
    ensures var d := c.(v := AddFile(c.v, PlaceAt(c.v, slots, rootChain, path), e, s.chain, data));
      path != [] || c.v.bpb.kind == Fat32 ==> Grown(c, d, ChainAt(slots, path, rootChain), |SlotsAt(slots, path)|, e)
  {
    hide HasRoom, CanAdd, AddFile, Contents, Writable, Splice, PlaceIsSound, ChainAt, SlotsAt, AllInside, Distinct, Bpb.ClusterSize,
         VolumeHolds;
    RoomBehind(c, slots, rootChain, path, e, s, data);
    if path != [] || c.v.bpb.kind == Fat32 {
      DirectoryIsLinked(c, slots, rootChain, path);
      PlaceIsNotInFile(c, slots, rootChain, path, e, s, data);
      var chain, n := ChainAt(slots, path, rootChain), |SlotsAt(slots, path)|;
      ChainPlace(c.v, chain, n);
      var size := c.v.bpb.ClusterSize();
      EntryInCluster(|chain|, size, n);
      ChainGrows(c, chain, n / (size / 32), 32 * (n % (size / 32)), n, PlaceAt(c.v, slots, rootChain, path), e, s.chain, data);
    }
  }

  /** The root chain of FAT32 is the same path; its data has grown if the file is in the root directory. */
  lemma RootChainGrows(c: Context, slots: seq<Slot>, rootChain: seq<nat>, path: seq<nat>, e: Entry32, s: Slot, data: Bytes)
    requires CanAdd(c, slots, rootChain, path, e, s, data) && PlaceIsSound(c.v, PlaceAt(c.v, slots, rootChain, path))
    requires c.v.bpb.kind == Fat32
    ensures var w := AddFile(c.v, PlaceAt(c.v, slots, rootChain, path), e, s.chain, data);
      && AllInside(c.v, rootChain) && IsChain(w, c.v.bpb.rootCluster, rootChain)
      && (path != [] ==> Contents(w, rootChain) == Contents(c.v, rootChain))
  {
    hide EntryHolds, Apart, NameIsLegal, WithinLimits, DirAt, DataAt, Clusters, AddFile, Contents, Writable, PlaceAt,
         PlaceIsSound, IsChain, DirHolds, SameAt;
    var p := PlaceAt(c.v, slots, rootChain, path);
    var w := AddFile(c.v, p, e, s.chain, data);
    ChainInside(c.v, c.v.bpb.rootCluster, rootChain);
    forall k | k in rootChain
      ensures w.Next(k) == c.v.Next(k) && (path != [] ==> SameAt(c.v, w, k))
    {
      AddFileIsConfined(c.v, p, e, s.chain, data, k);
    }
    ChainStays(c.v, w, c.v.bpb.rootCluster, rootChain);
    if path != [] {
      ChainFrame(c.v, w, c.v.bpb.rootCluster, rootChain);
    }
  }

  /** The fixed root directory has grown if the file is in it, and is the same otherwise. */
  lemma FixedRootGrows(c: Context, slots: seq<Slot>, rootChain: seq<nat>, path: seq<nat>, e: Entry32, s: Slot, data: Bytes)
    requires CanAdd(c, slots, rootChain, path, e, s, data) && PlaceIsSound(c.v, PlaceAt(c.v, slots, rootChain, path))
    requires c.v.bpb.kind != Fat32
    ensures var w := AddFile(c.v, PlaceAt(c.v, slots, rootChain, path), e, s.chain, data);
      if path == [] then 32 * |slots| + 32 <= |RootData(c.v)| && RootData(w) == Splice(RootData(c.v), 32 * |slots|, e)
      else RootData(w) == RootData(c.v)
  {
    hide VolumeHolds, EntryHolds, Apart, NameIsLegal, WithinLimits, DirAt, Clusters, Contents, Writable, WriteChain,
         PutEntry, Splice;
    var w, p := WriteChain(c.v, s.chain, data), PlaceAt(c.v, slots, rootChain, path);
    TableIsPlaced(c.v, s.chain);
    FrontIsKept(c.v, s.chain, data);
    SoundStays(c.v, w, p);
    if path == [] {
      RootIsPut(w, |slots|, e);
    } else {
      DirectoryIsLinked(c, slots, rootChain, path);
      ChainPlace(c.v, ChainAt(slots, path, rootChain), |SlotsAt(slots, path)|);
      PutKeepsFront(w, p, e);
    }
  }

  lemma RootIsPut(v: Volume, n: nat, e: Entry32)
    requires WellPlaced(v) && n < v.bpb.rootEntries
    ensures 32 * n + 32 <= |RootData(v)| && RootData(PutEntry(v, FixedRoot(n), e)) == Splice(RootData(v), 32 * n, e)
  {
    hide Splice;
    TableInPlace(v);
    TableInPlace(PutEntry(v, FixedRoot(n), e));
    SpliceInside(v.image, v.bpb.rootOffset, 32 * v.bpb.rootEntries, 32 * n, e);
  }

  /** The volume with the file holds the tree with the file at the end of its directory. */
  lemma AddFileExtendsTree(c: Context, slots: seq<Slot>, rootChain: seq<nat>, path: seq<nat>, e: Entry32, s: Slot, data: Bytes)
    requires CanAdd(c, slots, rootChain, path, e, s, data)
    ensures PlaceIsSound(c.v, PlaceAt(c.v, slots, rootChain, path))
    ensures VolumeHolds(c.(v := AddFile(c.v, PlaceAt(c.v, slots, rootChain, path), e, s.chain, data)), Insert(slots, path, s),
                        rootChain)
  {
    hide AddFile, PlaceAt, Contents, EntryHolds, Apart, Clusters, NameIsLegal, DirAt, Writable, DirHolds, IsChain;
    PlaceIsInside(c, slots, rootChain, path, e, s, data);
    var p := PlaceAt(c.v, slots, rootChain, path);
    var d := c.(v := AddFile(c.v, p, e, s.chain, data));
    TreeIsKept(c, slots, rootChain, path, e, s, data);
    TheFileHolds(c, slots, rootChain, path, e, s, data);
    DirectoryGrows(c, slots, rootChain, path, e, s, data);
    if c.v.bpb.kind == Fat32 {
      RootChainGrows(c, slots, rootChain, path, e, s, data);
      TreeGrows(c, d, Contents(c.v, rootChain), slots, path, rootChain, [], {c.v.bpb.rootCluster}, e, s, Touched(p));
    } else {
      FixedRootGrows(c, slots, rootChain, path, e, s, data);
      TreeGrows(c, d, RootData(c.v), slots, path, rootChain, [], {}, e, s, Touched(p));
    }
  }

  /** The file as the reader must list it. */
  function NewMember(slots: seq<Slot>, path: seq<nat>, s: Slot): Member
    requires ValidPath(slots, path) && s.FileSlot? && NameIsLegal(s, DirAt(slots, path, []))
  { Member(Join(PathOf(s, DirAt(slots, path, []))), s.raw, |s.content|, s.first, s.attributes, false) }

  /** The reader's view of a volume. */
  lemma MemberIsAdded(c: Context, slots: seq<Slot>, rootChain: seq<nat>, path: seq<nat>, e: Entry32, s: Slot, data: Bytes)
    requires CanAdd(c, slots, rootChain, path, e, s, data)
    requires |Expected(slots, [])| < c.lim.maxFiles
    ensures PlaceIsSound(c.v, PlaceAt(c.v, slots, rootChain, path)) && Listing(c).Ok?
    ensures var d := c.(v := AddFile(c.v, PlaceAt(c.v, slots, rootChain, path), e, s.chain, data));
      var before, p, m := Listing(c).value, Where(slots, path, []), NewMember(slots, path, s);
      && p <= |before| && Listing(d) == Ok(before[..p] + [m] + before[p..])
      && Materialize(d.v, d.lim, m) == Ok(s.content)
  {
    hide AddFile, PlaceAt, Listing, VolumeHolds, Expected, ExpectedSlot, Members, EntryHolds, WithinLimits, Apart, Clusters,
         NameIsLegal, DirAt, Writable, PathOf, DataAt, PlaceIsSound;
    PlaceIsInside(c, slots, rootChain, path, e, s, data);
    AddFileExtendsTree(c, slots, rootChain, path, e, s, data);
    var d := c.(v := AddFile(c.v, PlaceAt(c.v, slots, rootChain, path), e, s.chain, data));
    var all, p, dir := Expected(slots, []), Where(slots, path, []), DirAt(slots, path, []);
    ExpectedInsert(slots, path, [], s);
    FileIsOneMember(s, dir);
    var added := ExpectedSlot(s, dir)[0];
    ListingIsExact(c, slots, rootChain);
    ListingIsExact(d, Insert(slots, path, s), rootChain);
    MembersAround(all, p, added);
    TheFileHolds(c, slots, rootChain, path, e, s, data);
    FileComesBack(d, s, dir);
    FileIsOneMember(s, dir);
  }

  /** From the bytes of an accepted image with room for the file: the image with the file is accepted as well, with the same
      geometry; its listing has one more member, behind the others of its directory and of what is below them, and
      extracting it gives the bytes written; all other members are listed as before, in the same order. */
  lemma AddFileThenList(image: Bytes, lim: Limits, decode: Byte -> char, slots: seq<Slot>, rootChain: seq<nat>,
                        path: seq<nat>, e: Entry32, s: Slot, data: Bytes)
    requires ReadBpb(image).Some?
    requires var c := Context(Volume(image, ReadBpb(image).value), lim, decode);
      HasRoom(c, slots, rootChain, path, e, s, data) && |Expected(slots, [])| < lim.maxFiles
    ensures var c := Context(Volume(image, ReadBpb(image).value), lim, decode);
      && CanAdd(c, slots, rootChain, path, e, s, data) && PlaceIsSound(c.v, PlaceAt(c.v, slots, rootChain, path))
      && var after := AddFile(c.v, PlaceAt(c.v, slots, rootChain, path), e, s.chain, data).image;
      var p, m := Where(slots, path, []), NewMember(slots, path, s);
      && ReadBpb(after) == ReadBpb(image)
      && ListImage(image, lim, decode).Ok?
      && var before := ListImage(image, lim, decode).value;
      && p <= |before| && ListImage(after, lim, decode) == Ok(before[..p] + [m] + before[p..])
      && Materialize(Volume(after, ReadBpb(after).value), lim, m) == Ok(s.content)
  {
    hide ReadBpb, HasRoom, CanAdd, AddFile, PlaceAt, Listing, Expected, Materialize;
    var c := Context(Volume(image, ReadBpb(image).value), lim, decode);
    RoomSuffices(c, slots, rootChain, path, e, s, data);
    MemberIsAdded(c, slots, rootChain, path, e, s, data);
    RoomBehind(c, slots, rootChain, path, e, s, data);
    AddFileKeepsBpb(c.v, PlaceAt(c.v, slots, rootChain, path), e, s.chain, data);
  }

  lemma FileIsOneMember(s: Slot, dir: seq<string>)
    requires s.FileSlot? && NameIsLegal(s, dir)
    ensures ExpectedSlot(s, dir)
            == [Listed(Member(Join(PathOf(s, dir)), s.raw, |s.content|, s.first, s.attributes, false), Some(s.content))]
  {}

  lemma FileComesBack(d: Context, s: Slot, dir: seq<string>)
    requires FileHolds(d, s, dir)
    ensures Materialize(d.v, d.lim, Member(Join(PathOf(s, dir)), s.raw, |s.content|, s.first, s.attributes, false))
            == Ok(s.content)
  {
    hide Materialize, IsChain, Contents;
    ChainInside(d.v, s.first, s.chain);
    assert SlotHolds(d, s, dir, {});
    FileIsRecovered(d, s, dir, {});
    FileIsOneMember(s, dir);
  }

  lemma MembersAround(all: seq<Listed>, p: nat, added: Listed)
    requires p <= |all|
    ensures Members(all[..p] + [added] + all[p..]) == Members(all)[..p] + [added.member] + Members(all)[p..]
  {
    hide Members;
    assert all == all[..p] + all[p..];
    MembersOfConcat(all[..p], all[p..]);
    MembersOfConcat(all[..p] + [added], all[p..]);
    MembersOfConcat(all[..p], [added]);
    assert Members([added]) == [added.member];
  }

  /** A volume with an added file is still recognised, with the same geometry. */
  lemma AddFileKeepsBpb(v: Volume, p: Place, e: Entry32, chain: seq<nat>, data: Bytes)
    requires Writable(v, chain) && |data| == |chain| * v.bpb.ClusterSize() && PlaceIsSound(v, p)
    ensures ReadBpb(AddFile(v, p, e, chain, data).image) == ReadBpb(v.image)
  {
    hide WriteChain, PutEntry, ReadBpb;
    TableIsPlaced(v, chain);
    FrontIsKept(v, chain, data);
    SoundStays(v, WriteChain(v, chain, data), p);
    PutKeepsFront(WriteChain(v, chain, data), p, e);
    BpbFromFirstSector(v.image, AddFile(v, p, e, chain, data).image);
  }
}
