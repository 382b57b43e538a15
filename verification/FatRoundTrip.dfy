/**
  What the FAT reader is for: a directory tree laid out on a volume comes back, names, order and
  bytes. The layout is declared on the image alone, entry by entry and chain by chain.
*/
module FatRoundTrip {
  import opened Common
  import opened AnalysisTypes
  import opened FatTable
  import opened FatChain
  import opened SafePath
  import opened FatDirectory
  import opened FatEntry

  /** A member together with the bytes it must yield; directories yield none. */
  datatype Listed = Listed(member: Member, content: Option<Bytes>)

  // ---------------------------------------------------------------- layout of a tree on a volume

  /** The i-th 32-byte slot of directory data. */
  function EntryAt(data: Bytes, i: nat): Entry32
    requires 32 * i + 32 <= |data|
  { data[32 * i..32 * i + 32] }

  /** The name is a proper path component, and no drive prefix at the root. */
  predicate NameIsLegal(s: Slot, dir: seq<string>) {
    s.Ignored? || (Clean(s.name.Text()) && ':' !in (dir + [s.name.Text()])[0])
  }

  function PathOf(s: Slot, dir: seq<string>): seq<string>
    requires !s.Ignored?
  { dir + [s.name.Text()] }

  /** The slot's own chain, and for a directory everything below it, is on the volume. A directory
      may not be stored in a cluster that starts one of its ancestors. */
  ghost predicate SlotHolds(c: Context, s: Slot, dir: seq<string>, ancestry: set<nat>)
    decreases s
  {
    && NameIsLegal(s, dir)
    && (!s.Ignored? ==> IsChain(c.v, s.first, s.chain) && WithinLimits(c.v, c.lim, |s.chain|))
    && (s.FileSlot? ==> s.content <= Contents(c.v, s.chain))
    && (s.DirSlot? ==>
          && (s.chain != [] ==> s.first !in ancestry)
          && DirHolds(c, Contents(c.v, s.chain), s.slots, PathOf(s, dir), ancestry + {s.first}))
  }

  /** The directory data spells out the slots in order and then ends. */
  ghost predicate DirHolds(c: Context, data: Bytes, slots: seq<Slot>, dir: seq<string>, ancestry: set<nat>)
    decreases slots
  {
    && 32 * |slots| <= |data|
    && (|data| < 32 * |slots| + 32 || data[32 * |slots|] == 0)
    && (forall i :: 0 <= i < |slots| ==> EntryHolds(EntryAt(data, i), slots[i], c.decode))
    && (forall i :: 0 <= i < |slots| ==> SlotHolds(c, slots[i], dir, ancestry))
  }

  /** The tree `slots` is laid out from the root directory of the volume. */
  ghost predicate VolumeHolds(c: Context, slots: seq<Slot>, rootChain: seq<nat>) {
    if c.v.bpb.kind == Fat32 then
      && IsChain(c.v, c.v.bpb.rootCluster, rootChain) && WithinLimits(c.v, c.lim, |rootChain|)
      && DirHolds(c, Contents(c.v, rootChain), slots, [], {c.v.bpb.rootCluster})
    else
      DirHolds(c, RootData(c.v), slots, [], {})
  }

  // ---------------------------------------------------------------- what must be listed

  /** The expected members: parents before children, slots in order. */
  function Expected(slots: seq<Slot>, dir: seq<string>): seq<Listed>
    decreases slots
  {
    if slots == [] then [] else ExpectedSlot(slots[0], dir) + Expected(slots[1..], dir)
  }

  function ExpectedSlot(s: Slot, dir: seq<string>): seq<Listed>
    decreases s
  {
    match s
    case Ignored => []
    case FileSlot(_, raw, attributes, first, _, content) =>
      [Listed(Member(Join(PathOf(s, dir)), raw, |content|, first, attributes, false), Some(content))]
    case DirSlot(_, raw, attributes, first, _, size, slots) =>
      [Listed(Member(Join(PathOf(s, dir)), raw, size, first, attributes, true), None)] + Expected(slots, PathOf(s, dir))
  }

  function Members(listed: seq<Listed>): (ms: seq<Member>)
    ensures |ms| == |listed| && forall i :: 0 <= i < |ms| ==> ms[i] == listed[i].member
  {
    if listed == [] then [] else [listed[0].member] + Members(listed[1..])
  }

  lemma MembersOfConcat(a: seq<Listed>, b: seq<Listed>)
    ensures Members(a + b) == Members(a) + Members(b)
  {}

  lemma MembersOfCons(slots: seq<Slot>, dir: seq<string>)
    requires slots != []
    ensures Members(Expected(slots, dir))
            == Members(ExpectedSlot(slots[0], dir)) + Members(Expected(slots[1..], dir))
  {
    MembersOfConcat(ExpectedSlot(slots[0], dir), Expected(slots[1..], dir));
  }

  lemma NothingExpected(slots: seq<Slot>, dir: seq<string>)
    requires slots == []
    ensures Members(Expected(slots, dir)) == []
  {}

  // ---------------------------------------------------------------- the walk finds the tree

  lemma {:induction false} WalkFindsSlots(c: Context, data: Bytes, slots: seq<Slot>, k: nat, offset: nat,
                                          dir: seq<string>, ancestry: set<nat>, members: seq<Member>)
    requires k <= |slots| && offset == 32 * k && AllClean(dir) && DirHolds(c, data, slots, dir, ancestry)
    requires |members| + |Expected(slots[k..], dir)| <= c.lim.maxFiles
    ensures Walk(c, data, offset, Join(dir), ancestry, members)
            == Ok(members + Members(Expected(slots[k..], dir)))
    decreases slots, 1, |slots| - k
  {
    hide Walk, Expected, ExpectedSlot, Members;
    if k < |slots| {
      var s, rest := slots[k], slots[k + 1..];
      assert slots[k..][1..] == rest && slots[k..][0] == s;
      var here := ExpectedSlot(s, dir);
      var after := members + Members(here);
      MembersOfCons(slots[k..], dir);
      Regroup(members, Members(here), Members(Expected(rest, dir)));
      WalkFindsSlots(c, data, slots, k + 1, offset + 32, dir, ancestry, after);
      WalkStep(c, data, slots, k, offset, dir, ancestry, members);
    } else {
      WalkEnds(c, data, offset, Join(dir), ancestry, members);
      NothingExpected(slots[k..], dir);
      assert members + [] == members;
    }
  }

  /** Reading one slot adds what the slot stands for and moves on to the next one. */
  lemma {:induction false} WalkStep(c: Context, data: Bytes, slots: seq<Slot>, k: nat, offset: nat,
                                    dir: seq<string>, ancestry: set<nat>, members: seq<Member>)
    requires k < |slots| && offset == 32 * k && AllClean(dir) && DirHolds(c, data, slots, dir, ancestry)
    requires |members| + |ExpectedSlot(slots[k], dir)| <= c.lim.maxFiles
    ensures Walk(c, data, offset, Join(dir), ancestry, members)
            == Walk(c, data, offset + 32, Join(dir), ancestry, members + Members(ExpectedSlot(slots[k], dir)))
    decreases slots, 0
  {
    hide Walk, Below, EntryHolds;
    var s := slots[k];
    var here := ExpectedSlot(s, dir);
    assert EntryHolds(EntryAt(data, k), s, c.decode) && SlotHolds(c, s, dir, ancestry);
    if s.Ignored? {
      EntryIsRead(EntryAt(data, k), s, c.decode, "");
      WalkSkips(c, data, offset, Join(dir), ancestry, members);
      assert members + Members(here) == members;
    } else {
      var m := here[0].member;
      NamedStep(c, data, s, k, dir, ancestry, members);
      if s.DirSlot? {
        var below := Expected(s.slots, PathOf(s, dir));
        MembersOfConcat([here[0]], below);
        assert Members([here[0]]) == [m];
        SubdirectoryFound(c, s, m, dir, ancestry, members + [m]);
        Regroup(members, [m], Members(below));
      } else {
        assert Members(here) == [m];
      }
    }
  }

  /** Reading the entry of a file or directory lists what it stands for. */
  lemma NamedStep(c: Context, data: Bytes, s: Slot, k: nat, dir: seq<string>, ancestry: set<nat>, members: seq<Member>)
    requires 32 * k + 32 <= |data| && EntryHolds(EntryAt(data, k), s, c.decode) && !s.Ignored? && NameIsLegal(s, dir)
    requires AllClean(dir) && |members| < c.lim.maxFiles
    ensures ExpectedSlot(s, dir) != []
    ensures var m := ExpectedSlot(s, dir)[0].member;
      Walk(c, data, 32 * k, Join(dir), ancestry, members)
      == match if Descends(m, ancestry) then Below(c, m, ancestry, members + [m]) else Ok(members + [m])
         case Err(failure) => Err(failure)
         case Ok(ms) => Walk(c, data, 32 * k + 32, Join(dir), ancestry, ms)
  {
    hide Walk, Below, ShortName, MemberOf, Skipped, NameStands, Expected;
    var e, path := EntryAt(data, k), Join(PathOf(s, dir));
    EntryIsRead(e, s, c.decode, path);
    EntryPathExtends(dir, s.name.Text());
    WalkEntry(c, data, 32 * k, Join(dir), ancestry, members, path);
    assert MemberOf(e, path) == ExpectedSlot(s, dir)[0].member;
  }

  lemma Regroup<T>(a: seq<T>, b: seq<T>, c: seq<T>)
    ensures a + (b + c) == a + b + c
  {}

  lemma {:induction false} SubdirectoryFound(c: Context, s: Slot, m: Member, dir: seq<string>, ancestry: set<nat>,
                                             members: seq<Member>)
    requires s.DirSlot? && AllClean(dir) && SlotHolds(c, s, dir, ancestry)
    requires m.directory && m.first == s.first && m.path == Join(PathOf(s, dir))
    requires |members| + |Expected(s.slots, PathOf(s, dir))| <= c.lim.maxFiles
    ensures (if Descends(m, ancestry) then Below(c, m, ancestry, members) else Ok(members))
            == Ok(members + Members(Expected(s.slots, PathOf(s, dir))))
    decreases s
  {
    var path := PathOf(s, dir);
    ChainPathIsChain(c.v, c.lim, s.first, s.chain);
    if Descends(m, ancestry) {
      WalkFindsSlots(c, Contents(c.v, s.chain), s.slots, 0, 0, path, ancestry + {s.first}, members);
      assert s.slots[0..] == s.slots;
    } else {
      assert s.chain == [] && s.slots == [];
      assert members + [] == members;
    }
  }

  /** Listing a volume that holds a tree within the limits gives exactly the tree's members. */
  lemma ListingIsExact(c: Context, slots: seq<Slot>, rootChain: seq<nat>)
    requires VolumeHolds(c, slots, rootChain)
    requires |Expected(slots, [])| <= c.lim.maxFiles
    ensures Listing(c) == Ok(Members(Expected(slots, [])))
  {
    assert slots[0..] == slots;
    if c.v.bpb.kind == Fat32 {
      var root := c.v.bpb.rootCluster;
      if 2 <= root || rootChain == [] {
        ChainPathIsChain(c.v, c.lim, root, rootChain);
      }
      WalkFindsSlots(c, Contents(c.v, rootChain), slots, 0, 0, [], {root}, []);
    } else {
      WalkFindsSlots(c, RootData(c.v), slots, 0, 0, [], {}, []);
    }
    assert [] + Members(Expected(slots, [])) == Members(Expected(slots, []));
  }

  // ---------------------------------------------------------------- the bytes come back

  lemma FileIsRecovered(c: Context, s: Slot, dir: seq<string>, ancestry: set<nat>)
    requires s.FileSlot? && SlotHolds(c, s, dir, ancestry)
    ensures Materialize(c.v, c.lim, ExpectedSlot(s, dir)[0].member) == Ok(s.content)
  {
    ChainPathIsChain(c.v, c.lim, s.first, s.chain);
    var m := ExpectedSlot(s, dir)[0].member;
    assert m.first == s.first && m.size == |s.content| && !m.directory;
    assert ChainBytes(c.v, c.lim, s.first) == Ok(Contents(c.v, s.chain));
    assert Contents(c.v, s.chain)[..|s.content|] == s.content;
  }

  lemma {:induction false} FilesAreRecovered(c: Context, slots: seq<Slot>, dir: seq<string>, ancestry: set<nat>, i: nat)
    requires forall k :: 0 <= k < |slots| ==> SlotHolds(c, slots[k], dir, ancestry)
    requires i < |Expected(slots, dir)| && Expected(slots, dir)[i].content.Some?
    ensures var l := Expected(slots, dir)[i]; Materialize(c.v, c.lim, l.member) == Ok(l.content.value)
    decreases slots
  {
    hide Materialize, SlotHolds, DirHolds, ExpectedSlot, NameIsLegal;
    var s, here, rest := slots[0], ExpectedSlot(slots[0], dir), Expected(slots[1..], dir);
    assert SlotHolds(c, s, dir, ancestry);
    ExpectedShape(s, dir);
    if |here| <= i {
      assert (here + rest)[i] == rest[i - |here|];
      FilesAreRecovered(c, slots[1..], dir, ancestry, i - |here|);
    } else if s.DirSlot? {
      assert (here + rest)[i] == here[i];
      BelowHolds(c, s, dir, ancestry);
      FilesAreRecovered(c, s.slots, PathOf(s, dir), ancestry + {s.first}, i - 1);
    } else {
      assert (here + rest)[i] == here[0];
      FileIsRecovered(c, s, dir, ancestry);
    }
  }

  /** What a slot contributes: nothing, one file, or a directory followed by what is below it. */
  lemma ExpectedShape(s: Slot, dir: seq<string>)
    ensures var here := ExpectedSlot(s, dir);
      here != [] ==>
        && (s.FileSlot? ==> |here| == 1 && here[0].content == Some(s.content))
        && (s.DirSlot? ==> here[0].content == None && here[1..] == Expected(s.slots, PathOf(s, dir)))
        && !s.Ignored?
  {
    hide Expected;
  }

  lemma BelowHolds(c: Context, s: Slot, dir: seq<string>, ancestry: set<nat>)
    requires s.DirSlot? && SlotHolds(c, s, dir, ancestry)
    ensures NameIsLegal(s, dir)
    ensures forall k :: 0 <= k < |s.slots| ==> SlotHolds(c, s.slots[k], PathOf(s, dir), ancestry + {s.first})
  {
    assert DirHolds(c, Contents(c.v, s.chain), s.slots, PathOf(s, dir), ancestry + {s.first});
  }

  /** Round trip: for every image on which a tree is laid out within the limits, listing gives the
      tree's files and directories and nothing else, and extracting any file gives its exact bytes. */
  lemma RoundTrip(image: Bytes, lim: Limits, decode: Byte -> char, slots: seq<Slot>, rootChain: seq<nat>)
    requires ReadBpb(image).Some?
    requires var c := Context(Volume(image, ReadBpb(image).value), lim, decode);
      VolumeHolds(c, slots, rootChain) && |Expected(slots, [])| <= lim.maxFiles
    ensures var c := Context(Volume(image, ReadBpb(image).value), lim, decode);
      var expected := Expected(slots, []);
      && ListImage(image, lim, decode) == Ok(Members(expected))
      && forall i :: 0 <= i < |expected| && expected[i].content.Some? ==>
           Materialize(c.v, lim, expected[i].member) == Ok(expected[i].content.value)
  {
    var c := Context(Volume(image, ReadBpb(image).value), lim, decode);
    ListingIsExact(c, slots, rootChain);
    var expected := Expected(slots, []);
    forall i | 0 <= i < |expected| && expected[i].content.Some?
      ensures Materialize(c.v, lim, expected[i].member) == Ok(expected[i].content.value)
    {
      FilesAreRecovered(c, slots, [], if c.v.bpb.kind == Fat32 then {c.v.bpb.rootCluster} else {}, i);
    }
  }
}
