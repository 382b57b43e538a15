/**
  Directory listing and file extraction of a FAT volume (src/rab/analysis.py,
  `FATAnalyzer.list_members` and `FATAnalyzer.materialize_member`).
*/
module FatDirectory {
  import opened Common
  import opened AnalysisTypes
  import opened FatTable
  import opened FatChain
  import opened SafePath

  /** The volume being read, the limits in force, and the characters of code page 437. */
  datatype Context = Context(v: Volume, lim: Limits, decode: Byte -> char)

  datatype Member = Member(path: string, raw: Bytes, size: nat, first: nat, attributes: Byte, directory: bool)

  type Entry32 = e: Bytes | |e| == 32 witness seq(32, _ => 0)

  // ---------------------------------------------------------------- one 32-byte entry

  function Decoded(raw: Bytes, decode: Byte -> char): string {
    seq(|raw|, i requires 0 <= i < |raw| => decode(raw[i]))
  }

  /** The characters Python's `str.rstrip` removes. */
  predicate IsSpace(c: char) {
    || '\t' <= c <= '\r' || '\U{1c}' <= c <= ' ' || c == '\U{85}' || c == '\U{a0}' || c == '\U{1680}'
    || '\U{2000}' <= c <= '\U{200a}' || c == '\U{2028}' || c == '\U{2029}' || c == '\U{202f}'
    || c == '\U{205f}' || c == '\U{3000}'
  }

  function TrimRight(s: string): string {
    if s != "" && IsSpace(s[|s| - 1]) then TrimRight(s[..|s| - 1]) else s
  }

  /** "BASE.EXT", or "BASE" when the extension is blank. */
  function ShortName(raw: Bytes, decode: Byte -> char): string
    requires |raw| == 11
  {
    var base := TrimRight(Decoded(raw[..8], decode));
    var ext := TrimRight(Decoded(raw[8..], decode));
    base + if ext == "" then "" else "." + ext
  }

  predicate IsDirectory(attributes: Byte) { attributes / 16 % 2 == 1 }

  predicate IsLabel(attributes: Byte) { attributes / 8 % 2 == 1 }

  function FirstCluster(e: Entry32): nat { Little(e[20..22]) * 0x1_0000 + Little(e[26..28]) }

  /** Deleted entries, long-name fragments, volume labels, "." and "..". */
  predicate Skipped(e: Entry32, decode: Byte -> char) {
    e[0] == 0xe5 || e[11] == 0x0f || IsLabel(e[11]) || ShortName(e[..11], decode) in [".", ".."]
  }

  function MemberOf(e: Entry32, path: string): Member {
    Member(path, e[..11], Little(e[28..32]), FirstCluster(e), e[11], IsDirectory(e[11]))
  }

  predicate Descends(m: Member, ancestry: set<nat>) {
    m.directory && 2 <= m.first && m.first !in ancestry
  }

  // ---------------------------------------------------------------- the walk

  /** The members after reading `data` from `offset` on, `members` having been listed before. */
  function Walk(c: Context, data: Bytes, offset: nat, prefix: string, ancestry: set<nat>, members: seq<Member>)
    : (r: Result<seq<Member>, Failure>)
    requires |members| <= c.lim.maxFiles
    ensures r.Ok? ==> members <= r.value && |r.value| <= c.lim.maxFiles
    decreases c.lim.maxFiles - |members|, |data| - offset
  {
    if |data| < offset + 32 || data[offset] == 0 then Ok(members)
    else
      var e: Entry32 := data[offset..offset + 32];
      if Skipped(e, c.decode) then Walk(c, data, offset + 32, prefix, ancestry, members)
      else
        match EntryPath(prefix, ShortName(e[..11], c.decode))
        case Err(failure) => Err(failure)
        case Ok(path) =>
          if |members| == c.lim.maxFiles then Err(LimitReached(MaxFiles))
          else
            var m := MemberOf(e, path);
            match if Descends(m, ancestry) then Below(c, m, ancestry, members + [m]) else Ok(members + [m])
            case Err(failure) => Err(failure)
            case Ok(after) => Walk(c, data, offset + 32, prefix, ancestry, after)
  }

  /** The walk of the directory `m`. */
  function Below(c: Context, m: Member, ancestry: set<nat>, members: seq<Member>)
    : (r: Result<seq<Member>, Failure>)
    requires |members| <= c.lim.maxFiles
    ensures r.Ok? ==> members <= r.value && |r.value| <= c.lim.maxFiles
    decreases c.lim.maxFiles - |members|, |c.v.image| + c.v.bpb.ClusterSize() + c.lim.maxSingleBytes + 1
  {
    match ChainBytes(c.v, c.lim, m.first)
    case Err(failure) => Err(failure)
    case Ok(data) => Walk(c, data, 0, m.path, ancestry + {m.first}, members)
  }

  lemma WalkEnds(c: Context, data: Bytes, offset: nat, prefix: string, ancestry: set<nat>, members: seq<Member>)
    requires |data| < offset + 32 || data[offset] == 0
    requires |members| <= c.lim.maxFiles
    ensures Walk(c, data, offset, prefix, ancestry, members) == Ok(members)
  {}

  lemma WalkSkips(c: Context, data: Bytes, offset: nat, prefix: string, ancestry: set<nat>, members: seq<Member>)
    requires offset + 32 <= |data| && data[offset] != 0 && |members| <= c.lim.maxFiles
    requires Skipped(data[offset..offset + 32], c.decode)
    ensures Walk(c, data, offset, prefix, ancestry, members) == Walk(c, data, offset + 32, prefix, ancestry, members)
  {}

  lemma WalkEntry(c: Context, data: Bytes, offset: nat, prefix: string, ancestry: set<nat>, members: seq<Member>,
                  path: string)
    requires offset + 32 <= |data| && data[offset] != 0 && |members| < c.lim.maxFiles
    requires !Skipped(data[offset..offset + 32], c.decode)
    requires EntryPath(prefix, ShortName(data[offset..offset + 32][..11], c.decode)) == Ok(path)
    ensures var m := MemberOf(data[offset..offset + 32], path);
      var after := if Descends(m, ancestry) then Below(c, m, ancestry, members + [m]) else Ok(members + [m]);
      Walk(c, data, offset, prefix, ancestry, members)
      == match after
         case Err(failure) => Err(failure)
         case Ok(ms) => Walk(c, data, offset + 32, prefix, ancestry, ms)
  {}

  lemma WalkFails(c: Context, data: Bytes, offset: nat, prefix: string, ancestry: set<nat>, members: seq<Member>)
    requires offset + 32 <= |data| && data[offset] != 0 && |members| <= c.lim.maxFiles
    requires !Skipped(data[offset..offset + 32], c.decode)
    ensures var path := EntryPath(prefix, ShortName(data[offset..offset + 32][..11], c.decode));
      && (path.Err? ==> Walk(c, data, offset, prefix, ancestry, members) == Err(path.error))
      && (path.Ok? && |members| == c.lim.maxFiles ==>
            Walk(c, data, offset, prefix, ancestry, members) == Err(LimitReached(MaxFiles)))
  {}

  /** `Below`, and that a member to descend to starts at a cluster that is not on the way. */
  lemma Descent(c: Context, m: Member, ancestry: set<nat>, members: seq<Member>)
    requires |members| <= c.lim.maxFiles && Descends(m, ancestry)
    ensures 2 <= m.first && m.first !in ancestry
    ensures Below(c, m, ancestry, members)
            == match ChainBytes(c.v, c.lim, m.first)
               case Err(failure) => Err(failure)
               case Ok(data) => Walk(c, data, 0, m.path, ancestry + {m.first}, members)
  {}

  function RootData(v: Volume): Bytes {
    Slice(v.image, v.bpb.rootOffset, v.bpb.rootOffset + 32 * v.bpb.rootEntries)
  }

  /** The listing of a volume: from the root chain of FAT32, or from the fixed root directory. */
  function Listing(c: Context): Result<seq<Member>, Failure> {
    if c.v.bpb.kind == Fat32 then
      match ChainBytes(c.v, c.lim, c.v.bpb.rootCluster)
      case Err(failure) => Err(failure)
      case Ok(data) => Walk(c, data, 0, "", {c.v.bpb.rootCluster}, [])
    else Walk(c, RootData(c.v), 0, "", {}, [])
  }

  /** The state of one `list_members` call: the nonlocal `members` and `count`. */
  class FatReader {
    const c: Context
    var members: seq<Member>
    var count: nat

    constructor (c: Context)
      ensures this.c == c && members == [] && count == 0
    {
      this.c := c;
      members, count := [], 0;
    }

    /** The nested `directory`. `trail` holds the clusters of the directories being read: the walk
        goes down only to clusters that are not on it, and each step down has used up one count, so
        the depth never exceeds `maxFiles` whatever the image links to. */
    method Directory(data: Bytes, prefix: string, ancestry: set<nat>, ghost trail: seq<nat>, ghost depth: nat)
      returns (r: Result<(), Failure>)
      requires count == |members| <= c.lim.maxFiles
      requires Distinct(trail) && (set t | t in trail) == ancestry
      requires depth <= count && depth <= |trail| <= depth + 1
      modifies this
      ensures r.Ok? ==> Walk(c, data, 0, prefix, ancestry, old(members)) == Ok(members)
      ensures r.Err? ==> Walk(c, data, 0, prefix, ancestry, old(members)) == Err(r.error)
      ensures r.Ok? ==> count == |members| <= c.lim.maxFiles && old(members) <= members
      decreases c.lim.maxFiles - count, 0
    {
      var offset := 0;
      while offset < |data|
        invariant count == |members| <= c.lim.maxFiles && old(members) <= members
        invariant Walk(c, data, 0, prefix, ancestry, old(members)) == Walk(c, data, offset, prefix, ancestry, members)
        decreases |data| - offset
      {
        hide Walk, Below, EntryPath, ShortName, Skipped, MemberOf, Descends;
        if |data| < offset + 32 || data[offset] == 0 {
          WalkEnds(c, data, offset, prefix, ancestry, members);
          return Ok(());
        }
        var e: Entry32 := data[offset..offset + 32];
        if Skipped(e, c.decode) {
          WalkSkips(c, data, offset, prefix, ancestry, members);
        } else {
          WalkFails(c, data, offset, prefix, ancestry, members);
          var path := EntryPath(prefix, ShortName(e[..11], c.decode));
          if path.Err? {
            return Err(path.error);
          }
          count := count + 1;
          if c.lim.maxFiles < count {
            return Err(LimitReached(MaxFiles));
          }
          var m := MemberOf(e, path.value);
          WalkEntry(c, data, offset, prefix, ancestry, members, path.value);
          members := members + [m];
          if Descends(m, ancestry) {
            var below := Subdirectory(m, ancestry, trail, depth);
            if below.Err? {
              return below;
            }
          }
        }
        offset := offset + 32;
      }
      WalkEnds(c, data, offset, prefix, ancestry, members);
      return Ok(());
    }

    /** The part of `directory` for a member that it descends to. */
    method Subdirectory(m: Member, ancestry: set<nat>, ghost trail: seq<nat>, ghost depth: nat)
      returns (r: Result<(), Failure>)
      requires count == |members| <= c.lim.maxFiles && Descends(m, ancestry)
      requires Distinct(trail) && (set t | t in trail) == ancestry
      requires depth + 1 <= count && depth <= |trail| <= depth + 1
      modifies this
      ensures r.Ok? ==> Below(c, m, ancestry, old(members)) == Ok(members)
      ensures r.Err? ==> Below(c, m, ancestry, old(members)) == Err(r.error)
      ensures r.Ok? ==> count == |members| <= c.lim.maxFiles && old(members) <= members
      decreases c.lim.maxFiles - count, 1
    {
      hide Walk, Below, Descends;
      Descent(c, m, ancestry, members);
      var data := Chain(c.v, c.lim, m.first);
      if data.Err? {
        return Err(data.error);
      }
      assert (set t | t in trail + [m.first]) == ancestry + {m.first};
      r := Directory(data.value, m.path, ancestry + {m.first}, trail + [m.first], depth + 1);
    }

    /** `list_members` behind the boot-sector check. */
    method ListMembers() returns (r: Result<seq<Member>, Failure>)
      requires members == [] && count == 0
      modifies this
      ensures r == Listing(c)
      ensures r.Ok? ==> |r.value| <= c.lim.maxFiles
    {
      var outcome;
      if c.v.bpb.kind == Fat32 {
        var root := Chain(c.v, c.lim, c.v.bpb.rootCluster);
        if root.Err? {
          return Err(root.error);
        }
        outcome := Directory(root.value, "", {c.v.bpb.rootCluster}, [c.v.bpb.rootCluster], 0);
      } else {
        outcome := Directory(RootData(c.v), "", {}, [], 0);
      }
      if outcome.Err? {
        return Err(outcome.error);
      }
      return Ok(members);
    }
  }

  /** `list_members` of an image file. */
  function ListImage(image: Bytes, lim: Limits, decode: Byte -> char): Result<seq<Member>, Failure> {
    match ReadBpb(image)
    case None => Err(MalformedInput)
    case Some(bpb) => Listing(Context(Volume(image, bpb), lim, decode))
  }

  /** `materialize_member`: the bytes written for a member. */
  function Materialize(v: Volume, lim: Limits, m: Member): (r: Result<Bytes, Failure>)
    ensures r.Ok? ==> |r.value| == m.size
  {
    if m.directory then Err(PolicyError)
    else
      match ChainBytes(v, lim, m.first)
      case Err(failure) => Err(failure)
      case Ok(data) => if |data| < m.size then Err(MalformedInput) else Ok(data[..m.size])
  }
}
