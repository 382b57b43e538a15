/**
  The analyzers that the recursive analysis may meet (src/rab/analysis.py): that they keep the size limit of a
  member, which is what the bound on the workspace rests on. The FAT analyzer cuts a chain to the announced
  size; the others copy through `_bounded_copy` and `_bounded_region`.
*/
module Analyzers {
  import opened Common
  import opened AnalysisTypes
  import opened FatChain
  import opened FatDirectory
  import opened BoundedCopy
  import opened VisitRun

  /** A member of a volume as `visit` sees it; its first cluster is what the analyzer remembers. */
  function FoundOf(m: Member): Found { Found(m.path, Some(m.raw), Some(m.size), m.directory, m.first) }

  function AllFound(ms: seq<Member>): seq<Found> { seq(|ms|, i requires 0 <= i < |ms| => FoundOf(ms[i])) }

  function FatExtract(image: Bytes, lim: Limits, f: Found): Extraction {
    match (ReadBpb(image), f.size)
    case (Some(bpb), Some(size)) =>
      (match FatDirectory.Materialize(Volume(image, bpb), lim, Member(f.path, [], size, f.mark, 0, f.directory))
       case Ok(bytes) => Extraction(bytes, None)
       case Err(failure) => Extraction([], Some(failure)))
    case _ => Extraction([], Some(Unexpected))
  }

  /** `FATAnalyzer`, whose answers do not depend on the moment. */
  function FatAnalyzer(lim: Limits, decode: Byte -> char): Analyzer {
    Analyzer("fat", true,
             (now: nat, image: Bytes) =>
               match ListImage(image, lim, decode)
               case Ok(ms) => Ok((AllFound(ms), 0))
               case Err(failure) => Err(failure),
             (now: nat, image: Bytes, f: Found) => FatExtract(image, lim, f))
  }

  /** The FAT analyzer writes what was announced or nothing, so it keeps the limit of every member whose announced
      size passed the check. */
  lemma FatKeepsSize(lim: Limits, decode: Byte -> char)
    ensures FatAnalyzer(lim, decode).KeepsSize(lim)
  {
    forall u: nat, c: Bytes, f: Found | f.SizePasses(lim)
      ensures |FatAnalyzer(lim, decode).extract(u, c, f).written| <= lim.maxSingleBytes
    {
      assert FatAnalyzer(lim, decode).extract(u, c, f) == FatExtract(c, lim, f);
    }
  }

  /** The limit is kept by that check alone: asked for a file of one cluster that is larger than the limit, the
      analyzer writes all of it. */
  lemma FatAloneDoesNot(image: Bytes, lim: Limits, decode: Byte -> char, cluster: nat, size: nat)
    requires ReadBpb(image).Some? && 2 <= cluster && 1 <= lim.maxMembers
    requires IsChain(Volume(image, ReadBpb(image).value), cluster, [cluster])
    requires lim.maxSingleBytes < size <= ReadBpb(image).value.ClusterSize()
    ensures var written := FatAnalyzer(lim, decode).extract(0, image, Found("f", None, Some(size), false, cluster)).written;
      lim.maxSingleBytes < |written| == size
  {
    var v := Volume(image, ReadBpb(image).value);
    ChainPathIsChain(v, lim, cluster, [cluster]);
  }

  /** A volume extracted through `visit` gives each file's bytes: the two models of extraction agree. */
  lemma FatExtractsMember(image: Bytes, lim: Limits, m: Member, bytes: Bytes)
    requires ReadBpb(image).Some? && FatDirectory.Materialize(Volume(image, ReadBpb(image).value), lim, m) == Ok(bytes)
    ensures FatExtract(image, lim, FoundOf(m)) == Extraction(bytes, None)
  {}

  /** Where only the FAT analyzer is installed the workspace is bounded. */
  lemma FatWorldIsBounded(w: World, lim: Limits, decode: Byte -> char)
    requires forall t, b, n :: w.Matches(t, b, n) ==> w.matching(t, b, n) == Ok(Some(FatAnalyzer(lim, decode)))
    ensures w.Bounded(lim)
  {
    FatKeepsSize(lim, decode);
  }

  /** Extraction by `_bounded_copy`: it keeps the limit whatever was announced. */
  method CopyMember(data: Bytes, lim: Limits) returns (x: Extraction)
    ensures |x.written| <= lim.maxSingleBytes
    ensures x.failure == None <==> |data| <= lim.maxSingleBytes
    ensures x.failure == None ==> x.written == data
  {
    var source := new Stream(data);
    var written, failure := Copy(source, lim.maxSingleBytes);
    assert data[0..] == data;
    return Extraction(written, failure);
  }

  /** Extraction by `_bounded_region`. */
  method CopyRegion(data: Bytes, offset: int, size: int, lim: Limits) returns (x: Extraction)
    ensures |x.written| <= lim.maxSingleBytes
    ensures x.failure == None <==> 0 <= offset && 0 <= size <= lim.maxSingleBytes && (size == 0 || offset + size <= |data|)
    ensures x.failure == None ==> x.written == Slice(data, offset, offset + size)
  {
    var source := new Stream(data);
    var written, failure := Region(source, offset, size, lim.maxSingleBytes);
    return Extraction(written, failure);
  }
}
