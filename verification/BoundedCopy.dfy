/**
  Copying a member out of a container under a size limit (src/rab/analysis.py, `_bounded_copy` and
  `_bounded_region`). A source may return fewer bytes than asked for, but none only at its end.
*/
module BoundedCopy {
  import opened Common
  import opened AnalysisTypes

  const CHUNK: nat := 1024 * 1024

  function Min(a: int, b: int): int { if a < b then a else b }

  /** A readable stream over some bytes; how much each read returns is up to the stream. */
  class Stream {
    const data: Bytes
    var position: nat

    constructor (data: Bytes)
      ensures this.data == data && position == 0
    {
      this.data := data;
      position := 0;
    }

    method Seek(offset: nat)
      modifies this
      ensures position == offset
    {
      position := offset;
    }

    /** Returns some, but not necessarily all, of the requested bytes; nothing only at the end. */
    method Read(count: nat) returns (chunk: Bytes)
      requires 0 < count
      modifies this
      ensures |chunk| <= count && position == old(position) + |chunk|
      ensures chunk == Slice(data, old(position), old(position) + |chunk|)
      ensures chunk == [] <==> |data| <= old(position)
    {
      var available := |data| - position;
      if available <= 0 {
        return [];
      }
      var n: nat :| 1 <= n <= count && n <= available;
      chunk := data[position..position + n];
      position := position + n;
    }
  }

  /** What `_bounded_copy` leaves at the destination, and whether it raised. The copy is complete, or
      it is refused because the source is longer than `maximum`; never are more than `maximum` bytes
      written, whatever the source announces about its size. */
  method Copy(source: Stream, maximum: nat) returns (written: Bytes, failure: Option<Failure>)
    requires source.position <= |source.data|
    modifies source
    ensures written <= source.data[old(source.position)..] && |written| <= maximum
    ensures failure == None <==> |source.data| - old(source.position) <= maximum
    ensures failure == None ==> written == source.data[old(source.position)..]
    ensures failure != None ==> failure == Some(LimitReached(MaxSingleBytes))
  {
    written := [];
    var total := 0;
    var start := source.position;
    while true
      invariant start <= source.position <= |source.data| && total == source.position - start == |written|
      invariant written == source.data[start..source.position] && total <= maximum
      decreases |source.data| - source.position
    {
      var chunk := source.Read(Min(CHUNK, maximum - total + 1));
      if chunk == [] {
        break;
      }
      total := total + |chunk|;
      if maximum < total {
        return written, Some(LimitReached(MaxSingleBytes));
      }
      written := written + chunk;
    }
    return written, None;
  }

  /** `_bounded_region`: exactly the declared region of the source, or a refusal. */
  method Region(source: Stream, offset: int, size: int, maximum: nat) returns (written: Bytes, failure: Option<Failure>)
    modifies source
    ensures |written| <= maximum
    ensures failure == None <==> 0 <= offset && 0 <= size <= maximum && (size == 0 || offset + size <= |source.data|)
    ensures failure == None ==> written == Slice(source.data, offset, offset + size) && |written| == size
    ensures failure == Some(LimitReached(MaxSingleBytes)) <==> size < 0 || offset < 0 || maximum < size
    ensures failure != None ==> failure.value in {LimitReached(MaxSingleBytes), MalformedInput}
  {
    written := [];
    if size < 0 || offset < 0 || maximum < size {
      return written, Some(LimitReached(MaxSingleBytes));
    }
    source.Seek(offset);
    var total := 0;
    while total < size
      invariant total == |written| <= size && source.position == offset + total
      invariant total == 0 || source.position <= |source.data|
      invariant written == Slice(source.data, offset, offset + total)
      decreases size - total
    {
      var chunk := source.Read(Min(CHUNK, size - total));
      if chunk == [] {
        return written, Some(MalformedInput);
      }
      total := total + |chunk|;
      written := written + chunk;
    }
    return written, None;
  }
}
