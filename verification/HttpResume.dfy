/**
  Resumed HTTP downloads (src/rab/acquisition.py, `acquire_http` and `_stream_response`), with the range
  fields of RFC 9110 (sections 14.4 and 15.3.7). The server is arbitrary: it answers each request of each
  attempt as it likes, and any transfer may break off after any chunk.
*/
module HttpResume {
  import opened Common
  import opened Text

  type ObjectId = string

  /** How reading ends: by itself, by an exception that is retried, or by one that is not, like IncompleteRead. */
  datatype Reading = Ends | Breaks | Dies

  /** A response body as it arrives. */
  datatype Body = Body(chunks: seq<Bytes>, reading: Reading)

  /** A response; opening it may fail, with an exception that is retried or not. A refused range is such a failure. */
  datatype Response = OpenFails(retried: bool) | Opened(status: nat, contentRange: string, body: Body)

  /** How handing over a completed file ends: ingested, an exception that is retried, or another one. */
  datatype Handover = Ingested | RetryableFailure | FatalFailure

  /** The surroundings of a download: the server's answer to a request of an attempt, by the offset the
      request asks to start from; free space; and the archive. */
  datatype World = World(server: (nat, Option<nat>) -> Response, space: nat -> bool, archive: nat -> Handover,
                         sha: Bytes -> ObjectId)

  datatype Failure = Exhausted | Fatal

  function Joined(chunks: seq<Bytes>): Bytes {
    if chunks == [] then [] else Joined(chunks[..|chunks| - 1]) + chunks[|chunks| - 1]
  }

  lemma {:induction false} DecimalIsInjective(a: nat, b: nat)
    requires Decimal(a) == Decimal(b)
    ensures a == b
  {
    var s, t := Decimal(a), Decimal(b);
    if 10 <= a && 10 <= b {
      assert s[..|s| - 1] == Decimal(a / 10) && t[..|t| - 1] == Decimal(b / 10);
      DecimalIsInjective(a / 10, b / 10);
      assert s[|s| - 1] == Digit(a % 10) && t[|t| - 1] == Digit(b % 10);
    }
  }

  /** The start of a Content-Range field that answers a request from `offset`. */
  function RangeStart(offset: nat): string { "bytes " + Decimal(offset) + "-" }

  /** The closing hyphen makes the check exact: a field that announces `start` passes the check for
      `offset` only if the two are equal. */
  lemma RangeStartIsExact(start: nat, rest: string, offset: nat)
    ensures RangeStart(offset) <= RangeStart(start) + rest <==> start == offset
  {
    hide Decimal;
    if RangeStart(offset) <= RangeStart(start) + rest {
      var a, b := Decimal(offset), Decimal(start);
      var all := RangeStart(start) + rest;
      assert forall i :: 0 <= i < |a| ==> all[6 + i] == a[i] == RangeStart(offset)[6 + i];
      assert all[6 + |a|] == '-' == RangeStart(offset)[6 + |a|];
      assert forall i :: 0 <= i < |b| ==> all[6 + i] == b[i] && b[i] != '-';
      assert all[6 + |b|] == '-';
      assert |a| == |b|;
      assert a == b;
      DecimalIsInjective(offset, start);
    }
  }

  /** Every response serves a slice of `payload`: from its beginning, or from where its Content-Range
      field says when it answers a range request with 206. Bodies may be cut short anywhere. */
  ghost predicate Serves(w: World, payload: Bytes) {
    forall k, range {:trigger w.server(k, range)} :: w.server(k, range).Opened? ==>
      match range
      case None => Joined(w.server(k, range).body.chunks) <= payload
      case Some(_) => w.server(k, range).status == 206 ==> ServesSlice(w.server(k, range), payload)
  }

  ghost predicate ServesSlice(r: Response, payload: Bytes)
    requires r.Opened?
  {
    exists start: nat, rest: string ::
      r.contentRange == "bytes " + Decimal(start) + "-" + rest && start <= |payload| && Joined(r.body.chunks) <= payload[start..]
  }

  /** In attempt `k` everything goes well: a reply to any request that asks for at least one byte is whole, and is
      ingested. */
  ghost predicate GoesWell(w: World, k: nat, payload: Bytes) {
    && w.space(k) && w.archive(k) == Ingested
    && WholeReply(w.server(k, None), 0, payload)
    && forall offset :: 0 < offset < |payload| ==> WholeReply(w.server(k, Some(offset)), offset, payload)
  }

  predicate WholeReply(r: Response, offset: nat, payload: Bytes)
    requires offset <= |payload|
  {
    && r.Opened? && r.body.reading == Ends
    && if offset == 0 then Joined(r.body.chunks) == payload
       else r.status == 206 ==> "bytes " + Decimal(offset) + "-" <= r.contentRange && Joined(r.body.chunks) == payload[offset..]
  }

  /** A range that starts at the end of the payload cannot be satisfied and is refused (RFC 9110, section 15.5.17). */
  predicate RefusesEnd(w: World, k: nat, payload: Bytes) {
    payload != [] ==> w.server(k, Some(|payload|)) == OpenFails(true)
  }

  ghost predicate RefusesEnds(w: World, retries: nat, payload: Bytes) {
    forall k :: 0 <= k <= retries ==> RefusesEnd(w, k, payload)
  }

  /** An attempt that may fail, but not in a way that ends the download. */
  ghost predicate Survives(w: World, k: nat) {
    && w.space(k) && w.archive(k) != FatalFailure
    && forall range {:trigger w.server(k, range)} ::
         match w.server(k, range) case OpenFails(retried) => retried case Opened(_, _, body) => body.reading != Dies
  }

  datatype Attempt = Complete | Retry | Abandon

  function EndOf(reading: Reading): Attempt { match reading case Ends => Complete case Breaks => Retry case Dies => Abandon }

  /** The server serves slices of the payload, whose size and digest are the expected ones. */
  ghost predicate CanComplete(w: World, expectedSize: Option<nat>, expectedSha: Option<ObjectId>, payload: Bytes) {
    Serves(w, payload) && expectedSize == Some(|payload|) && (expectedSha == None || expectedSha == Some(w.sha(payload)))
  }

  /** Some attempt goes well, and none before it ends the download. */
  ghost predicate WellWithin(w: World, retries: nat, payload: Bytes) {
    exists k :: 0 <= k <= retries && GoesWell(w, k, payload) && forall j :: 0 <= j < k ==> Survives(w, j)
  }

  /** The bytes that a partial file has before an attempt. */
  function Before(start: Option<Bytes>): Bytes { if start.Some? then start.value else [] }

  /** The reply whose body an attempt reads: a server that ignores the range is asked again, for everything. */
  function Reply(w: World, k: nat, offset: nat): Response {
    if offset == 0 then w.server(k, None)
    else if w.server(k, Some(offset)).Opened? && w.server(k, Some(offset)).status != 206 then w.server(k, None)
    else w.server(k, Some(offset))
  }

  /** The body continues the partial file. */
  predicate Continues(w: World, k: nat, offset: nat) {
    0 < offset && w.server(k, Some(offset)).Opened? && w.server(k, Some(offset)).status == 206
  }

  /** The body of a reply is read: it is not a partial one from elsewhere, and there is space. */
  predicate IsRead(w: World, k: nat, offset: nat) {
    && Reply(w, k, offset).Opened? && w.space(k)
    && (Continues(w, k, offset) ==> "bytes " + Decimal(offset) + "-" <= Reply(w, k, offset).contentRange)
  }

  /** The file after a transfer that was read. */
  function Arrived(w: World, k: nat, start: Option<Bytes>): Bytes
    requires Reply(w, k, |Before(start)|).Opened?
  {
    var more := Joined(Reply(w, k, |Before(start)|).body.chunks);
    if Continues(w, k, |Before(start)|) then Before(start) + more else more
  }

  /** The transfer ends the download: opening fails for good, there is no space for what would be read, or reading dies. */
  predicate Breakdown(w: World, k: nat, offset: nat) {
    var reply := Reply(w, k, offset);
    match reply
    case OpenFails(retried) => !retried
    case Opened(_, contentRange, body) =>
      && (Continues(w, k, offset) ==> "bytes " + Decimal(offset) + "-" <= contentRange)
      && (!w.space(k) || body.reading == Dies)
  }

  /** The transfer brings a complete file of the expected size and hash. */
  predicate Brings(w: World, k: nat, expectedSize: Option<nat>, expectedSha: Option<ObjectId>, start: Option<Bytes>) {
    && IsRead(w, k, |Before(start)|) && Reply(w, k, |Before(start)|).body.reading == Ends
    && (expectedSize.Some? ==> |Arrived(w, k, start)| == expectedSize.value)
    && (expectedSha.Some? ==> w.sha(Arrived(w, k, start)) == expectedSha.value)
  }

  /** An attempt ends the download without a file. */
  predicate Abandons(w: World, k: nat, expectedSize: Option<nat>, expectedSha: Option<ObjectId>, start: Option<Bytes>) {
    Breakdown(w, k, |Before(start)|) || (Brings(w, k, expectedSize, expectedSha, start) && w.archive(k) == FatalFailure)
  }

  /** An attempt ends the download with the file. */
  predicate Delivers(w: World, k: nat, expectedSize: Option<nat>, expectedSha: Option<ObjectId>, start: Option<Bytes>) {
    Brings(w, k, expectedSize, expectedSha, start) && w.archive(k) == Ingested
  }

  class Download {
    var partial: Option<Bytes>   // the .part file

    constructor ()
      ensures partial == None
    {
      partial := None;
    }

    function Offset(): nat
      reads this
    { if partial.Some? then |partial.value| else 0 }

    /** The partial file holds a beginning of the payload. */
    ghost predicate PrefixOf(payload: Bytes)
      reads this
    { partial.Some? ==> partial.value <= payload }

    /** `_stream_response`: appends to the partial file, or replaces it when the offset is zero. */
    method Stream(body: Body, offset: nat) returns (reading: Reading)
      requires offset == 0 || Offset() == offset
      modifies this
      ensures reading == body.reading
      ensures partial == Some((if offset == 0 then [] else old(partial).value) + Joined(body.chunks))
    {
      if offset == 0 {
        partial := Some([]);
      }
      ghost var base := partial.value;
      assert base + Joined(body.chunks[..0]) == base;
      for i := 0 to |body.chunks|
        invariant partial == Some(base + Joined(body.chunks[..i]))
      {
        assert body.chunks[..i + 1][..i] == body.chunks[..i];
        assert base + Joined(body.chunks[..i]) + body.chunks[i] == base + (Joined(body.chunks[..i]) + body.chunks[i]);
        partial := Some(partial.value + body.chunks[i]);
      }
      assert body.chunks[..|body.chunks|] == body.chunks;
      return body.reading;
    }

    /** The transfer of one attempt, up to the complete partial file. */
    method Transfer(w: World, k: nat, ghost payload: Bytes) returns (end: Attempt)
      modifies this
      ensures end == Complete ==> partial.Some?
      ensures Serves(w, payload) && old(PrefixOf(payload)) ==> PrefixOf(payload)
      // an attempt that goes well completes, unless the partial file is complete already
      ensures GoesWell(w, k, payload) && old(PrefixOf(payload)) && (old(Offset()) == 0 || old(Offset()) < |payload|) ==>
        end == Complete && partial == Some(payload)
      ensures RefusesEnd(w, k, payload) && payload != [] && old(partial) == Some(payload) ==>
        end == Retry && partial == old(partial)
      ensures end == Abandon ==> !Survives(w, k)
      // exactly how it ends
      ensures end == Abandon <==> Breakdown(w, k, old(Offset()))
      ensures end == Complete <==> IsRead(w, k, old(Offset())) && Reply(w, k, old(Offset())).body.reading == Ends
      ensures end == Complete ==> partial == Some(Arrived(w, k, old(partial)))
      // a fresh download is what arrives
      ensures var answer := w.server(k, None);
        old(Offset()) == 0 && answer.Opened? && w.space(k) ==>
          partial == Some(Joined(answer.body.chunks)) && end == EndOf(answer.body.reading)
      // a reply that ignores the range restarts from nothing
      ensures var answer := w.server(k, Some(old(Offset())));
        0 < old(Offset()) && answer.Opened? && answer.status != 206 && partial.Some? ==>
          w.server(k, None).Opened? && partial.value == Joined(w.server(k, None).body.chunks)
      // a partial reply elsewhere than asked for is not used at all
      ensures var answer := w.server(k, Some(old(Offset())));
        0 < old(Offset()) && answer.Opened? && answer.status == 206 && !(RangeStart(old(Offset())) <= answer.contentRange) ==>
          partial == old(partial) && end == Retry
      // otherwise what had arrived is kept
      ensures var answer := w.server(k, Some(old(Offset())));
        0 < old(Offset()) && (answer.OpenFails? || answer.status == 206) ==>
          partial.Some? && old(partial).value <= partial.value
    {
      hide Decimal, Joined;
      var offset := Offset();
      var answer := w.server(k, if offset == 0 then None else Some(offset));
      if answer.OpenFails? {
        return if answer.retried then Retry else Abandon;
      }
      if 0 < offset && answer.status != 206 {
        partial := None;
        answer := w.server(k, None);
        if answer.OpenFails? {
          return if answer.retried then Retry else Abandon;
        }
        offset := 0;
      } else if 0 < offset && !(RangeStart(offset) <= answer.contentRange) {
        return Retry;
      }
      if !w.space(k) {
        return Abandon;
      }
      if 0 < offset && Serves(w, payload) && PrefixOf(payload) {
        SliceContinues(answer, payload, partial.value);
      }
      ghost var have := if offset == 0 then [] else partial.value;
      var reading := Stream(answer.body, offset);
      assert offset == 0 ==> have + Joined(answer.body.chunks) == Joined(answer.body.chunks);
      if GoesWell(w, k, payload) && have <= payload {
        RestCompletes(have, Joined(answer.body.chunks), payload);
      }
      return EndOf(reading);
    }

    /** One attempt: the transfer and the handover of a complete file. `Abandon` is an exception that is not retried. */
    method Try(w: World, k: nat, expectedSize: Option<nat>, expectedSha: Option<ObjectId>, ghost payload: Bytes)
      returns (end: Attempt, id: ObjectId, ghost content: Bytes)
      modifies this
      ensures end == Complete ==>
        && id == w.sha(content) && partial == None
        && (expectedSha.Some? ==> id == expectedSha.value) && (expectedSize.Some? ==> |content| == expectedSize.value)
      ensures Serves(w, payload) && old(PrefixOf(payload)) ==> PrefixOf(payload) && (end == Complete ==> content <= payload)
      ensures CanComplete(w, expectedSize, expectedSha, payload) && old(PrefixOf(payload)) && GoesWell(w, k, payload) ==>
        end == Complete || (payload != [] && old(partial) == Some(payload))
      ensures payload != [] && old(partial) == Some(payload) && RefusesEnd(w, k, payload) ==>
        end == Retry && partial == old(partial)
      ensures end == Abandon ==> !Survives(w, k)
      ensures end == Abandon <==> Abandons(w, k, expectedSize, expectedSha, old(partial))
      ensures end == Complete <==> Delivers(w, k, expectedSize, expectedSha, old(partial))
      ensures end == Complete ==> Brings(w, k, expectedSize, expectedSha, old(partial)) && content == Arrived(w, k, old(partial))
    {
      hide GoesWell, Serves, Joined, Decimal, Breakdown, Reply, Continues, Arrived, IsRead;
      id, content := "", [];
      WellMeansIngested(w, k, payload);
      if PrefixOf(payload) && |payload| <= Offset() && 0 < Offset() {
        assert partial.value == payload[..|payload|] == payload;
      }
      end := Transfer(w, k, payload);
      if end == Complete {
        if expectedSize.Some? && expectedSize.value != |partial.value| {
          return Retry, id, content;
        }
        var complete := partial.value;
        id, content := w.sha(complete), complete;
        partial := None;
        var handover := if expectedSha.Some? && id != expectedSha.value then RetryableFailure else w.archive(k);
        end := match handover case Ingested => Complete case RetryableFailure => Retry case FatalFailure => Abandon;
      }
    }

    /** `acquire_http`. Whatever the server sends, a returned identity is the digest of a complete file
        and the expected one, if one is expected. If the server serves slices of one payload, the partial
        file is a beginning of it after every attempt, and a download of the expected size is the payload.
        `starts` records the partial file at the start of every attempt made. */
    method Acquire(w: World, retries: nat, expectedSize: Option<nat>, expectedSha: Option<ObjectId>, ghost payload: Bytes)
      returns (r: Result<ObjectId, Failure>, ghost content: Bytes, ghost starts: seq<Option<Bytes>>)
      modifies this
      ensures 0 < |starts| <= retries + 1 && starts[0] == old(partial)
      ensures r.Ok? ==> r.value == w.sha(content) && partial == None
      ensures r.Ok? && expectedSha.Some? ==> r.value == expectedSha.value
      ensures r.Ok? && expectedSize.Some? ==> |content| == expectedSize.value
      ensures Serves(w, payload) && old(PrefixOf(payload)) ==> PrefixOf(payload)
      ensures Serves(w, payload) && old(PrefixOf(payload)) && r.Ok? ==> content <= payload
      ensures Serves(w, payload) && old(PrefixOf(payload)) && r.Ok? && expectedSize == Some(|payload|) ==>
        content == payload && r.value == w.sha(payload)
      // one attempt that goes well is enough, if no attempt starts with a complete partial file
      ensures CanComplete(w, expectedSize, expectedSha, payload) && old(PrefixOf(payload)) && WellWithin(w, retries, payload)
              && RefusesEnds(w, retries, payload) ==>
        (r.Ok? <==> payload == [] || forall k :: 0 <= k < |starts| ==> starts[k] != Some(payload))
      // if the first one goes well the partial file before the call decides
      ensures CanComplete(w, expectedSize, expectedSha, payload) && old(PrefixOf(payload)) && GoesWell(w, 0, payload)
              && RefusesEnds(w, retries, payload) ==>
        (r.Ok? <==> payload == [] || old(partial) != Some(payload))
      // and in any case the partial file that is left tells
      ensures CanComplete(w, expectedSize, expectedSha, payload) && old(PrefixOf(payload)) && WellWithin(w, retries, payload)
              && RefusesEnds(w, retries, payload) ==>
        (r.Ok? <==> partial != Some(payload))
      // a complete partial file is never finished
      ensures payload != [] && old(partial) == Some(payload) && RefusesEnds(w, retries, payload) ==>
        r == Err(Exhausted) && partial == old(partial)
      // the last attempt decides, and it is the first one that delivers the file or ends the download
      ensures forall k :: 0 <= k < |starts| - 1 ==>
        !Delivers(w, k, expectedSize, expectedSha, starts[k]) && !Abandons(w, k, expectedSize, expectedSha, starts[k])
      ensures var last := |starts| - 1;
        && (r.Ok? <==> Delivers(w, last, expectedSize, expectedSha, starts[last]))
        && (r == Err(Fatal) <==> Abandons(w, last, expectedSize, expectedSha, starts[last]))
        && (r == Err(Exhausted) ==> last == retries)
        && (r.Ok? ==> IsRead(w, last, |Before(starts[last])|) && content == Arrived(w, last, starts[last]))
    {
      hide GoesWell, Serves, RefusesEnd, Survives, Delivers, Abandons, Arrived, IsRead;
      content, starts := [], [];
      for attempt := 0 to retries + 1
        invariant |starts| == attempt && (if attempt == 0 then partial else starts[0]) == old(partial)
        invariant Serves(w, payload) && old(PrefixOf(payload)) ==> PrefixOf(payload)
        invariant CanComplete(w, expectedSize, expectedSha, payload) && old(PrefixOf(payload))
                  && RefusesEnds(w, retries, payload) ==>
          forall k :: 0 <= k < attempt && GoesWell(w, k, payload) ==> payload != [] && starts[k] == Some(payload)
        invariant payload != [] && Some(payload) in starts && RefusesEnds(w, retries, payload) ==>
          partial == Some(payload)
        invariant forall k :: 0 <= k < attempt ==>
          !Delivers(w, k, expectedSize, expectedSha, starts[k]) && !Abandons(w, k, expectedSize, expectedSha, starts[k])
      {
        starts := starts + [partial];
        var end, id;
        end, id, content := Try(w, attempt, expectedSize, expectedSha, payload);
        if end == Complete {
          return Ok(id), content, starts;
        }
        if end == Abandon {
          return Err(Fatal), content, starts;
        }
      }
      return Err(Exhausted), content, starts;
    }
  }

  /** What is left of a whole reply. */
  function Serve(payload: Bytes, first: bool, range: Option<nat>): Response {
    match range
    case None => Opened(200, "", Body([payload], if first then Breaks else Ends))
    case Some(offset) =>
      if offset < |payload| then Opened(206, "bytes " + Decimal(offset) + "-" + "*/*", Body([payload[offset..]], Ends)) else OpenFails(true)
  }

  /** The first transfer of this server breaks off after its last byte; everything it does later goes well, except that
      it refuses a range that cannot be satisfied. */
  function Strict(payload: Bytes): World {
    World((k: nat, range: Option<nat>) => Serve(payload, k == 0, range), (k: nat) => true, (k: nat) => Ingested,
          (bytes: Bytes) => "")
  }

  lemma StrictServes(payload: Bytes, k: nat, range: Option<nat>)
    ensures Strict(payload).server(k, range) == Serve(payload, k == 0, range)
  {}

  lemma LaterGoesWell(payload: Bytes, k: nat)
    requires 0 < k
    ensures GoesWell(Strict(payload), k, payload) && RefusesEnd(Strict(payload), k, payload)
  {
    var w := Strict(payload);
    OneChunk(payload);
    StrictServes(payload, k, None);
    StrictServes(payload, k, Some(|payload|));
    forall offset | 0 < offset < |payload|
      ensures WholeReply(w.server(k, Some(offset)), offset, payload)
    {
      OneChunk(payload[offset..]);
      StrictServes(payload, k, Some(offset));
    }
  }

  lemma OneChunk(bytes: Bytes)
    ensures Joined([bytes]) == bytes
  {
    assert [bytes][..0] == [] && [] + bytes == bytes;
  }

  /** The download of a payload that arrived completely is never finished, however many attempts follow and although
      each of them would go well with any other partial file. */
  method StuckDownload(payload: Bytes, retries: nat) returns (r: Result<ObjectId, Failure>)
    requires payload != []
    ensures r == Err(Exhausted)
  {
    hide Joined, Decimal, GoesWell, Survives, Serves;
    var w := Strict(payload);
    var download := new Download();
    OneChunk(payload);
    StrictServes(payload, 0, None);
    var end := download.Transfer(w, 0, payload);
    assert end == Retry && download.partial == Some(payload);
    forall k | 0 <= k <= retries
      ensures RefusesEnd(w, k, payload)
    {
      StrictServes(payload, k, Some(|payload|));
    }
    ghost var content, starts;
    r, content, starts := download.Acquire(w, retries, Some(|payload|), None, payload);
  }

  lemma RestCompletes(have: Bytes, more: Bytes, payload: Bytes)
    requires have <= payload
    ensures have + more == payload <==> more == payload[|have|..]
  {
    assert have + payload[|have|..] == payload;
    assert (have + more)[|have|..] == more;
  }

  lemma WellMeansIngested(w: World, k: nat, payload: Bytes)
    ensures GoesWell(w, k, payload) ==> w.space(k) && w.archive(k) == Ingested
  {}

  /** What a checked partial reply adds to a beginning of the payload is its continuation. */
  lemma SliceContinues(answer: Response, payload: Bytes, have: Bytes)
    requires answer.Opened? && ServesSlice(answer, payload) && have <= payload
    requires RangeStart(|have|) <= answer.contentRange
    ensures have + Joined(answer.body.chunks) <= payload
  {
    hide Decimal;
    var start: nat, rest: string :|
      answer.contentRange == "bytes " + Decimal(start) + "-" + rest && start <= |payload| && Joined(answer.body.chunks) <= payload[start..];
    RangeStartIsExact(start, rest, |have|);
    var more := Joined(answer.body.chunks);
    assert payload[|have|..][..|more|] == more;
    assert (have + more) == payload[..|have| + |more|];
  }
}
