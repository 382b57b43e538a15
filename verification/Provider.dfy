/**
  The external malware-analysis queue (src/rab/malware_provider.py, `MalwareProviderManager`). Providers
  are untrusted: every reply is an arbitrary value, checked before anything is stored. The observation
  store is `import_provider_observation` of src/rab/malware.py.
*/
module Provider {
  import opened Common

  type Sha = string
  type JobId = string
  type ObservationId = string

  /** What a request identifier is a digest of, with the suffix of a forced request; the digest is taken
      to be injective. */
  datatype RequestId = RequestId(provider: string, sha: Sha, size: nat, representation: string, profile: string,
                                 version: string, suffix: Option<string>)

  datatype RequestState =
    | PENDING_PROVIDER | SUBMITTED | QUEUED | ACCEPTED | RUNNING | RESULT_READY | IMPORTED | COMPLETE
    | COMPLETE_WITH_WARNINGS | FAILED | CANCELLED | UNAVAILABLE | EXPIRED | REJECTED

  datatype Request = Request(job: Option<JobId>, state: RequestState, created: int, observations: seq<ObservationId>,
                             warnings: nat)

  /** The answer to a submission or a status query: a connection failure, another exception, or fields. */
  datatype Reply =
    | Unreachable
    | Broken
    | Reply(protocolOk: bool, request: Option<RequestId>, job: JobId, jobWellFormed: bool, state: Option<RequestState>)

  /** One observation of a result; `wellFormed` stands for the checks of its own fields. */
  datatype Item = Item(scanner: string, wellFormed: bool, body: string)

  /** An analysis result; `wellFormed` stands for the checks of protocol, fields, profile and timing form. */
  datatype AnalysisResult = AnalysisResult(wellFormed: bool, request: Option<RequestId>, job: JobId, sha: Sha, size: int,
                                           representation: string, profile: string, completed: int, items: seq<Item>)

  datatype ResultReply = ResultUnreachable | ResultBroken | ResultReply(result: AnalysisResult)

  /** A stored observation. */
  datatype Observation = Observation(sha: Sha, representation: string, request: RequestId, job: JobId, completed: int,
                                     item: Item)

  type Store = map<ObservationId, Observation>

  /** How a call ends: with the request, or with an exception. */
  datatype Ending = Returned | Raised

  // ---------------------------------------------------------------- validation

  /** `_validate_accepted`. */
  predicate ValidAccepted(r: Reply, id: RequestId) {
    r.Reply? && r.protocolOk && r.request == Some(id) && r.jobWellFormed
    && r.state in {Some(ACCEPTED), Some(QUEUED), Some(RUNNING)}
  }

  /** `_validate_status`. */
  predicate ValidStatus(r: Reply, id: RequestId, request: Request) {
    r.Reply? && r.protocolOk && r.jobWellFormed && r.request == Some(id) && Some(r.job) == request.job && r.state.Some?
  }

  predicate DistinctScanners(items: seq<Item>) {
    forall i, j :: 0 <= i < j < |items| ==> items[i].scanner != items[j].scanner
  }

  const MAX_OBSERVATIONS: nat := 256

  /** `validate_result`: identity of request, job and input, freshness, and sane observations. */
  predicate ValidResult(r: AnalysisResult, id: RequestId, request: Request) {
    && r.wellFormed
    && r.request == Some(id) && Some(r.job) == request.job
    && r.sha == id.sha && r.size == id.size && r.representation == id.representation
    && r.profile == id.profile && request.created <= r.completed
    && |r.items| <= MAX_OBSERVATIONS
    && (forall i :: 0 <= i < |r.items| ==> r.items[i].wellFormed)
    && DistinctScanners(r.items)
  }

  /** `validate_result`, with its loop and its set of scanners seen. */
  method Validate(r: AnalysisResult, id: RequestId, request: Request) returns (ok: bool)
    ensures ok == ValidResult(r, id, request)
    ensures ok ==>
      && r.request == Some(id) && Some(r.job) == request.job && r.sha == id.sha && r.size == id.size
      && r.representation == id.representation && r.profile == id.profile && request.created <= r.completed
      && |r.items| <= 256 && forall i, j :: 0 <= i < j < |r.items| ==> r.items[i].scanner != r.items[j].scanner
    ensures !ok ==>
      || !r.wellFormed || r.request != Some(id) || Some(r.job) != request.job || r.sha != id.sha || r.size != id.size
      || r.representation != id.representation || r.profile != id.profile || r.completed < request.created || 256 < |r.items|
      || (exists i :: 0 <= i < |r.items| && !r.items[i].wellFormed)
      || exists i, j :: 0 <= i < j < |r.items| && r.items[i].scanner == r.items[j].scanner
  {
    if !r.wellFormed || r.request != Some(id) || Some(r.job) != request.job
       || r.sha != id.sha || r.size != id.size || r.representation != id.representation
       || r.profile != id.profile || r.completed < request.created || MAX_OBSERVATIONS < |r.items| {
      return false;
    }
    var seen := {};
    for i := 0 to |r.items|
      invariant forall s :: s in seen <==> exists k :: 0 <= k < i && r.items[k].scanner == s
      invariant forall k :: 0 <= k < i ==> r.items[k].wellFormed
      invariant DistinctScanners(r.items[..i])
    {
      if r.items[i].scanner in seen || !r.items[i].wellFormed {
        return false;
      }
      seen := seen + {r.items[i].scanner};
    }
    assert r.items[..|r.items|] == r.items;
    return true;
  }

  // ---------------------------------------------------------------- import

  /** The observation recorded for an item: of the request's object and representation. */
  function Observed(r: AnalysisResult, id: RequestId, item: Item): Observation {
    Observation(id.sha, id.representation, id, r.job, r.completed, item)
  }

  /** Storing the observations of a result from the i-th on. It stops at an identifier that is already
      taken by something else. `name` is the digest of job and item, which may collide. */
  function Stored(store: Store, name: (JobId, Item) -> ObservationId, r: AnalysisResult, id: RequestId, i: nat)
    : (Store, bool)
    requires i <= |r.items|
    decreases |r.items| - i
  {
    if i == |r.items| then (store, true)
    else
      var key, value := name(r.job, r.items[i]), Observed(r, id, r.items[i]);
      if key in store && store[key] != value then (store, false)
      else Stored(store[key := value], name, r, id, i + 1)
  }

  /** The identifiers of the first `n` observations of a result. */
  function Names(name: (JobId, Item) -> ObservationId, r: AnalysisResult, n: nat): seq<ObservationId>
    requires n <= |r.items|
  { if n == 0 then [] else Names(name, r, n - 1) + [name(r.job, r.items[n - 1])] }

  lemma {:induction false} NamesAre(name: (JobId, Item) -> ObservationId, r: AnalysisResult, n: nat)
    requires n <= |r.items|
    ensures |Names(name, r, n)| == n && forall i :: 0 <= i < n ==> Names(name, r, n)[i] == name(r.job, r.items[i])
  {
    if 0 < n {
      NamesAre(name, r, n - 1);
    }
  }

  /** What is stored stays as it is, and a complete import has stored every item. */
  lemma {:induction false} StoredGrows(store: Store, name: (JobId, Item) -> ObservationId, r: AnalysisResult, id: RequestId,
                                       i: nat)
    requires i <= |r.items|
    ensures var (after, ok) := Stored(store, name, r, id, i);
      && (forall k :: k in store ==> k in after && after[k] == store[k])
      && (ok ==> forall j :: i <= j < |r.items| ==>
            name(r.job, r.items[j]) in after && after[name(r.job, r.items[j])] == Observed(r, id, r.items[j]))
      && (forall k :: k in after && k !in store ==> exists j :: i <= j < |r.items| && after[k] == Observed(r, id, r.items[j]))
    decreases |r.items| - i
  {
    if i < |r.items| {
      var key, value := name(r.job, r.items[i]), Observed(r, id, r.items[i]);
      if !(key in store && store[key] != value) {
        StoredGrows(store[key := value], name, r, id, i + 1);
      }
    }
  }

  /** A result can be stored exactly when each of its identifiers is free or holds this very observation, and no two of its
      observations have the same identifier without being the same. */
  lemma {:induction false} StoredIff(store: Store, name: (JobId, Item) -> ObservationId, r: AnalysisResult, id: RequestId, i: nat)
    requires i <= |r.items|
    ensures Stored(store, name, r, id, i).1 <==>
      && (forall j :: i <= j < |r.items| && name(r.job, r.items[j]) in store ==>
            store[name(r.job, r.items[j])] == Observation(id.sha, id.representation, id, r.job, r.completed, r.items[j]))
      && (forall j, k :: i <= j < k < |r.items| && name(r.job, r.items[j]) == name(r.job, r.items[k]) ==> r.items[j] == r.items[k])
    decreases |r.items| - i
  {
    if i < |r.items| {
      StoredIff(store[name(r.job, r.items[i]) := Observed(r, id, r.items[i])], name, r, id, i + 1);
    }
  }

  /** Importing what is already stored changes nothing. */
  lemma {:induction false} StoredAgain(store: Store, name: (JobId, Item) -> ObservationId, r: AnalysisResult, id: RequestId,
                                       i: nat)
    requires i <= |r.items|
    requires forall j :: i <= j < |r.items| ==>
      name(r.job, r.items[j]) in store && store[name(r.job, r.items[j])] == Observed(r, id, r.items[j])
    ensures Stored(store, name, r, id, i) == (store, true)
    decreases |r.items| - i
  {
    if i < |r.items| {
      var key, value := name(r.job, r.items[i]), Observed(r, id, r.items[i]);
      assert store[key := value] == store;
      StoredAgain(store, name, r, id, i + 1);
    }
  }

  /** A result that was imported once adds nothing when it is imported again. */
  lemma ImportIsIdempotent(store: Store, name: (JobId, Item) -> ObservationId, r: AnalysisResult, id: RequestId)
    requires Stored(store, name, r, id, 0).1
    ensures var after := Stored(store, name, r, id, 0).0; Stored(after, name, r, id, 0) == (after, true)
  {
    StoredGrows(store, name, r, id, 0);
    StoredAgain(Stored(store, name, r, id, 0).0, name, r, id, 0);
  }

  // ---------------------------------------------------------------- the queue

  /** No provider job belongs to two requests of one provider. */
  ghost predicate JobsAreInjective(requests: map<RequestId, Request>) {
    forall a, b :: a in requests && b in requests && a != b && a.provider == b.provider && requests[a].job.Some? ==>
      requests[a].job != requests[b].job
  }

  /** Stored observations are about the object and the representation of a known request. */
  ghost predicate ObservationsAreOwned(requests: map<RequestId, Request>, store: Store) {
    forall k :: k in store ==>
      var o := store[k]; o.request in requests && o.sha == o.request.sha && o.representation == o.request.representation
  }

  predicate Submittable(request: Request) { request.state in {PENDING_PROVIDER, UNAVAILABLE, FAILED} }

  /** Nothing is asked about a request that has ended or was never submitted. */
  predicate Pollable(request: Request) { request.state !in {IMPORTED, CANCELLED, REJECTED, EXPIRED} && request.job.Some? }

  /** The provider's status, valid for the request, says that a result can be fetched. */
  predicate Ready(status: Reply, id: RequestId, request: Request) {
    ValidStatus(status, id, request) && status.state.value in {COMPLETE, COMPLETE_WITH_WARNINGS, RESULT_READY}
  }

  class MalwareProviderManager {
    const name: (JobId, Item) -> ObservationId
    var requests: map<RequestId, Request>
    var store: Store

    constructor (name: (JobId, Item) -> ObservationId)
      ensures Valid() && requests == map[] && store == map[]
    {
      this.name := name;
      requests, store := map[], map[];
    }

    ghost predicate Valid()
      reads this
    { JobsAreInjective(requests) && ObservationsAreOwned(requests, store) }

    /** `create`: an existing request is returned as it is. */
    method Create(id: RequestId, now: int)
      requires Valid()
      modifies this`requests
      ensures Valid() && id in requests
      ensures requests == if id in old(requests) then old(requests)
                          else old(requests)[id := Request(None, PENDING_PROVIDER, now, [], 0)]
    {
      if id !in requests {
        requests := requests[id := Request(None, PENDING_PROVIDER, now, [], 0)];
      }
    }

    /** Whether another request of the same provider has this job. */
    predicate Replayed(id: RequestId, job: JobId)
      reads this`requests
    {
      exists x :: x in requests && x.provider == id.provider && requests[x].job == Some(job) && x != id
    }

    /** `submit`, of a request that exists. `fixity` is the verification of the payload. */
    method Submit(id: RequestId, fixity: bool, tooLarge: bool, reply: Reply) returns (ending: Ending)
      requires Valid() && id in requests
      modifies this`requests
      ensures Valid() && id in requests && requests == old(requests)[id := requests[id]]
      ensures ending == Raised <==> Submittable(old(requests)[id]) && !fixity
      ensures !Submittable(old(requests)[id]) || !fixity ==> requests == old(requests)
      ensures Submittable(old(requests)[id]) && fixity ==>
        requests[id] == if tooLarge || reply == Broken then old(requests)[id].(state := FAILED)
                        else if reply == Unreachable then old(requests)[id].(state := PENDING_PROVIDER)
                        else if !ValidAccepted(reply, id) || old(Replayed(id, reply.job)) then old(requests)[id].(state := FAILED)
                        else old(requests)[id].(job := Some(reply.job), state := reply.state.value)
      // a job is taken over from an answer to this very request, and only if no other request has it
      ensures requests[id].job != old(requests)[id].job ==>
        && reply.Reply? && reply.request == Some(id) && requests[id].job == Some(reply.job)
        && requests[id].state in {ACCEPTED, QUEUED, RUNNING}
        && forall x :: x in old(requests) && x.provider == id.provider && old(requests)[x].job == Some(reply.job) ==> x == id
      ensures old(requests)[id].state !in {PENDING_PROVIDER, UNAVAILABLE, FAILED} ==> ending == Returned && requests == old(requests)
      ensures old(requests)[id].state in {PENDING_PROVIDER, UNAVAILABLE, FAILED} && fixity && !tooLarge
              && reply.Reply? && reply.protocolOk && reply.jobWellFormed && reply.request == Some(id) && reply.state in {Some(ACCEPTED), Some(QUEUED), Some(RUNNING)}
              && (forall x :: x in old(requests) && x.provider == id.provider && x != id ==> old(requests)[x].job != Some(reply.job)) ==>
        requests[id].job == Some(reply.job) && Some(requests[id].state) == reply.state
    {
      var value := requests[id];
      if !Submittable(value) {
        return Returned;
      }
      if !fixity {
        return Raised;
      }
      if tooLarge || reply == Broken {
        value := value.(state := FAILED);
      } else if reply == Unreachable {
        value := value.(state := PENDING_PROVIDER);
      } else if !ValidAccepted(reply, id) || Replayed(id, reply.job) {
        value := value.(state := FAILED);
      } else {
        value := value.(job := Some(reply.job), state := reply.state.value);
      }
      requests := requests[id := value];
      return Returned;
    }

    /** Exactly when a result can be imported. */
    predicate Importable(known: map<RequestId, Request>, before: Store, id: RequestId, r: AnalysisResult)
      requires id in known
    {
      && ValidResult(r, id, known[id]) && Stored(before, name, r, id, 0).1
      && forall x :: x in known && x.provider == id.provider && known[x].job == Some(r.job) ==> x == id
    }

    /** `import_result`. A result that fails validation, or whose job belongs to another request, stores
        nothing; no import changes or removes what is stored. */
    method Import(id: RequestId, r: AnalysisResult) returns (ending: Ending)
      requires Valid() && id in requests
      modifies this
      ensures Valid()
      ensures !ValidResult(r, id, old(requests)[id]) || old(Replayed(id, r.job)) ==>
        ending == Raised && store == old(store)
      ensures ending == Raised ==> requests == old(requests)
      // an imported result is one for this request, this object and this job, of which no other request knows
      ensures ending == Returned ==>
        && r.request == Some(id) && Some(r.job) == old(requests)[id].job && r.sha == id.sha && r.size == id.size
        && r.representation == id.representation && r.profile == id.profile && old(requests)[id].created <= r.completed
        && forall x :: x in old(requests) && x.provider == id.provider && old(requests)[x].job == Some(r.job) ==> x == id
      // its observations are stored and recorded one by one
      ensures ending == Returned ==>
        && id in requests && requests[id].state == IMPORTED && |requests[id].observations| == |r.items|
        && forall i :: 0 <= i < |r.items| ==>
             var key := requests[id].observations[i];
             && key == name(r.job, r.items[i]) && key in store
             && store[key] == Observation(id.sha, id.representation, id, r.job, r.completed, r.items[i])
      ensures ending == Returned <==> Importable(old(requests), old(store), id, r)
      ensures ending == Returned ==>
        && store == Stored(old(store), name, r, id, 0).0
        && requests == old(requests)[id := old(requests)[id].(observations := Names(name, r, |r.items|), state := IMPORTED)]
      ensures forall k :: k in old(store) ==> k in store && store[k] == old(store)[k]
      ensures forall k :: k in store && k !in old(store) ==>
        store[k].request == id && store[k].sha == id.sha && store[k].representation == id.representation
    {
      hide Valid, ValidResult, Stored, Names;
      StoredGrows(store, name, r, id, 0);
      NamesAre(name, r, |r.items|);
      var value := requests[id];
      if Replayed(id, r.job) {
        return Raised;
      }
      var ok := Validate(r, id, value);
      if !ok {
        return Raised;
      }
      var imported;
      ok, imported := StoreAll(id, r);
      if !ok {
        return Raised;
      }
      Marked(id, value.(observations := imported, state := IMPORTED));
      return Returned;
    }

    /** A request with another state and other observations. */
    method Marked(id: RequestId, value: Request)
      requires Valid() && id in requests && value.job == requests[id].job
      modifies this`requests
      ensures Valid() && requests == old(requests)[id := value]
    {
      requests := requests[id := value];
    }

    /** The loop of `import_result`; it stops at an identifier that is taken. */
    method StoreAll(id: RequestId, r: AnalysisResult) returns (ok: bool, imported: seq<ObservationId>)
      requires Valid() && id in requests
      modifies this`store
      ensures Valid() && (store, ok) == Stored(old(store), name, r, id, 0) && (ok ==> imported == Names(name, r, |r.items|))
      ensures forall k :: k in old(store) ==> k in store && store[k] == old(store)[k]
      ensures forall k :: k in store && k !in old(store) ==>
        store[k].request == id && store[k].sha == id.sha && store[k].representation == id.representation
    {
      hide JobsAreInjective;
      StoredGrows(store, name, r, id, 0);
      imported := [];
      for i := 0 to |r.items|
        invariant Stored(store, name, r, id, i) == Stored(old(store), name, r, id, 0) && imported == Names(name, r, i)
      {
        var key, observation := name(r.job, r.items[i]), Observed(r, id, r.items[i]);
        if key in store {
          if store[key] != observation {
            return false, imported;
          }
          assert store == store[key := observation];
        } else {
          store := store[key := observation];
        }
        imported := imported + [key];
      }
      return true, imported;
    }

    /** `poll`. A request becomes IMPORTED when its result has been stored, or when the provider itself
        claims so in its status; in the second case nothing is stored. */
    method Poll(id: RequestId, status: Reply, result: ResultReply) returns (ending: Ending)
      requires Valid() && id in requests
      modifies this
      ensures Valid() && ending == Returned
      ensures !Pollable(old(requests)[id]) ==> requests == old(requests) && store == old(store)
      ensures id in requests && requests == old(requests)[id := requests[id]] && requests[id].job == old(requests)[id].job
      ensures Pollable(old(requests)[id]) ==>
        requests[id].state == (if status == Unreachable then old(requests)[id].state
                               else if !ValidStatus(status, id, old(requests)[id]) then REJECTED
                               else if !Ready(status, id, old(requests)[id]) || result == ResultUnreachable then status.state.value
                               else if result.ResultReply? && Importable(old(requests), old(store), id, result.result) then IMPORTED
                               else REJECTED)
      ensures old(requests)[id].job == None || old(requests)[id].state in {IMPORTED, CANCELLED, REJECTED, EXPIRED} ==>
        requests == old(requests) && store == old(store)
      // a status of this request and job is taken over, and one that is complete brings in its result if that is possible
      ensures old(requests)[id].job.Some? && old(requests)[id].state !in {IMPORTED, CANCELLED, REJECTED, EXPIRED}
              && status.Reply? && status.protocolOk && status.jobWellFormed && status.request == Some(id)
              && Some(status.job) == old(requests)[id].job && status.state.Some? ==>
        Some(requests[id].state)
        == if status.state.value !in {COMPLETE, COMPLETE_WITH_WARNINGS, RESULT_READY} || result == ResultUnreachable then status.state
           else if result.ResultReply? && Importable(old(requests), old(store), id, result.result) then Some(IMPORTED)
           else Some(REJECTED)
      // a status for another request or another job is not believed
      ensures Pollable(old(requests)[id]) && status.Reply? && (status.request != Some(id) || Some(status.job) != old(requests)[id].job) ==>
        requests[id].state == REJECTED && store == old(store)
      ensures forall k :: k in old(store) ==> k in store && store[k] == old(store)[k]
      ensures forall k :: k in store && k !in old(store) ==>
        store[k].request == id && store[k].sha == id.sha && store[k].representation == id.representation
      ensures requests[id].state == IMPORTED && old(requests)[id].state != IMPORTED ==>
        ValidStatus(status, id, old(requests)[id])
        && (if status.state == Some(IMPORTED) then store == old(store)
            else result.ResultReply? && ValidResult(result.result, id, old(requests)[id])
                 && (store, true) == Stored(old(store), name, result.result, id, 0))
    {
      hide Valid, Stored, ValidResult, Replayed;
      var value := requests[id];
      if !Pollable(value) {
        return Returned;
      }
      if status == Unreachable {
        value := value.(warnings := value.warnings + 1);
      } else if !ValidStatus(status, id, value) {
        value := value.(state := REJECTED);
      } else {
        value := value.(state := status.state.value);
        if value.state in {COMPLETE, COMPLETE_WITH_WARNINGS, RESULT_READY} {
          match result {
            case ResultUnreachable => value := value.(warnings := value.warnings + 1);
            case ResultBroken => value := value.(state := REJECTED);
            case ResultReply(r) =>
              var imported := Import(id, r);
              if imported == Returned {
                return Returned;
              }
              value := value.(state := REJECTED);
          }
        }
      }
      Marked(id, value);
      return Returned;
    }

    /** `cancel`: a submitted request is cancelled only when the provider confirms it. */
    method Cancel(id: RequestId, confirmed: bool) returns (ending: Ending)
      requires Valid() && id in requests
      modifies this`requests
      ensures Valid() && ending == if old(requests)[id].job.Some? && !confirmed then Raised else Returned
      ensures requests == if ending == Raised then old(requests)
                          else old(requests)[id := old(requests)[id].(state := CANCELLED)]
    {
      if requests[id].job.Some? && !confirmed {
        return Raised;
      }
      requests := requests[id := requests[id].(state := CANCELLED)];
      return Returned;
    }
  }
}
