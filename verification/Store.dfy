/**
  The content-addressed store (src/rab/store.py, `Archive.ingest` and `append_event`) as the sequence
  of file and database writes it is. Any number of ingests run interleaved, and each may crash or be
  refused between any two writes; a crash rolls back what its transaction had not committed, and
  keeps every file it had put in place.
*/
module Store {
  import opened Common

  type Sha = string
  type ProcId = nat
  type OccurrenceId = nat

  /** What a caller asks for; `parent` is the object its `derived_from` resolves to. */
  datatype Request = Request(occurrence: OccurrenceId, description: string, parent: Option<Sha>)

  /** An object row; the manifest holds the same data. */
  datatype Record = Record(sha: Sha, description: string, parent: Option<Sha>)

  datatype Occurrence = Occurrence(id: OccurrenceId, sha: Sha, parent: Option<Sha>)

  /** How far an ingest has come. The transaction is open from Inserted or Linked until Committed. */
  datatype Stage =
    | Started
    | Hashed(sha: Sha)
    | Resolved(sha: Sha)
    | Copying(sha: Sha)
    | Copied(sha: Sha, temporary: Bytes)
    | Replaced(sha: Sha)
    | Inserted(row: Record)
    | Manifested(row: Record)
    | Existing(sha: Sha)
    | Linked(pending: Option<Record>, link: Occurrence)
    | Committed(link: Occurrence)
    | EventFiled(link: Occurrence)
    | EventRecorded(link: Occurrence)
    | Done(link: Occurrence)

  datatype Process = Process(request: Request, stage: Stage)

  /** The archive: files on disk, committed tables (`objects` in the order of their commits), the
      holder of the database's write lock, and the ingests under way. */
  datatype State = State(masters: map<Sha, Bytes>, manifests: map<Sha, Record>, objects: seq<Record>,
                         occurrences: set<Occurrence>, eventFiles: set<Occurrence>, eventRows: set<Occurrence>,
                         sidecars: set<Occurrence>, lock: Option<ProcId>, procs: map<ProcId, Process>)

  /** `bytes` is what reading the source file returns, if the step reads it. */
  datatype Action = Spawn(p: ProcId, request: Request) | Step(p: ProcId, bytes: Bytes) | Crash(p: ProcId)

  const INITIAL := State(map[], map[], [], {}, {}, {}, {}, None, map[])

  function Row(objects: seq<Record>, sha: Sha): Option<Record> {
    if objects == [] then None
    else if objects[|objects| - 1].sha == sha then Some(objects[|objects| - 1])
    else Row(objects[..|objects| - 1], sha)
  }

  predicate Known(s: State, sha: Sha) { Row(s.objects, sha).Some? }

  predicate InTransaction(stage: Stage) { stage.Inserted? || stage.Manifested? || stage.Linked? }

  function Move(s: State, p: ProcId, stage: Stage): State
    requires p in s.procs
  { s.(procs := s.procs[p := s.procs[p].(stage := stage)]) }

  /** An exception or a crash: the process is gone and its open transaction is rolled back. */
  function Abort(s: State, p: ProcId): State {
    s.(procs := s.procs - {p}, lock := if s.lock == Some(p) then None else s.lock)
  }

  predicate CanWrite(s: State, p: ProcId) { s.lock == None || s.lock == Some(p) }

  predicate Looks(stage: Stage) { stage.Started? || stage.Hashed? || stage.Resolved? || stage.Copying? }

  predicate Writes(stage: Stage) {
    stage.Copied? || stage.Replaced? || stage.Inserted? || stage.Manifested? || stage.Existing?
  }

  /** The steps that look things up and copy bytes. */
  function Looked(h: Bytes -> Sha, s: State, p: ProcId, bytes: Bytes): State
    requires p in s.procs && Looks(s.procs[p].stage)
  {
    var request := s.procs[p].request;
    match s.procs[p].stage
    case Started => Move(s, p, Hashed(h(bytes)))
    case Hashed(sha) =>
      if request.parent.Some? && !Known(s, request.parent.value) then Abort(s, p) else Move(s, p, Resolved(sha))
    case Resolved(sha) => Move(s, p, if Known(s, sha) then Existing(sha) else Copying(sha))
    case Copying(sha) => if h(bytes) != sha then Abort(s, p) else Move(s, p, Copied(sha, bytes))
  }

  /** The writes up to the commit. */
  function Written(s: State, p: ProcId): State
    requires p in s.procs && Writes(s.procs[p].stage)
  {
    var request := s.procs[p].request;
    match s.procs[p].stage
    case Copied(sha, temporary) => Move(s.(masters := s.masters[sha := temporary]), p, Replaced(sha))
    case Replaced(sha) =>
      if !CanWrite(s, p) then s
      else if Known(s, sha) then Abort(s, p)
      else Move(s.(lock := Some(p)), p, Inserted(Record(sha, request.description, request.parent)))
    case Inserted(row) => Move(s.(manifests := s.manifests[row.sha := row]), p, Manifested(row))
    case Manifested(row) => Move(s, p, Linked(Some(row), Occurrence(request.occurrence, row.sha, request.parent)))
    case Existing(sha) =>
      if request.parent.Some? && Row(s.objects, sha).Some? && Row(s.objects, sha).value.parent != request.parent then Abort(s, p)
      else if !CanWrite(s, p) then s
      else Move(s.(lock := Some(p)), p, Linked(None, Occurrence(request.occurrence, sha, request.parent)))
  }

  /** The commit, and what is recorded behind it. */
  function Concluded(s: State, p: ProcId): State
    requires p in s.procs && !Looks(s.procs[p].stage) && !Writes(s.procs[p].stage)
  {
    match s.procs[p].stage
    case Linked(row, link) =>
      Move(s.(objects := Appended(s, row), occurrences := s.occurrences + {link}, lock := None), p, Committed(link))
    case Committed(link) => Move(s.(eventFiles := s.eventFiles + {link}), p, EventFiled(link))
    case EventFiled(link) =>
      if !CanWrite(s, p) then s else Move(s.(eventRows := s.eventRows + {link}), p, EventRecorded(link))
    case EventRecorded(link) => Move(s.(sidecars := s.sidecars + {link}), p, Done(link))
    case Done(_) => s
  }

  function Appended(s: State, pending: Option<Record>): seq<Record> {
    s.objects + if pending.Some? then [pending.value] else []
  }

  /** The next step of one ingest; one that must wait for the database leaves the state alone. */
  function Advance(h: Bytes -> Sha, s: State, p: ProcId, bytes: Bytes): State
    requires p in s.procs
  {
    if Looks(s.procs[p].stage) then Looked(h, s, p, bytes)
    else if Writes(s.procs[p].stage) then Written(s, p)
    else Concluded(s, p)
  }

  function Next(h: Bytes -> Sha, s: State, a: Action): State {
    match a
    case Spawn(p, request) => if p in s.procs then s else s.(procs := s.procs[p := Process(request, Started)])
    case Step(p, bytes) => if p in s.procs then Advance(h, s, p, bytes) else s
    case Crash(p) => Abort(s, p)
  }

  function Run(h: Bytes -> Sha, s: State, schedule: seq<Action>): State
    decreases |schedule|
  {
    if schedule == [] then s else Run(h, Next(h, s, schedule[0]), schedule[1..])
  }

  // ---------------------------------------------------------------- the invariant

  /** Every master file holds the bytes its directory is named after. */
  ghost predicate MastersHash(h: Bytes -> Sha, s: State) {
    forall sha :: sha in s.masters ==> h(s.masters[sha]) == sha
  }

  /** A row, its master and its manifest; its parent, if any, was committed before it. */
  ghost predicate RowIsBacked(s: State, i: nat)
    requires i < |s.objects|
  {
    var row := s.objects[i];
    && row.sha in s.masters && row.sha in s.manifests && s.manifests[row.sha] == row
    && Row(s.objects[..i], row.sha) == None
    && (row.parent.Some? ==> Row(s.objects[..i], row.parent.value).Some?)
  }

  ghost predicate RowsBacked(s: State) {
    forall i :: 0 <= i < |s.objects| ==> RowIsBacked(s, i)
  }

  predicate ParentAgrees(s: State, sha: Sha, parent: Option<Sha>) {
    Known(s, sha) && (parent.Some? ==> Row(s.objects, sha).value.parent == parent)
  }

  predicate RowIsPending(s: State, row: Record, request: Request) {
    && row == Record(row.sha, request.description, request.parent)
    && !Known(s, row.sha) && row.sha in s.masters
    && (row.parent.Some? ==> Known(s, row.parent.value))
  }

  predicate HasManifest(s: State, row: Record) { row.sha in s.manifests && s.manifests[row.sha] == row }

  /** What holds of an ingest at each stage. */
  predicate StageHolds(h: Bytes -> Sha, s: State, p: Process) {
    var parentKnown := p.request.parent.Some? ==> Known(s, p.request.parent.value);
    match p.stage
    case Started => true
    case Hashed(_) => true
    case Resolved(_) => parentKnown
    case Copying(_) => parentKnown
    case Copied(sha, temporary) => parentKnown && h(temporary) == sha
    case Replaced(sha) => parentKnown && sha in s.masters
    case Inserted(row) => RowIsPending(s, row, p.request)
    case Manifested(row) => RowIsPending(s, row, p.request) && HasManifest(s, row)
    case Existing(sha) => Known(s, sha)
    case Linked(row, link) =>
      && link == Occurrence(p.request.occurrence, link.sha, p.request.parent)
      && (if row.Some? then RowIsPending(s, row.value, p.request) && HasManifest(s, row.value) && link.sha == row.value.sha
          else ParentAgrees(s, link.sha, link.parent))
    case Committed(link) => link in s.occurrences
    case EventFiled(link) => link in s.eventFiles && link in s.occurrences
    case EventRecorded(link) => link in s.eventRows && link in s.eventFiles
    case Done(link) => link in s.sidecars
  }

  ghost predicate StagesHold(h: Bytes -> Sha, s: State) {
    forall p :: p in s.procs ==> StageHolds(h, s, s.procs[p])
  }

  /** At most one transaction writes at a time. */
  ghost predicate LockHeld(s: State) {
    && (s.lock.Some? ==> s.lock.value in s.procs && InTransaction(s.procs[s.lock.value].stage))
    && (forall p :: p in s.procs && InTransaction(s.procs[p].stage) ==> s.lock == Some(p))
  }

  /** Occurrences belong to committed objects of the requested parentage, and what is recorded about an
      occurrence is recorded in order: commit, event file, event row, sidecar. */
  ghost predicate OccurrencesBacked(s: State) {
    && (forall o :: o in s.occurrences ==> ParentAgrees(s, o.sha, o.parent))
    && s.sidecars <= s.eventRows <= s.eventFiles <= s.occurrences
  }

  ghost predicate Inv(h: Bytes -> Sha, s: State) {
    MastersHash(h, s) && RowsBacked(s) && StagesHold(h, s) && LockHeld(s) && OccurrencesBacked(s)
  }

  // ---------------------------------------------------------------- tables only grow

  lemma {:induction false} RowAppend(objects: seq<Record>, more: seq<Record>, sha: Sha)
    requires Row(objects, sha).Some? && forall i :: 0 <= i < |more| ==> Row(objects, more[i].sha).None?
    ensures Row(objects + more, sha) == Row(objects, sha)
  {
    if more == [] {
      assert objects + more == objects;
    } else {
      var n := |more| - 1;
      assert (objects + more)[..|objects| + n] == objects + more[..n];
      RowIsFound(objects, sha);
      RowAppend(objects, more[..n], sha);
    }
  }

  lemma {:induction false} RowIsFound(objects: seq<Record>, sha: Sha)
    ensures Row(objects, sha).Some? ==> Row(objects, sha).value.sha == sha
    ensures Row(objects, sha).None? ==> forall i :: 0 <= i < |objects| ==> objects[i].sha != sha
  {
    if objects != [] {
      RowIsFound(objects[..|objects| - 1], sha);
    }
  }

  /** The parts of the state that facts about other ingests depend on. */
  ghost predicate Grows(s: State, t: State) {
    && (forall sha :: Known(s, sha) ==> Row(t.objects, sha) == Row(s.objects, sha))
    && s.masters.Keys <= t.masters.Keys
    && s.occurrences <= t.occurrences && s.eventFiles <= t.eventFiles && s.eventRows <= t.eventRows
    && s.sidecars <= t.sidecars
  }

  /** An ingest outside a transaction is not disturbed by the progress of others. */
  lemma StageKept(h: Bytes -> Sha, s: State, t: State, p: Process)
    requires Grows(s, t) && StageHolds(h, s, p)
    requires InTransaction(p.stage) ==> t.objects == s.objects && t.manifests == s.manifests
    ensures StageHolds(h, t, p)
  {}

  // ---------------------------------------------------------------- every step keeps the invariant

  lemma CommitGrows(s: State, pending: Option<Record>)
    requires pending.Some? ==> !Known(s, pending.value.sha)
    ensures var objects := s.objects + if pending.Some? then [pending.value] else [];
      forall sha :: Known(s, sha) ==> Row(objects, sha) == Row(s.objects, sha)
    ensures pending.Some? ==> Row(s.objects + [pending.value], pending.value.sha) == pending
  {
    var more := if pending.Some? then [pending.value] else [];
    forall sha | Known(s, sha)
      ensures Row(s.objects + more, sha) == Row(s.objects, sha)
    {
      RowAppend(s.objects, more, sha);
    }
    if pending.Some? {
      assert (s.objects + [pending.value])[..|s.objects|] == s.objects;
    }
  }

  /** Which step writes what. */
  lemma AdvanceWrites(h: Bytes -> Sha, s: State, p: ProcId, bytes: Bytes)
    requires p in s.procs
    ensures var t, stage := Advance(h, s, p, bytes), s.procs[p].stage;
      && t.masters == (if stage.Copied? then s.masters[stage.sha := stage.temporary] else s.masters)
      && t.manifests == (if stage.Inserted? then s.manifests[stage.row.sha := stage.row] else s.manifests)
      && t.objects == (if stage.Linked? then Appended(s, stage.pending) else s.objects)
      && t.occurrences == (if stage.Linked? then s.occurrences + {stage.link} else s.occurrences)
  {
    hide Row, Looked, Written, Concluded, Appended;
    if Looks(s.procs[p].stage) {
      LookedWrites(h, s, p, bytes);
    } else if Writes(s.procs[p].stage) {
      WrittenWrites(s, p);
    } else {
      ConcludedWrites(s, p);
    }
  }

  lemma LookedWrites(h: Bytes -> Sha, s: State, p: ProcId, bytes: Bytes)
    requires p in s.procs && Looks(s.procs[p].stage)
    ensures var t := Looked(h, s, p, bytes); t == s.(lock := t.lock, procs := t.procs)
  {
    hide Row;
  }

  lemma WrittenWrites(s: State, p: ProcId)
    requires p in s.procs && Writes(s.procs[p].stage)
    ensures var t, stage := Written(s, p), s.procs[p].stage;
      t == s.(lock := t.lock, procs := t.procs,
              masters := if stage.Copied? then s.masters[stage.sha := stage.temporary] else s.masters,
              manifests := if stage.Inserted? then s.manifests[stage.row.sha := stage.row] else s.manifests)
  {
    hide Row;
  }

  lemma ConcludedWrites(s: State, p: ProcId)
    requires p in s.procs && !Looks(s.procs[p].stage) && !Writes(s.procs[p].stage)
    ensures var t, stage := Concluded(s, p), s.procs[p].stage;
      t == s.(lock := t.lock, procs := t.procs,
              objects := if stage.Linked? then Appended(s, stage.pending) else s.objects,
              occurrences := if stage.Linked? then s.occurrences + {stage.link} else s.occurrences,
              eventFiles := if stage.Committed? then s.eventFiles + {stage.link} else s.eventFiles,
              eventRows := if stage.EventFiled? && CanWrite(s, p) then s.eventRows + {stage.link} else s.eventRows,
              sidecars := if stage.EventRecorded? then s.sidecars + {stage.link} else s.sidecars)
  {
    hide Row, Appended;
  }

  lemma AdvanceFiles(h: Bytes -> Sha, s: State, p: ProcId, bytes: Bytes)
    requires p in s.procs
    ensures var t, stage := Advance(h, s, p, bytes), s.procs[p].stage;
      && t.eventFiles == (if stage.Committed? then s.eventFiles + {stage.link} else s.eventFiles)
      && t.eventRows == (if stage.EventFiled? && CanWrite(s, p) then s.eventRows + {stage.link} else s.eventRows)
      && t.sidecars == (if stage.EventRecorded? then s.sidecars + {stage.link} else s.sidecars)
  {
    hide Row, Looked, Written, Concluded, Appended, CanWrite;
    if Looks(s.procs[p].stage) {
      LookedWrites(h, s, p, bytes);
    } else if Writes(s.procs[p].stage) {
      WrittenWrites(s, p);
    } else {
      ConcludedWrites(s, p);
    }
  }

  lemma AdvanceGrows(h: Bytes -> Sha, s: State, p: ProcId, bytes: Bytes)
    requires p in s.procs && StagesHold(h, s)
    ensures Grows(s, Advance(h, s, p, bytes))
  {
    hide Row, Advance;
    AdvanceWrites(h, s, p, bytes);
    AdvanceFiles(h, s, p, bytes);
    assert StageHolds(h, s, s.procs[p]);
    if s.procs[p].stage.Linked? {
      CommitGrows(s, s.procs[p].stage.pending);
    }
  }

  lemma AdvanceOwnStage(h: Bytes -> Sha, s: State, p: ProcId, bytes: Bytes)
    requires p in s.procs && StagesHold(h, s)
    ensures var t := Advance(h, s, p, bytes); p in t.procs ==> StageHolds(h, t, t.procs[p])
  {
    hide Row, Looked, Written, Concluded, StageHolds;
    assert StageHolds(h, s, s.procs[p]);
    if Looks(s.procs[p].stage) {
      LookedStage(h, s, p, bytes);
    } else if Writes(s.procs[p].stage) {
      WrittenStage(h, s, p);
    } else {
      ConcludedStage(h, s, p);
    }
  }

  lemma LookedStage(h: Bytes -> Sha, s: State, p: ProcId, bytes: Bytes)
    requires p in s.procs && Looks(s.procs[p].stage) && StageHolds(h, s, s.procs[p])
    ensures var t := Looked(h, s, p, bytes); p in t.procs ==> StageHolds(h, t, t.procs[p])
  {
    hide Row;
  }

  lemma WrittenStage(h: Bytes -> Sha, s: State, p: ProcId)
    requires p in s.procs && Writes(s.procs[p].stage) && StageHolds(h, s, s.procs[p])
    ensures var t := Written(s, p); p in t.procs ==> StageHolds(h, t, t.procs[p])
  {
    hide Row;
  }

  lemma ConcludedStage(h: Bytes -> Sha, s: State, p: ProcId)
    requires p in s.procs && !Looks(s.procs[p].stage) && !Writes(s.procs[p].stage) && StageHolds(h, s, s.procs[p])
    ensures var t := Concluded(s, p); p in t.procs ==> StageHolds(h, t, t.procs[p])
  {
    hide Row;
  }

  lemma AdvanceLock(h: Bytes -> Sha, s: State, p: ProcId, bytes: Bytes)
    requires p in s.procs && LockHeld(s)
    ensures LockHeld(Advance(h, s, p, bytes))
  {
    hide Advance;
    AdvanceOwnLock(h, s, p, bytes);
    AdvanceOthersLock(h, s, p, bytes);
  }

  /** An ingest holds the lock after its step iff it is in a transaction then. */
  lemma AdvanceOwnLock(h: Bytes -> Sha, s: State, p: ProcId, bytes: Bytes)
    requires p in s.procs && LockHeld(s)
    ensures var t := Advance(h, s, p, bytes); t.lock == Some(p) <==> p in t.procs && InTransaction(t.procs[p].stage)
  {
    hide Row, Known;
    match s.procs[p].stage
    case Started =>
    case Hashed(_) =>
    case Resolved(_) =>
    case Copying(_) =>
    case Copied(_, _) =>
    case Replaced(_) =>
    case Inserted(_) =>
    case Manifested(_) =>
    case Existing(_) =>
    case Linked(_, _) =>
    case Committed(_) =>
    case EventFiled(_) =>
    case EventRecorded(_) =>
    case Done(_) =>
  }

  lemma AdvanceOthersLock(h: Bytes -> Sha, s: State, p: ProcId, bytes: Bytes)
    requires p in s.procs && LockHeld(s)
    ensures var t := Advance(h, s, p, bytes);
      && (t.lock == Some(p) || t.lock == None || t.lock == s.lock)
      && (forall q :: q in t.procs && q != p ==> q in s.procs && t.procs[q] == s.procs[q])
      && (forall q :: q in s.procs && q != p ==> q in t.procs)
      && (t.lock == None || t.lock == Some(p) ==> s.lock == None || s.lock == Some(p))
  {
    hide Advance;
    AdvanceMoves(h, s, p, bytes);
    AdvanceLocks(h, s, p, bytes);
  }

  /** A step moves its own ingest, or ends it. */
  lemma AdvanceMoves(h: Bytes -> Sha, s: State, p: ProcId, bytes: Bytes)
    requires p in s.procs
    ensures var t := Advance(h, s, p, bytes);
      t.procs == if p in t.procs then s.procs[p := t.procs[p]] else s.procs - {p}
  {
    hide Row;
    assert s.procs == s.procs[p := s.procs[p]];
  }

  lemma AdvanceLocks(h: Bytes -> Sha, s: State, p: ProcId, bytes: Bytes)
    requires p in s.procs && (InTransaction(s.procs[p].stage) ==> s.lock == Some(p))
    ensures var t := Advance(h, s, p, bytes);
      && (t.lock == Some(p) || t.lock == None || t.lock == s.lock)
      && (t.lock == None || t.lock == Some(p) ==> s.lock == None || s.lock == Some(p))
  {
    hide Row;
  }

  lemma AdvanceMasters(h: Bytes -> Sha, s: State, p: ProcId, bytes: Bytes)
    requires p in s.procs && MastersHash(h, s) && StagesHold(h, s)
    ensures MastersHash(h, Advance(h, s, p, bytes))
  {
    hide Row;
    assert StageHolds(h, s, s.procs[p]);
  }

  lemma AdvanceRows(h: Bytes -> Sha, s: State, p: ProcId, bytes: Bytes)
    requires p in s.procs && RowsBacked(s) && StagesHold(h, s)
    ensures RowsBacked(Advance(h, s, p, bytes))
  {
    hide Row, Advance;
    var t := Advance(h, s, p, bytes);
    AdvanceWrites(h, s, p, bytes);
    assert StageHolds(h, s, s.procs[p]);
    forall i | 0 <= i < |t.objects|
      ensures RowIsBacked(t, i)
    {
      if i < |s.objects| {
        assert RowIsBacked(s, i) && t.objects[..i] == s.objects[..i] && t.objects[i] == s.objects[i];
        RowIsKnown(s, i);
      } else {
        assert t.objects[..i] == s.objects;
      }
    }
  }

  lemma RowIsKnown(s: State, i: nat)
    requires i < |s.objects|
    ensures Known(s, s.objects[i].sha)
  {
    RowIsFound(s.objects, s.objects[i].sha);
  }

  lemma AdvanceOccurrences(h: Bytes -> Sha, s: State, p: ProcId, bytes: Bytes)
    requires p in s.procs && OccurrencesBacked(s) && StagesHold(h, s)
    ensures OccurrencesBacked(Advance(h, s, p, bytes))
  {
    hide Row, Advance, ParentAgrees, StagesHold;
    AdvanceRecords(h, s, p, bytes);
    AdvanceGrows(h, s, p, bytes);
    var t := Advance(h, s, p, bytes);
    forall o | o in t.occurrences
      ensures ParentAgrees(t, o.sha, o.parent)
    {
      if o in s.occurrences {
        AgreesLater(s, t, o.sha, o.parent);
      } else {
        CommittedAgrees(h, s, p, bytes, o);
      }
    }
  }

  lemma AgreesLater(s: State, t: State, sha: Sha, parent: Option<Sha>)
    requires Grows(s, t) && ParentAgrees(s, sha, parent)
    ensures ParentAgrees(t, sha, parent)
  {
    hide Row;
  }

  /** What is recorded about an occurrence follows its commit, one step at a time. */
  lemma AdvanceRecords(h: Bytes -> Sha, s: State, p: ProcId, bytes: Bytes)
    requires p in s.procs && StagesHold(h, s) && s.sidecars <= s.eventRows <= s.eventFiles <= s.occurrences
    ensures var t := Advance(h, s, p, bytes); t.sidecars <= t.eventRows <= t.eventFiles <= t.occurrences
  {
    hide Advance, StageHolds;
    assert StageHolds(h, s, s.procs[p]);
    AdvanceWrites(h, s, p, bytes);
    AdvanceFiles(h, s, p, bytes);
    RecordedSoFar(h, s, s.procs[p]);
  }

  lemma RecordedSoFar(h: Bytes -> Sha, s: State, p: Process)
    requires StageHolds(h, s, p)
    ensures p.stage.Committed? ==> p.stage.link in s.occurrences
    ensures p.stage.EventFiled? ==> p.stage.link in s.eventFiles
    ensures p.stage.EventRecorded? ==> p.stage.link in s.eventRows
  {
    hide Row;
  }

  lemma CommittedAgrees(h: Bytes -> Sha, s: State, p: ProcId, bytes: Bytes, o: Occurrence)
    requires p in s.procs && StagesHold(h, s) && o in Advance(h, s, p, bytes).occurrences && o !in s.occurrences
    ensures var t := Advance(h, s, p, bytes); ParentAgrees(t, o.sha, o.parent)
  {
    hide Row;
    assert StageHolds(h, s, s.procs[p]);
    CommitGrows(s, s.procs[p].stage.pending);
  }

  /** Only the transaction that holds the lock touches the tables and the manifests. */
  lemma AdvanceLeavesOthers(h: Bytes -> Sha, s: State, p: ProcId, bytes: Bytes, q: ProcId)
    requires p in s.procs && q in s.procs && q != p && Inv(h, s)
    ensures var t := Advance(h, s, p, bytes);
      q in t.procs && t.procs[q] == s.procs[q] && StageHolds(h, t, t.procs[q])
  {
    hide Row, Advance, StageHolds, MastersHash, RowsBacked, OccurrencesBacked;
    AdvanceGrows(h, s, p, bytes);
    AdvanceWrites(h, s, p, bytes);
    AdvanceMoves(h, s, p, bytes);
    StageKept(h, s, Advance(h, s, p, bytes), s.procs[q]);
  }

  lemma AdvanceKeepsInv(h: Bytes -> Sha, s: State, p: ProcId, bytes: Bytes)
    requires p in s.procs && Inv(h, s)
    ensures Inv(h, Advance(h, s, p, bytes))
  {
    var t := Advance(h, s, p, bytes);
    AdvanceMasters(h, s, p, bytes);
    AdvanceRows(h, s, p, bytes);
    AdvanceLock(h, s, p, bytes);
    AdvanceOccurrences(h, s, p, bytes);
    AdvanceOwnStage(h, s, p, bytes);
    hide StageHolds, MastersHash, RowsBacked, OccurrencesBacked, LockHeld;
    forall q | q in t.procs
      ensures StageHolds(h, t, t.procs[q])
    {
      if q != p {
        AdvanceProcs(h, s, p, bytes, q);
        AdvanceLeavesOthers(h, s, p, bytes, q);
      }
    }
  }

  lemma AdvanceProcs(h: Bytes -> Sha, s: State, p: ProcId, bytes: Bytes, q: ProcId)
    requires p in s.procs
    ensures var t := Advance(h, s, p, bytes); t.procs.Keys <= s.procs.Keys
  {
    hide Advance;
    AdvanceMoves(h, s, p, bytes);
  }

  lemma AbortKeepsInv(h: Bytes -> Sha, s: State, p: ProcId)
    requires Inv(h, s)
    ensures Inv(h, Abort(s, p))
  {
    hide Row;
    var t := Abort(s, p);
    forall i | 0 <= i < |t.objects|
      ensures RowIsBacked(t, i)
    {
      assert RowIsBacked(s, i);
    }
    forall q | q in t.procs
      ensures StageHolds(h, t, t.procs[q])
    {
      StageKept(h, s, t, s.procs[q]);
    }
    forall o | o in t.occurrences
      ensures ParentAgrees(t, o.sha, o.parent)
    {
      assert ParentAgrees(s, o.sha, o.parent);
    }
  }

  lemma SpawnKeepsInv(h: Bytes -> Sha, s: State, p: ProcId, request: Request)
    requires Inv(h, s) && p !in s.procs
    ensures Inv(h, s.(procs := s.procs[p := Process(request, Started)]))
  {
    hide Row;
    var t := s.(procs := s.procs[p := Process(request, Started)]);
    forall i | 0 <= i < |t.objects|
      ensures RowIsBacked(t, i)
    {
      assert RowIsBacked(s, i);
    }
    forall q | q in t.procs
      ensures StageHolds(h, t, t.procs[q])
    {
      if q != p {
        StageKept(h, s, t, s.procs[q]);
      }
    }
    forall o | o in t.occurrences
      ensures ParentAgrees(t, o.sha, o.parent)
    {
      assert ParentAgrees(s, o.sha, o.parent);
    }
  }

  lemma NextKeepsInv(h: Bytes -> Sha, s: State, a: Action)
    requires Inv(h, s)
    ensures Inv(h, Next(h, s, a))
  {
    hide Inv, Advance, Abort;
    match a
    case Spawn(p, request) =>
      if p !in s.procs {
        SpawnKeepsInv(h, s, p, request);
      }
    case Step(p, bytes) =>
      if p in s.procs {
        AdvanceKeepsInv(h, s, p, bytes);
      }
    case Crash(p) => AbortKeepsInv(h, s, p);
  }

  /** Safety over every run: whatever the schedule, whatever the source files return from one read to
      the next, and wherever ingests crash. */
  lemma {:induction false} RunIsSafe(h: Bytes -> Sha, s: State, schedule: seq<Action>)
    requires Inv(h, s)
    ensures Inv(h, Run(h, s, schedule))
    decreases |schedule|
  {
    hide Inv, Next;
    if schedule != [] {
      NextKeepsInv(h, s, schedule[0]);
      RunIsSafe(h, Next(h, s, schedule[0]), schedule[1..]);
    }
  }

  // ---------------------------------------------------------------- what every run guarantees

  lemma InitialInv(h: Bytes -> Sha)
    ensures Inv(h, INITIAL)
  {}

  /** At any moment of any run from an empty archive: masters are what their names say, committed
      objects are unique and have their master and a manifest equal to their row, and occurrences
      belong to committed objects of the requested parentage. */
  lemma StoreSafety(h: Bytes -> Sha, schedule: seq<Action>)
    ensures var s := Run(h, INITIAL, schedule);
      && (forall sha :: sha in s.masters ==> h(s.masters[sha]) == sha)
      && (forall row :: row in s.objects ==>
            row.sha in s.masters && row.sha in s.manifests && s.manifests[row.sha] == row)
      && (forall i, j :: 0 <= i < j < |s.objects| ==> s.objects[i].sha != s.objects[j].sha)
      && (forall o :: o in s.occurrences ==>
            Known(s, o.sha) && (o.parent.Some? ==> Row(s.objects, o.sha).value.parent == o.parent))
  {
    hide Row, StageHolds, Run;
    InitialInv(h);
    RunIsSafe(h, INITIAL, schedule);
    var s := Run(h, INITIAL, schedule);
    forall row | row in s.objects
      ensures row.sha in s.masters && row.sha in s.manifests && s.manifests[row.sha] == row
    {
      var i :| 0 <= i < |s.objects| && s.objects[i] == row;
      assert RowIsBacked(s, i);
    }
    forall i, j | 0 <= i < j < |s.objects|
      ensures s.objects[i].sha != s.objects[j].sha
    {
      LaterIsNew(s, i, j);
    }
    forall o | o in s.occurrences
      ensures Known(s, o.sha) && (o.parent.Some? ==> Row(s.objects, o.sha).value.parent == o.parent)
    {
      assert ParentAgrees(s, o.sha, o.parent);
    }
  }

  function Position(objects: seq<Record>, sha: Sha): (i: nat)
    requires Row(objects, sha).Some?
    ensures i < |objects| && objects[i].sha == sha && Row(objects, sha) == Some(objects[i])
  {
    if objects[|objects| - 1].sha == sha then |objects| - 1 else Position(objects[..|objects| - 1], sha)
  }

  /** A parent was committed before its child. */
  lemma ParentIsEarlier(s: State, child: Sha, parent: Sha)
    requires RowsBacked(s) && Known(s, child) && Row(s.objects, child).value.parent == Some(parent)
    ensures Known(s, parent) && Position(s.objects, parent) < Position(s.objects, child)
  {
    var i := Position(s.objects, child);
    assert RowIsBacked(s, i);
    var before := s.objects[..i];
    var k := Position(before, parent);
    UniquePosition(s, k, parent);
  }

  lemma UniquePosition(s: State, k: nat, sha: Sha)
    requires RowsBacked(s) && k < |s.objects| && s.objects[k].sha == sha
    ensures Known(s, sha) && Position(s.objects, sha) == k
  {
    RowIsFound(s.objects, sha);
    var p := Position(s.objects, sha);
    if k < p {
      LaterIsNew(s, k, p);
    } else if p < k {
      LaterIsNew(s, p, k);
    }
  }

  lemma LaterIsNew(s: State, i: nat, j: nat)
    requires RowsBacked(s) && i < j < |s.objects|
    ensures s.objects[i].sha != s.objects[j].sha
  {
    assert RowIsBacked(s, j);
    RowIsFound(s.objects[..j], s.objects[j].sha);
    assert s.objects[..j][i] == s.objects[i];
  }

  predicate DerivedFrom(s: State, child: Sha, parent: Sha) {
    Known(s, child) && Row(s.objects, child).value.parent == Some(parent)
  }

  /** `path` follows `derived_from` links. */
  ghost predicate Derivation(s: State, path: seq<Sha>) {
    forall i, j :: 0 <= i && j == i + 1 < |path| ==> DerivedFrom(s, path[i], path[j])
  }

  /** No chain of `derived_from` links returns to an object it has left. */
  lemma {:induction false} DerivationIsAcyclic(s: State, path: seq<Sha>, i: nat, j: nat)
    requires RowsBacked(s) && Derivation(s, path) && i < j < |path|
    ensures Known(s, path[i]) && Known(s, path[j]) && Position(s.objects, path[j]) < Position(s.objects, path[i])
    ensures path[i] != path[j]
    decreases j
  {
    assert DerivedFrom(s, path[j - 1], path[j]);
    ParentIsEarlier(s, path[j - 1], path[j]);
    if i < j - 1 {
      DerivationIsAcyclic(s, path, i, j - 1);
    }
  }

  /** Committed rows are never changed or removed, not even by a crash. */
  lemma {:induction false} RowsOnlyGrow(h: Bytes -> Sha, s: State, schedule: seq<Action>)
    ensures s.objects <= Run(h, s, schedule).objects
    ensures s.occurrences <= Run(h, s, schedule).occurrences
    decreases |schedule|
  {
    if schedule != [] {
      NextGrows(h, s, schedule[0]);
      RowsOnlyGrow(h, Next(h, s, schedule[0]), schedule[1..]);
    }
  }

  lemma NextGrows(h: Bytes -> Sha, s: State, a: Action)
    ensures s.objects <= Next(h, s, a).objects && s.occurrences <= Next(h, s, a).occurrences
  {
    hide Advance;
    if a.Step? && a.p in s.procs {
      AdvanceWrites(h, s, a.p, a.bytes);
    }
  }

  // ---------------------------------------------------------------- the store as it is updated in place

  class Archive {
    const h: Bytes -> Sha
    var masters: map<Sha, Bytes>
    var manifests: map<Sha, Record>
    var objects: seq<Record>
    var occurrences: set<Occurrence>
    var eventFiles: set<Occurrence>
    var eventRows: set<Occurrence>
    var sidecars: set<Occurrence>
    var lock: Option<ProcId>
    var procs: map<ProcId, Process>

    constructor (h: Bytes -> Sha)
      ensures this.h == h && Now() == INITIAL && Inv(h, Now())
    {
      this.h := h;
      masters, manifests, objects, occurrences := map[], map[], [], {};
      eventFiles, eventRows, sidecars, lock, procs := {}, {}, {}, None, map[];
      new;
      InitialInv(h);
    }

    function Now(): State
      reads this
    { State(masters, manifests, objects, occurrences, eventFiles, eventRows, sidecars, lock, procs) }

    method Enter(p: ProcId, stage: Stage)
      requires p in procs
      modifies this`procs
      ensures Now() == Move(old(Now()), p, stage)
    {
      procs := procs[p := procs[p].(stage := stage)];
    }

    method Give(p: ProcId)
      modifies this`procs, this`lock
      ensures Now() == Abort(old(Now()), p)
    {
      procs := procs - {p};
      if lock == Some(p) {
        lock := None;
      }
    }

    /** The part of `ingest` that looks things up and copies bytes. */
    method Prepare(p: ProcId, bytes: Bytes)
      requires p in procs
      requires Looks(procs[p].stage)
      modifies this`procs, this`lock
      ensures Now() == Looked(h, old(Now()), p, bytes)
    {
      var request := procs[p].request;
      match procs[p].stage
      case Started => Enter(p, Hashed(h(bytes)));
      case Hashed(sha) =>
        if request.parent.Some? && Row(objects, request.parent.value) == None {
          Give(p);
        } else {
          Enter(p, Resolved(sha));
        }
      case Resolved(sha) => Enter(p, if Row(objects, sha).Some? then Existing(sha) else Copying(sha));
      case Copying(sha) =>
        if h(bytes) != sha {
          Give(p);
        } else {
          Enter(p, Copied(sha, bytes));
        }
    }

    /** One write of an ingest up to its commit, on the files and tables themselves. */
    method Write(p: ProcId)
      requires p in procs && Writes(procs[p].stage)
      modifies this`masters, this`manifests, this`lock, this`procs
      ensures Now() == Written(old(Now()), p)
    {
      hide Row;
      var request := procs[p].request;
      var free := lock == None || lock == Some(p);
      match procs[p].stage
      case Copied(sha, temporary) =>
        masters := masters[sha := temporary];
        Enter(p, Replaced(sha));
      case Replaced(sha) =>
        if free {
          if Row(objects, sha).Some? {
            Give(p);
          } else {
            lock := Some(p);
            Enter(p, Inserted(Record(sha, request.description, request.parent)));
          }
        }
      case Inserted(row) =>
        manifests := manifests[row.sha := row];
        Enter(p, Manifested(row));
      case Manifested(row) => Enter(p, Linked(Some(row), Occurrence(request.occurrence, row.sha, request.parent)));
      case Existing(sha) =>
        var row := Row(objects, sha);
        if request.parent.Some? && row.Some? && row.value.parent != request.parent {
          Give(p);
        } else if free {
          lock := Some(p);
          Enter(p, Linked(None, Occurrence(request.occurrence, sha, request.parent)));
        }
    }

    /** The commit, and what is recorded behind it. */
    method Conclude(p: ProcId)
      requires p in procs && !Looks(procs[p].stage) && !Writes(procs[p].stage)
      modifies this`objects, this`occurrences, this`eventFiles, this`eventRows, this`sidecars, this`lock, this`procs
      ensures Now() == Concluded(old(Now()), p)
    {
      hide Row;
      match procs[p].stage
      case Linked(pending, link) =>
        objects := objects + if pending.Some? then [pending.value] else [];
        occurrences, lock := occurrences + {link}, None;
        Enter(p, Committed(link));
      case Committed(link) =>
        eventFiles := eventFiles + {link};
        Enter(p, EventFiled(link));
      case EventFiled(link) =>
        if lock == None || lock == Some(p) {
          eventRows := eventRows + {link};
          Enter(p, EventRecorded(link));
        }
      case EventRecorded(link) =>
        sidecars := sidecars + {link};
        Enter(p, Done(link));
      case Done(_) =>
    }

    /** Any interleaving of ingests and crashes, carried out on the store. */
    method Execute(schedule: seq<Action>)
      requires Inv(h, Now())
      modifies this
      ensures Now() == Run(h, old(Now()), schedule) && Inv(h, Now())
    {
      hide Inv, Looked, Written, Concluded;
      for i := 0 to |schedule|
        invariant Inv(h, Now())
        invariant Run(h, Now(), schedule[i..]) == Run(h, old(Now()), schedule)
      {
        NextKeepsInv(h, Now(), schedule[i]);
        RunStep(h, Now(), schedule[i..]);
        assert schedule[i..][1..] == schedule[i + 1..];
        match schedule[i]
        case Spawn(p, request) =>
          if p !in procs {
            procs := procs[p := Process(request, Started)];
          }
        case Step(p, bytes) =>
          if p in procs {
            var stage := procs[p].stage;
            if Looks(stage) {
              Prepare(p, bytes);
            } else if Writes(stage) {
              Write(p);
            } else {
              Conclude(p);
            }
          }
        case Crash(p) => Give(p);
      }
      assert schedule[|schedule|..] == [];
    }
  }

  lemma RunStep(h: Bytes -> Sha, s: State, schedule: seq<Action>)
    requires schedule != []
    ensures Run(h, s, schedule) == Run(h, Next(h, s, schedule[0]), schedule[1..])
  {}
}
