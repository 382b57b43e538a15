/**
  What an ingest of src/rab/store.py achieves: the complete outcome of one that runs alone, what ends one that runs
  among others, and that none waits for ever for a transaction that cannot go on.
*/
module StoreLive {
  import opened Common
  import opened Store

  function ReadsOf(p: ProcId, bytes: Bytes, n: nat): seq<Action> { seq(n, _ => Step(p, bytes)) }

  /** The archive with one ingest at a stage. */
  function At(s: State, p: ProcId, request: Request, stage: Stage): State {
    s.(procs := s.procs[p := Process(request, stage)])
  }

  /** The object that the source file resolves to is there, from another parent than the one asked for. */
  ghost predicate OtherParent(s: State, sha: Sha, parent: Option<Sha>) {
    parent.Some? && exists i :: 0 <= i < |s.objects| && s.objects[i].sha == sha && s.objects[i].parent != parent
  }

  ghost predicate Stored(s: State, sha: Sha) { exists i :: 0 <= i < |s.objects| && s.objects[i].sha == sha }

  /** What `ingest` refuses when nothing else runs and the file does not change. */
  ghost predicate Refuses(s: State, sha: Sha, request: Request) {
    (request.parent.Some? && !Stored(s, request.parent.value)) || OtherParent(s, sha, request.parent)
  }

  /** The archive after an ingest: a new object has its master, manifest and row, and the occurrence is recorded
      everywhere. */
  ghost function Taken(s: State, p: ProcId, request: Request, sha: Sha, bytes: Bytes): State {
    var link, row := Occurrence(request.occurrence, sha, request.parent), Record(sha, request.description, request.parent);
    State(if Stored(s, sha) then s.masters else s.masters[sha := bytes],
          if Stored(s, sha) then s.manifests else s.manifests[sha := row],
          if Stored(s, sha) then s.objects else s.objects + [row],
          s.occurrences + {link}, s.eventFiles + {link}, s.eventRows + {link}, s.sidecars + {link},
          None, s.procs[p := Process(request, Done(link))])
  }

  lemma StoredIsKnown(h: Bytes -> Sha, s: State, sha: Sha)
    requires Inv(h, s)
    ensures Stored(s, sha) <==> Known(s, sha)
    ensures Known(s, sha) ==> forall parent :: OtherParent(s, sha, parent) <==> parent.Some? && Row(s.objects, sha).value.parent != parent
  {
    hide StageHolds, MastersHash, OccurrencesBacked, LockHeld, RowIsBacked;
    RowIsFound(s.objects, sha);
    if Known(s, sha) {
      var k := Position(s.objects, sha);
      forall i | 0 <= i < |s.objects| && s.objects[i].sha == sha
        ensures i == k
      {
        UniquePosition(s, i, sha);
      }
    }
  }

  /** An ingest alone, with a file that does not change: it refuses a parent that is not stored and another parent for a
      stored object, and leaves no trace then; in every other case it is complete after at most twelve steps. */
  lemma LoneIngest(h: Bytes -> Sha, s: State, p: ProcId, request: Request, bytes: Bytes, n: nat)
    requires Inv(h, s) && s.lock == None && p !in s.procs && 12 <= n
    ensures Run(h, s, [Spawn(p, request)] + ReadsOf(p, bytes, n))
            == if Refuses(s, h(bytes), request) then s else Taken(s, p, request, h(bytes), bytes)
    ensures var t := Run(h, s, [Spawn(p, request)] + ReadsOf(p, bytes, n));
      !Refuses(s, h(bytes), request) ==>
        Inv(h, t) && h(bytes) in t.masters && h(t.masters[h(bytes)]) == h(bytes)
        && (!Stored(s, h(bytes)) ==> t.masters[h(bytes)] == bytes)
  {
    hide Row, Advance, StageHolds, RowsBacked, OccurrencesBacked, LockHeld, StagesHold, Refuses, Taken, Stored;
    var schedule := [Spawn(p, request)] + ReadsOf(p, bytes, n);
    assert schedule[1..] == ReadsOf(p, bytes, n);
    assert Run(h, s, schedule) == Run(h, At(s, p, request, Started), ReadsOf(p, bytes, n));
    LoneStarts(h, s, p, request, bytes, n);
    RunIsSafe(h, s, schedule);
    if !Refuses(s, h(bytes), request) {
      TakenHas(h, s, p, request, bytes);
    }
  }

  lemma TakenHas(h: Bytes -> Sha, s: State, p: ProcId, request: Request, bytes: Bytes)
    requires Inv(h, s)
    ensures var t := Taken(s, p, request, h(bytes), bytes);
      && h(bytes) in t.masters && h(t.masters[h(bytes)]) == h(bytes)
      && (!Stored(s, h(bytes)) ==> t.masters[h(bytes)] == bytes)
  {
    hide Row, StageHolds, OccurrencesBacked, LockHeld, StagesHold;
    if Stored(s, h(bytes)) {
      var i :| 0 <= i < |s.objects| && s.objects[i].sha == h(bytes);
      assert RowIsBacked(s, i);
    }
  }

  // ---------------------------------------------------------------- step by step

  lemma MoveAt(s: State, p: ProcId, request: Request, was: Stage, stage: Stage)
    ensures Move(At(s, p, request, was), p, stage) == At(s, p, request, stage)
  {
    assert s.procs[p := Process(request, was)][p := Process(request, stage)] == s.procs[p := Process(request, stage)];
  }

  lemma GoneFrom(s: State, p: ProcId, request: Request, stage: Stage)
    requires p !in s.procs && s.lock == None
    ensures Abort(At(s, p, request, stage), p) == s
  {
    assert s.procs[p := Process(request, stage)] - {p} == s.procs;
  }

  /** One step of the schedule. */
  lemma OneStep(h: Bytes -> Sha, s: State, p: ProcId, bytes: Bytes, n: nat)
    requires p in s.procs && 0 < n
    ensures Run(h, s, ReadsOf(p, bytes, n)) == Run(h, Advance(h, s, p, bytes), ReadsOf(p, bytes, n - 1))
  {
    hide Advance;
    assert ReadsOf(p, bytes, n)[1..] == ReadsOf(p, bytes, n - 1);
  }

  lemma {:induction false} NoMore(h: Bytes -> Sha, s: State, p: ProcId, bytes: Bytes, n: nat)
    requires p in s.procs ==> s.procs[p].stage.Done?
    ensures Run(h, s, ReadsOf(p, bytes, n)) == s
  {
    if 0 < n {
      assert ReadsOf(p, bytes, n)[1..] == ReadsOf(p, bytes, n - 1);
      NoMore(h, s, p, bytes, n - 1);
    }
  }

  lemma LoneStarts(h: Bytes -> Sha, s: State, p: ProcId, request: Request, bytes: Bytes, n: nat)
    requires Inv(h, s) && s.lock == None && p !in s.procs && 12 <= n
    ensures Run(h, At(s, p, request, Started), ReadsOf(p, bytes, n))
            == if Refuses(s, h(bytes), request) then s else Taken(s, p, request, h(bytes), bytes)
  {
    hide Row, Inv, Run, Stored, OtherParent, Taken;
    var sha := h(bytes);
    OneStep(h, At(s, p, request, Started), p, bytes, n);
    MoveAt(s, p, request, Started, Hashed(sha));
    OneStep(h, At(s, p, request, Hashed(sha)), p, bytes, n - 1);
    if request.parent.Some? {
      StoredIsKnown(h, s, request.parent.value);
    }
    if request.parent.Some? && !Known(s, request.parent.value) {
      GoneFrom(s, p, request, Hashed(sha));
      NoMore(h, s, p, bytes, n - 2);
    } else {
      MoveAt(s, p, request, Hashed(sha), Resolved(sha));
      LoneResolved(h, s, p, request, bytes, n - 2);
    }
  }

  lemma LoneResolved(h: Bytes -> Sha, s: State, p: ProcId, request: Request, bytes: Bytes, n: nat)
    requires Inv(h, s) && s.lock == None && p !in s.procs && 10 <= n
    ensures Run(h, At(s, p, request, Resolved(h(bytes))), ReadsOf(p, bytes, n))
            == if OtherParent(s, h(bytes), request.parent) then s else Taken(s, p, request, h(bytes), bytes)
  {
    hide Row, Inv, Run, OtherParent, Taken;
    var sha := h(bytes);
    OneStep(h, At(s, p, request, Resolved(sha)), p, bytes, n);
    StoredIsKnown(h, s, sha);
    if Known(s, sha) {
      MoveAt(s, p, request, Resolved(sha), Existing(sha));
      LoneExisting(h, s, p, request, bytes, n - 1);
    } else {
      MoveAt(s, p, request, Resolved(sha), Copying(sha));
      NoOtherParent(s, sha, request.parent);
      LoneCopies(h, s, p, request, bytes, n - 1);
    }
  }

  lemma NoOtherParent(s: State, sha: Sha, parent: Option<Sha>)
    requires !Stored(s, sha)
    ensures !OtherParent(s, sha, parent)
  {}

  lemma LoneExisting(h: Bytes -> Sha, s: State, p: ProcId, request: Request, bytes: Bytes, n: nat)
    requires Inv(h, s) && s.lock == None && p !in s.procs && Known(s, h(bytes)) && 9 <= n
    ensures Run(h, At(s, p, request, Existing(h(bytes))), ReadsOf(p, bytes, n))
            == if OtherParent(s, h(bytes), request.parent) then s else Taken(s, p, request, h(bytes), bytes)
  {
    hide Row, Inv, Run, OtherParent, Stored;
    var sha := h(bytes);
    var link := Occurrence(request.occurrence, sha, request.parent);
    StoredIsKnown(h, s, sha);
    OneStep(h, At(s, p, request, Existing(sha)), p, bytes, n);
    if OtherParent(s, sha, request.parent) {
      GoneFrom(s, p, request, Existing(sha));
      NoMore(h, s, p, bytes, n - 1);
    } else {
      MoveAt(s.(lock := Some(p)), p, request, Existing(sha), Linked(None, link));
      LoneCommits(h, s.(lock := Some(p)), p, request, None, link, bytes, n - 1);
    }
  }

  lemma LoneCopies(h: Bytes -> Sha, s: State, p: ProcId, request: Request, bytes: Bytes, n: nat)
    requires s.lock == None && p !in s.procs && !Known(s, h(bytes)) && !Stored(s, h(bytes)) && 9 <= n
    ensures Run(h, At(s, p, request, Copying(h(bytes))), ReadsOf(p, bytes, n)) == Taken(s, p, request, h(bytes), bytes)
  {
    hide Row, Inv, Run, Stored, Taken;
    var sha := h(bytes);
    OneStep(h, At(s, p, request, Copying(sha)), p, bytes, n);
    MoveAt(s, p, request, Copying(sha), Copied(sha, bytes));
    OneStep(h, At(s, p, request, Copied(sha, bytes)), p, bytes, n - 1);
    var t := s.(masters := s.masters[sha := bytes]);
    MoveAt(t, p, request, Copied(sha, bytes), Replaced(sha));
    LoneInserts(h, s, p, request, bytes, n - 2);
  }

  lemma LoneInserts(h: Bytes -> Sha, s: State, p: ProcId, request: Request, bytes: Bytes, n: nat)
    requires s.lock == None && p !in s.procs && !Known(s, h(bytes)) && !Stored(s, h(bytes)) && 7 <= n
    ensures Run(h, At(s.(masters := s.masters[h(bytes) := bytes]), p, request, Replaced(h(bytes))), ReadsOf(p, bytes, n))
            == Taken(s, p, request, h(bytes), bytes)
  {
    hide Row, Inv, Run, Stored, Looked, Concluded;
    var sha := h(bytes);
    var row := Record(sha, request.description, request.parent);
    var t := s.(masters := s.masters[sha := bytes]);
    OneStep(h, At(t, p, request, Replaced(sha)), p, bytes, n);
    t := t.(lock := Some(p));
    MoveAt(t, p, request, Replaced(sha), Inserted(row));
    LoneManifests(h, t, p, request, row, bytes, n - 1);
  }

  lemma LoneManifests(h: Bytes -> Sha, s: State, p: ProcId, request: Request, row: Record, bytes: Bytes, n: nat)
    requires s.lock == Some(p) && p !in s.procs && 6 <= n
    ensures var link := Occurrence(request.occurrence, row.sha, request.parent);
      Run(h, At(s, p, request, Inserted(row)), ReadsOf(p, bytes, n))
      == State(s.masters, s.manifests[row.sha := row], s.objects + [row], s.occurrences + {link}, s.eventFiles + {link},
               s.eventRows + {link}, s.sidecars + {link}, None, s.procs[p := Process(request, Done(link))])
  {
    hide Row, Inv, Run, Looked, Concluded;
    var link := Occurrence(request.occurrence, row.sha, request.parent);
    OneStep(h, At(s, p, request, Inserted(row)), p, bytes, n);
    var t := s.(manifests := s.manifests[row.sha := row]);
    MoveAt(t, p, request, Inserted(row), Manifested(row));
    OneStep(h, At(t, p, request, Manifested(row)), p, bytes, n - 1);
    MoveAt(t, p, request, Manifested(row), Linked(Some(row), link));
    LoneCommits(h, t, p, request, Some(row), link, bytes, n - 2);
  }

  lemma LoneCommits(h: Bytes -> Sha, s: State, p: ProcId, request: Request, pending: Option<Record>, link: Occurrence,
                    bytes: Bytes, n: nat)
    requires s.lock == Some(p) && p !in s.procs && 4 <= n
    ensures Run(h, At(s, p, request, Linked(pending, link)), ReadsOf(p, bytes, n))
            == State(s.masters, s.manifests, Appended(s, pending), s.occurrences + {link}, s.eventFiles + {link},
                     s.eventRows + {link}, s.sidecars + {link}, None, s.procs[p := Process(request, Done(link))])
  {
    hide Row, Inv, Run, Looked, Written;
    OneStep(h, At(s, p, request, Linked(pending, link)), p, bytes, n);
    var t := s.(objects := Appended(s, pending), occurrences := s.occurrences + {link}, lock := None);
    MoveAt(t, p, request, Linked(pending, link), Committed(link));
    LoneRecords(h, t, p, request, link, bytes, n - 1);
  }

  lemma LoneRecords(h: Bytes -> Sha, s: State, p: ProcId, request: Request, link: Occurrence, bytes: Bytes, n: nat)
    requires s.lock == None && p !in s.procs && 3 <= n
    ensures Run(h, At(s, p, request, Committed(link)), ReadsOf(p, bytes, n))
            == s.(eventFiles := s.eventFiles + {link}, eventRows := s.eventRows + {link}, sidecars := s.sidecars + {link},
                  procs := s.procs[p := Process(request, Done(link))])
  {
    hide Row, Inv, Run, Looked, Written;
    OneStep(h, At(s, p, request, Committed(link)), p, bytes, n);
    var t := s.(eventFiles := s.eventFiles + {link});
    MoveAt(t, p, request, Committed(link), EventFiled(link));
    LoneLast(h, t, p, request, link, bytes, n - 1);
  }

  lemma LoneLast(h: Bytes -> Sha, s: State, p: ProcId, request: Request, link: Occurrence, bytes: Bytes, n: nat)
    requires s.lock == None && p !in s.procs && 2 <= n
    ensures Run(h, At(s, p, request, EventFiled(link)), ReadsOf(p, bytes, n))
            == s.(eventRows := s.eventRows + {link}, sidecars := s.sidecars + {link},
                  procs := s.procs[p := Process(request, Done(link))])
  {
    hide Row, Inv, Run, Looked, Written;
    OneStep(h, At(s, p, request, EventFiled(link)), p, bytes, n);
    var t := s.(eventRows := s.eventRows + {link});
    MoveAt(t, p, request, EventFiled(link), EventRecorded(link));
    OneStep(h, At(t, p, request, EventRecorded(link)), p, bytes, n - 1);
    t := t.(sidecars := s.sidecars + {link});
    MoveAt(t, p, request, EventRecorded(link), Done(link));
    NoMore(h, At(t, p, request, Done(link)), p, bytes, n - 2);
  }

  // ---------------------------------------------------------------- what ends an ingest that runs among others

  /** The four reasons of the source: the parent is not there, the file changed, another ingest stored the object in
      between, or the object has another parent. */
  ghost predicate GivesUp(h: Bytes -> Sha, s: State, p: ProcId, bytes: Bytes)
    requires p in s.procs
  {
    var parent, stage := s.procs[p].request.parent, s.procs[p].stage;
    || (stage.Hashed? && parent.Some? && !Stored(s, parent.value))
    || (stage.Copying? && h(bytes) != stage.sha)
    || (stage.Replaced? && Stored(s, stage.sha) && (s.lock == None || s.lock == Some(p)))
    || (stage.Existing? && OtherParent(s, stage.sha, parent))
  }

  /** An ingest waits for the transaction of another. */
  ghost predicate Waits(s: State, p: ProcId)
    requires p in s.procs
  {
    && s.lock.Some? && s.lock != Some(p)
    && (s.procs[p].stage.Replaced? || s.procs[p].stage.Existing? || s.procs[p].stage.EventFiled?)
  }

  /** How many steps an ingest has behind it, of twelve. */
  function Rank(stage: Stage): (n: nat)
    ensures n <= 12 && (n == 12 <==> stage.Done?)
  {
    match stage
    case Started => 0
    case Hashed(_) => 1
    case Resolved(_) => 2
    case Copying(_) => 3
    case Copied(_, _) => 4
    case Replaced(_) => 5
    case Inserted(_) => 6
    case Manifested(_) => 7
    case Existing(_) => 7
    case Linked(_, _) => 8
    case Committed(_) => 9
    case EventFiled(_) => 10
    case EventRecorded(_) => 11
    case Done(_) => 12
  }

  /** Every step of an ingest either ends it, for one of the four reasons, or waits and changes nothing, or brings it
      nearer to its end. */
  lemma StepIff(h: Bytes -> Sha, s: State, p: ProcId, bytes: Bytes)
    requires Inv(h, s) && p in s.procs && !s.procs[p].stage.Done?
    ensures Moves(h, s, p, bytes, Advance(h, s, p, bytes))
  {
    hide Inv, Looked, Written, Concluded, Moves;
    if Looks(s.procs[p].stage) {
      LookedMoves(h, s, p, bytes);
    } else if Writes(s.procs[p].stage) {
      WrittenMoves(h, s, p, bytes);
    } else {
      ConcludedMoves(h, s, p, bytes);
    }
  }

  ghost predicate Moves(h: Bytes -> Sha, s: State, p: ProcId, bytes: Bytes, t: State)
    requires p in s.procs
  {
    if GivesUp(h, s, p, bytes) then t == Abort(s, p)
    else if Waits(s, p) then t == s
    else p in t.procs && t.procs[p].request == s.procs[p].request && Rank(s.procs[p].stage) < Rank(t.procs[p].stage)
  }

  lemma LookedMoves(h: Bytes -> Sha, s: State, p: ProcId, bytes: Bytes)
    requires Inv(h, s) && p in s.procs && Looks(s.procs[p].stage)
    ensures Moves(h, s, p, bytes, Looked(h, s, p, bytes))
  {
    hide Row, Inv, Stored, OtherParent;
    if s.procs[p].request.parent.Some? {
      StoredIsKnown(h, s, s.procs[p].request.parent.value);
    }
  }

  lemma WrittenMoves(h: Bytes -> Sha, s: State, p: ProcId, bytes: Bytes)
    requires Inv(h, s) && p in s.procs && Writes(s.procs[p].stage)
    ensures Moves(h, s, p, bytes, Written(s, p))
  {
    hide Row, Inv, Stored, OtherParent;
    if s.procs[p].stage.Replaced? {
      StoredIsKnown(h, s, s.procs[p].stage.sha);
    } else if s.procs[p].stage.Existing? {
      ExistingIsKnown(h, s, p);
    }
  }

  lemma ConcludedMoves(h: Bytes -> Sha, s: State, p: ProcId, bytes: Bytes)
    requires p in s.procs && !Looks(s.procs[p].stage) && !Writes(s.procs[p].stage) && !s.procs[p].stage.Done?
    ensures Moves(h, s, p, bytes, Concluded(s, p))
  {
    hide Row;
  }

  lemma ExistingIsKnown(h: Bytes -> Sha, s: State, p: ProcId)
    requires Inv(h, s) && p in s.procs && s.procs[p].stage.Existing?
    ensures Known(s, s.procs[p].stage.sha)
    ensures forall parent :: OtherParent(s, s.procs[p].stage.sha, parent) <==>
      parent.Some? && Row(s.objects, s.procs[p].stage.sha).value.parent != parent
  {
    assert StageHolds(h, s, s.procs[p]);
    StoredIsKnown(h, s, s.procs[p].stage.sha);
  }

  /** Exactly what makes an ingest disappear: a crash, or one of the four reasons at its own step. */
  lemma EndsIff(h: Bytes -> Sha, s: State, a: Action, p: ProcId)
    requires Inv(h, s) && p in s.procs
    ensures p !in Next(h, s, a).procs <==>
      a == Crash(p) || (a.Step? && a.p == p && GivesUp(h, s, p, a.bytes))
  {
    hide Row, Inv, Advance, GivesUp;
    match a
    case Spawn(_, _) =>
    case Crash(_) =>
    case Step(q, bytes) =>
      if q == p && !s.procs[p].stage.Done? {
        StepIff(h, s, p, bytes);
      } else if q == p {
        DoneStays(h, s, p, bytes);
      } else if q in s.procs {
        AdvanceMoves(h, s, q, bytes);
      }
  }

  lemma DoneStays(h: Bytes -> Sha, s: State, p: ProcId, bytes: Bytes)
    requires p in s.procs && s.procs[p].stage.Done?
    ensures Advance(h, s, p, bytes) == s && !GivesUp(h, s, p, bytes)
  {}

  /** No deadlock: while an ingest is not complete, it or the one whose transaction is open can take a step that brings
      it nearer to its end or ends it. */
  lemma SomeoneMoves(h: Bytes -> Sha, s: State, p: ProcId)
    requires Inv(h, s) && p in s.procs && !s.procs[p].stage.Done?
    ensures var q := if s.lock.Some? then s.lock.value else p;
      q in s.procs && !s.procs[q].stage.Done? && !Waits(s, q)
      && forall bytes :: var t := Advance(h, s, q, bytes);
           q !in t.procs || Rank(s.procs[q].stage) < Rank(t.procs[q].stage)
  {
    hide Advance, Rank, MastersHash, RowsBacked, StageHolds, OccurrencesBacked, GivesUp;
    var q := if s.lock.Some? then s.lock.value else p;
    forall bytes
      ensures var t := Advance(h, s, q, bytes); q !in t.procs || Rank(s.procs[q].stage) < Rank(t.procs[q].stage)
    {
      StepIff(h, s, q, bytes);
    }
  }

  // ---------------------------------------------------------------- what an ingest among others achieves

  /** The steps in a schedule that an ingest does not spend waiting. */
  ghost function Effective(h: Bytes -> Sha, s: State, schedule: seq<Action>, p: ProcId): nat
    decreases |schedule|
  {
    if schedule == [] then 0
    else
      var a := schedule[0];
      (if a.Step? && a.p == p && p in s.procs && !Waits(s, p) then 1 else 0) + Effective(h, Next(h, s, a), schedule[1..], p)
  }

  /** An ingest is not ended along a schedule: it does not crash, and no step of it meets one of the four reasons. */
  ghost predicate Survives(h: Bytes -> Sha, s: State, schedule: seq<Action>, p: ProcId)
    decreases |schedule|
  {
    schedule == [] ||
    (var a := schedule[0];
     && a != Crash(p) && (a.Step? && a.p == p && p in s.procs ==> !GivesUp(h, s, p, a.bytes))
     && Survives(h, Next(h, s, a), schedule[1..], p))
  }

  /** Whatever the others do, an ingest that is not ended is complete once it had twelve steps that did not wait. */
  lemma {:induction false} EnoughSteps(h: Bytes -> Sha, s: State, schedule: seq<Action>, p: ProcId)
    requires Inv(h, s) && p in s.procs && Survives(h, s, schedule, p)
    ensures var t := Run(h, s, schedule);
      p in t.procs && t.procs[p].request == s.procs[p].request
      && (t.procs[p].stage.Done? || Rank(s.procs[p].stage) + Effective(h, s, schedule, p) <= Rank(t.procs[p].stage))
    decreases |schedule|
  {
    hide Row, Inv, Advance, GivesUp, Waits, Rank;
    if schedule != [] {
      var a := schedule[0];
      var t := Next(h, s, a);
      NextKeepsInv(h, s, a);
      StaysOrRises(h, s, a, p);
      EnoughSteps(h, t, schedule[1..], p);
      if s.procs[p].stage.Done? {
        DoneRank(h, t, schedule[1..], p);
      }
    }
  }

  lemma StaysOrRises(h: Bytes -> Sha, s: State, a: Action, p: ProcId)
    requires Inv(h, s) && p in s.procs && a != Crash(p)
    requires a.Step? && a.p == p ==> !GivesUp(h, s, p, a.bytes)
    ensures var t := Next(h, s, a);
      p in t.procs && t.procs[p].request == s.procs[p].request
      && (if s.procs[p].stage.Done? || !(a.Step? && a.p == p && !Waits(s, p)) then t.procs[p] == s.procs[p]
          else Rank(s.procs[p].stage) < Rank(t.procs[p].stage))
  {
    hide Row, Inv, Advance, GivesUp, Waits, Rank;
    EndsIff(h, s, a, p);
    match a
    case Spawn(_, _) =>
    case Crash(_) =>
    case Step(q, bytes) =>
      if q == p && !s.procs[p].stage.Done? {
        StepIff(h, s, p, bytes);
      } else if q == p {
        DoneStays(h, s, p, bytes);
      } else if q in s.procs {
        AdvanceMoves(h, s, q, bytes);
      }
  }

  lemma {:induction false} DoneRank(h: Bytes -> Sha, s: State, schedule: seq<Action>, p: ProcId)
    requires Inv(h, s) && p in s.procs && s.procs[p].stage.Done? && Survives(h, s, schedule, p)
    ensures var t := Run(h, s, schedule); p in t.procs && t.procs[p].stage.Done?
    decreases |schedule|
  {
    hide Row, Inv, Advance, GivesUp, Waits, Rank;
    if schedule != [] {
      NextKeepsInv(h, s, schedule[0]);
      StaysOrRises(h, s, schedule[0], p);
      DoneRank(h, Next(h, s, schedule[0]), schedule[1..], p);
    }
  }

  /** What an ingest has in hand is what its request and the bytes it reads say. */
  predicate Follows(h: Bytes -> Sha, bytes: Bytes, p: Process) {
    match p.stage
    case Started => true
    case Hashed(sha) => sha == h(bytes)
    case Resolved(sha) => sha == h(bytes)
    case Copying(sha) => sha == h(bytes)
    case Copied(sha, temporary) => sha == h(bytes) && temporary == bytes
    case Replaced(sha) => sha == h(bytes)
    case Inserted(row) => row == Record(h(bytes), p.request.description, p.request.parent)
    case Manifested(row) => row == Record(h(bytes), p.request.description, p.request.parent)
    case Existing(sha) => sha == h(bytes)
    case Linked(_, link) => link == Occurrence(p.request.occurrence, h(bytes), p.request.parent)
    case Committed(link) => link == Occurrence(p.request.occurrence, h(bytes), p.request.parent)
    case EventFiled(link) => link == Occurrence(p.request.occurrence, h(bytes), p.request.parent)
    case EventRecorded(link) => link == Occurrence(p.request.occurrence, h(bytes), p.request.parent)
    case Done(link) => link == Occurrence(p.request.occurrence, h(bytes), p.request.parent)
  }

  lemma StepFollows(h: Bytes -> Sha, s: State, p: ProcId, bytes: Bytes)
    requires p in s.procs && Follows(h, bytes, s.procs[p])
    ensures var t := Advance(h, s, p, bytes); p in t.procs ==> Follows(h, bytes, t.procs[p])
  {
    hide Looked, Written, Concluded, Follows;
    if Looks(s.procs[p].stage) {
      LookedFollows(h, s, p, bytes);
    } else if Writes(s.procs[p].stage) {
      WrittenFollows(h, s, p, bytes);
    } else {
      ConcludedFollows(h, s, p, bytes);
    }
  }

  lemma LookedFollows(h: Bytes -> Sha, s: State, p: ProcId, bytes: Bytes)
    requires p in s.procs && Follows(h, bytes, s.procs[p]) && Looks(s.procs[p].stage)
    ensures var t := Looked(h, s, p, bytes); p in t.procs ==> Follows(h, bytes, t.procs[p])
  {
    hide Row;
  }

  lemma WrittenFollows(h: Bytes -> Sha, s: State, p: ProcId, bytes: Bytes)
    requires p in s.procs && Follows(h, bytes, s.procs[p]) && Writes(s.procs[p].stage)
    ensures var t := Written(s, p); p in t.procs ==> Follows(h, bytes, t.procs[p])
  {
    hide Row;
  }

  lemma ConcludedFollows(h: Bytes -> Sha, s: State, p: ProcId, bytes: Bytes)
    requires p in s.procs && Follows(h, bytes, s.procs[p]) && !Looks(s.procs[p].stage) && !Writes(s.procs[p].stage)
    ensures var t := Concluded(s, p); p in t.procs ==> Follows(h, bytes, t.procs[p])
  {
    hide Row;
  }

  lemma {:induction false} RunFollows(h: Bytes -> Sha, s: State, schedule: seq<Action>, p: ProcId, bytes: Bytes)
    requires Inv(h, s) && p in s.procs && Follows(h, bytes, s.procs[p]) && Survives(h, s, schedule, p)
    requires forall i :: 0 <= i < |schedule| && schedule[i].Step? && schedule[i].p == p ==> schedule[i].bytes == bytes
    ensures var t := Run(h, s, schedule); p in t.procs && Follows(h, bytes, t.procs[p])
    decreases |schedule|
  {
    hide Row, Inv, Advance, GivesUp, Waits, Rank, Follows;
    if schedule != [] {
      var a := schedule[0];
      NextKeepsInv(h, s, a);
      StaysOrRises(h, s, a, p);
      if a.Step? && a.p == p {
        StepFollows(h, s, p, bytes);
      } else if a.Step? && a.p in s.procs {
        AdvanceMoves(h, s, a.p, a.bytes);
      }
      RunFollows(h, Next(h, s, a), schedule[1..], p, bytes);
    }
  }

  /** The promise of `ingest` among any number of others: if the file does not change, nothing ends the ingest and it has
      twelve steps that do not wait, then its bytes are a committed object with a master of that hash, and its
      occurrence is in the tables, the event files and the sidecars. */
  lemma IngestIsTaken(h: Bytes -> Sha, s: State, schedule: seq<Action>, p: ProcId, request: Request, bytes: Bytes)
    requires Inv(h, s) && p in s.procs && s.procs[p] == Process(request, Started)
    requires Survives(h, s, schedule, p) && 12 <= Effective(h, s, schedule, p)
    requires forall i :: 0 <= i < |schedule| && schedule[i].Step? && schedule[i].p == p ==> schedule[i].bytes == bytes
    ensures var t, link := Run(h, s, schedule), Occurrence(request.occurrence, h(bytes), request.parent);
      && Stored(t, h(bytes)) && h(bytes) in t.masters && h(t.masters[h(bytes)]) == h(bytes)
      && link in t.occurrences && link in t.eventFiles && link in t.eventRows && link in t.sidecars
      && p in t.procs && t.procs[p] == Process(request, Done(link))
  {
    hide Row, Inv, Run, GivesUp, Waits, Survives;
    EnoughSteps(h, s, schedule, p);
    RunFollows(h, s, schedule, p, bytes);
    RunIsSafe(h, s, schedule);
    var t, link := Run(h, s, schedule), Occurrence(request.occurrence, h(bytes), request.parent);
    DoneIsRecorded(h, t, p, link);
  }

  lemma DoneIsRecorded(h: Bytes -> Sha, s: State, p: ProcId, link: Occurrence)
    requires Inv(h, s) && p in s.procs && s.procs[p].stage == Done(link)
    ensures Stored(s, link.sha) && link.sha in s.masters && h(s.masters[link.sha]) == link.sha
    ensures link in s.occurrences && link in s.eventFiles && link in s.eventRows && link in s.sidecars
  {
    assert StageHolds(h, s, s.procs[p]);
    assert ParentAgrees(s, link.sha, link.parent);
    var i := Position(s.objects, link.sha);
    assert RowIsBacked(s, i);
  }
}
