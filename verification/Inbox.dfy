/**
  The inbox watcher (src/rab/local_ingest.py, `WatchedInboxManager.scan_once`, `_process`,
  `_recover_completed`, and `IngestManager.ingest_staged`) over a non-recursive inbox: a file state that
  is saved now and then, job records, and the archive's occurrences. A scan may crash; what was only in
  memory is then lost.
*/
module Inbox {
  import opened Common

  type Path = string
  type Sha = string
  type Fingerprint = string

  /** One piece of content under one inbox path. */
  datatype Item = Item(path: Path, sha: Sha)

  datatype JobState = Ingesting | Completed | JobFailed

  datatype Job = Job(item: Item, state: JobState)

  datatype Status = WaitingStable | Ready | Processing | RetryWait | FileCompleted | FileFailed | Ignored

  datatype Entry = Entry(status: Status, fingerprint: Fingerprint, retries: nat, nextRetry: int, job: Option<nat>)

  /** One more `item`, if `more`. */
  function Plus(items: multiset<Item>, item: Item, more: bool): multiset<Item> {
    if more then items[item := items[item] + 1] else items
  }

  /** The items of the completed jobs. */
  function Done(jobs: seq<Job>): multiset<Item> {
    if jobs == [] then multiset{}
    else
      var last := jobs[|jobs| - 1];
      Plus(Done(jobs[..|jobs| - 1]), last.item, last.state == Completed)
  }

  lemma DoneSnoc(jobs: seq<Job>, job: Job)
    ensures Done(jobs + [job]) == Plus(Done(jobs), job.item, job.state == Completed)
  {
    assert (jobs + [job])[..|jobs|] == jobs;
  }

  lemma {:induction false} DoneHas(jobs: seq<Job>, item: Item)
    ensures Done(jobs)[item] > 0 <==> exists i :: 0 <= i < |jobs| && jobs[i] == Job(item, Completed)
  {
    if jobs != [] {
      var front := jobs[..|jobs| - 1];
      DoneHas(front, item);
      if i :| 0 <= i < |jobs| && jobs[i] == Job(item, Completed) {
        if i < |front| {
          assert front[i] == Job(item, Completed);
        }
      }
      if j :| 0 <= j < |front| && front[j] == Job(item, Completed) {
        assert jobs[j] == Job(item, Completed);
      }
    }
  }

  // ---------------------------------------------------------------- the ledger of jobs and occurrences

  /** Where an exception or a crash strikes while a file is processed. The window is between the commit of the
      occurrence and the final job write: the event and the occurrence sidecar, identity and malware state. */
  datatype Fault =
    | Smooth
    | RaisesBeforeJob(permanent: bool)
    | RaisesInIngest(permanent: bool)
    | RaisesInWindow(permanent: bool)
    | RaisesAfterJob(permanent: bool)
    | CrashesBeforeJob
    | CrashesInIngest
    | CrashesInWindow
    | CrashesAfterJob
  {
    predicate Crashes() { this in {CrashesBeforeJob, CrashesInIngest, CrashesInWindow, CrashesAfterJob} }

    predicate InWindow() { RaisesInWindow? || this == CrashesInWindow }

    /** The occurrence has been committed. */
    predicate Commits() { this in {Smooth, CrashesInWindow, CrashesAfterJob} || RaisesInWindow? || RaisesAfterJob? }

    /** The state in which the newest job record is left, if one was written. */
    function Leaves(): Option<JobState> {
      match this
      case RaisesBeforeJob(_) => None
      case CrashesBeforeJob => None
      case RaisesInIngest(_) => Some(JobFailed)
      case RaisesInWindow(_) => Some(JobFailed)
      case CrashesInIngest => Some(Ingesting)
      case CrashesInWindow => Some(Ingesting)
      case _ => Some(Completed)
    }

    function Raised(): Option<bool> {
      if RaisesBeforeJob? || RaisesInIngest? || RaisesInWindow? || RaisesAfterJob? then Some(permanent) else None
    }
  }

  /** What survives a crash of the watcher, apart from its saved file state. An occurrence is struck when
      something goes wrong between its commit and the final write of its job, which then is not completed. */
  datatype Ledger = Ledger(occurrences: multiset<Item>, jobs: seq<Job>, struck: multiset<Item>) {
    /** Every occurrence is accounted for by a completed job or was struck. */
    ghost predicate Balanced() { forall item :: occurrences[item] == Done(jobs)[item] + struck[item] }

    /** What processing an item leaves, wherever something strikes. */
    function Processed(item: Item, fault: Fault): Ledger {
      Ledger(Plus(occurrences, item, fault.Commits()),
             if fault.Leaves().Some? then jobs + [Job(item, fault.Leaves().value)] else jobs,
             Plus(struck, item, fault.InWindow()))
    }
  }

  /** Wherever something strikes, the books balance, and exactly a committed occurrence outside the window is known by
      a completed job. */
  lemma ProcessedIsBalanced(l: Ledger, item: Item, fault: Fault)
    requires l.Balanced()
    ensures var after := l.Processed(item, fault);
      && after.Balanced()
      && after.occurrences == Plus(l.occurrences, item, fault.Commits())
      && after.struck == Plus(l.struck, item, fault.InWindow())
      && Done(after.jobs) == Plus(Done(l.jobs), item, fault.Commits() && !fault.InWindow())
  {
    hide Done;
    if fault.Leaves().Some? {
      DoneSnoc(l.jobs, Job(item, fault.Leaves().value));
    }
  }

  lemma ProcessedGrows(l: Ledger, item: Item, fault: Fault)
    ensures l.occurrences <= l.Processed(item, fault).occurrences && l.struck <= l.Processed(item, fault).struck
  {}

  /** A complete ingest keeps an item at one occurrence exactly when it had none; for an item that was never struck
      that is when it has no completed job, which is what the watcher looks for. */
  lemma IngestedOnce(l: Ledger, item: Item)
    requires l.Balanced() && l.occurrences[item] <= 1
    ensures l.Processed(item, Smooth).occurrences[item] <= 1 <==> l.occurrences[item] == 0
    ensures l.struck[item] == 0 ==> (l.occurrences[item] == 0 <==> Done(l.jobs)[item] == 0)
  {
    ProcessedIsBalanced(l, item, Smooth);
  }

  /** Looking for a completed job finds out whether an item has an occurrence, for exactly the items that were
      never struck or have a completed job as well. */
  lemma CompletedJobTellsIff(l: Ledger, item: Item)
    requires l.Balanced()
    ensures (Done(l.jobs)[item] > 0 <==> l.occurrences[item] > 0) <==> (l.struck[item] == 0 || Done(l.jobs)[item] > 0)
  {}

  /** The items that have more than one occurrence are exactly those of `again`. */
  ghost predicate AtMostOnceBut(occurrences: multiset<Item>, again: set<Item>) {
    forall item :: occurrences[item] <= 1 <==> item !in again
  }

  lemma OneMore(occurrences: multiset<Item>, again: set<Item>, item: Item)
    requires AtMostOnceBut(occurrences, again)
    ensures AtMostOnceBut(Plus(occurrences, item, true), again + if occurrences[item] > 0 then {item} else {})
  {}

  /** Only what was struck or missed is ingested again, and only what was missed has two completed jobs. */
  ghost predicate Explained(l: Ledger, again: set<Item>, missed: set<Item>) {
    forall item :: (item in again ==> l.struck[item] > 0 || item in missed) && (Done(l.jobs)[item] > 1 ==> item in missed)
  }

  /** Processing keeps this as long as an item that has a completed job counts as missed. */
  lemma ProcessedIsExplained(l: Ledger, again: set<Item>, missed: set<Item>, item: Item, fault: Fault)
    requires l.Balanced() && Explained(l, again, missed)
    requires Done(l.jobs)[item] > 0 ==> item in missed
    ensures Explained(l.Processed(item, fault), again + if fault.Commits() && l.occurrences[item] > 0 then {item} else {}, missed)
  {
    hide Done, Ledger.Processed;
    ProcessedIsBalanced(l, item, fault);
  }

  // ---------------------------------------------------------------- the watcher

  /** What a scan meets at one path: the two readings of the content (by the recovery, which may fail, and by
      the ingest), the job records that cannot be read then, the fingerprint, and the answers of the surroundings. */
  datatype Sight = Sight(path: Path, hashed: Option<Sha>, unread: set<nat>, staged: Sha, fingerprint: Fingerprint,
                         tooLarge: bool, stable: bool, claimed: bool, recoverRaises: Option<bool>, fault: Fault)
  {
    /** What the ingest takes in. */
    function Staged(): Item { Item(path, staged) }

    /** The recovery sees the content that the ingest would take, and every job record. */
    predicate Clear() { hashed == Some(staged) && unread == {} }
  }

  /** Job `i` is what the recovery looks for: complete, for this path and the content hashed, and readable. */
  predicate Matches(jobs: seq<Job>, s: Sight, i: nat) {
    i < |jobs| && s.hashed.Some? && i !in s.unread && jobs[i] == Job(Item(s.path, s.hashed.value), Completed)
  }

  /** The recovery finds a completed job. */
  predicate Found(jobs: seq<Job>, s: Sight) { exists i :: 0 <= i < |jobs| && Matches(jobs, s, i) }

  /** A completed job covers what the ingest would take, and the recovery does not find one. */
  predicate Overlooked(jobs: seq<Job>, s: Sight) { Done(jobs)[s.Staged()] > 0 && !Found(jobs, s) }

  /** With unchanged content the completed jobs are overlooked exactly when there are some and the hash fails or none
      of them can be read; otherwise what is found is a completed job for the content. */
  lemma OverlookedIff(jobs: seq<Job>, s: Sight)
    requires s.hashed.None? || s.hashed == Some(s.staged)
    ensures Found(jobs, s) ==> Done(jobs)[s.Staged()] > 0
    ensures Overlooked(jobs, s) <==>
      Done(jobs)[s.Staged()] > 0
      && (s.hashed.None? || forall i :: 0 <= i < |jobs| && jobs[i] == Job(s.Staged(), Completed) ==> i in s.unread)
    ensures s.Clear() ==> !Overlooked(jobs, s)
  {
    DoneHas(jobs, s.Staged());
    if s.hashed.Some? {
      forall i | 0 <= i < |jobs|
        ensures Matches(jobs, s, i) <==> i !in s.unread && jobs[i] == Job(s.Staged(), Completed)
      {}
    }
  }

  /** The file is processed, or recovered if a completed job covers it. */
  predicate Claimed(s: Sight) { !s.tooLarge && s.stable && s.claimed }

  class WatchedInbox {
    const maxRetries: nat
    const retryDelay: nat
    var files: map<Path, Entry>          // state["files"] in memory
    var saved: map<Path, Entry>          // the same on disk
    var occurrences: multiset<Item>
    var jobs: seq<Job>
    ghost var struck: multiset<Item>     // occurrences whose job was not completed
    ghost var again: set<Item>           // items that were ingested when they had an occurrence already
    ghost var missed: set<Item>          // items that were processed although a completed job covers them

    constructor (maxRetries: nat, retryDelay: nat)
      ensures Valid() && files == map[] && jobs == [] && missed == {}
      ensures occurrences == multiset{} && struck == multiset{} && again == {}
      ensures this.maxRetries == maxRetries && this.retryDelay == retryDelay
    {
      this.maxRetries, this.retryDelay := maxRetries, retryDelay;
      files, saved, occurrences, jobs, struck, again, missed := map[], map[], multiset{}, [], multiset{}, {}, {};
    }

    ghost function Books(): Ledger
      reads this`occurrences, this`jobs, this`struck
    { Ledger(occurrences, jobs, struck) }

    /** The books balance, an item has at most one occurrence unless it was ingested again, and that it was, or that
        it has two completed jobs, is explained by what was struck and missed. */
    ghost predicate Valid()
      reads this`occurrences, this`jobs, this`struck, this`again, this`missed
    { Books().Balanced() && AtMostOnceBut(occurrences, again) && Explained(Books(), again, missed) }

    /** `_recover_completed`: the first readable completed job for this path and the content hashed; nothing when the
        hash fails. */
    method Recover(s: Sight) returns (job: Option<nat>)
      ensures job.Some? <==> Found(jobs, s)
      ensures job.Some? ==> Matches(jobs, s, job.value) && forall j :: 0 <= j < job.value ==> !Matches(jobs, s, j)
    {
      if s.hashed.None? {
        return None;
      }
      for i := 0 to |jobs|
        invariant forall j :: 0 <= j < i ==> !Matches(jobs, s, j)
      {
        if i !in s.unread && jobs[i].state == Completed && jobs[i].item == Item(s.path, s.hashed.value) {
          assert Matches(jobs, s, i);
          return Some(i);
        }
      }
      return None;
    }

    /** `_process`, `ingest_file` and `ingest_staged`: a job record, the ingest, the final job record.
        `crashed` ends the scan; `raised` is an exception, permanent or not. */
    method Process(item: Item, fault: Fault) returns (crashed: bool, raised: Option<bool>)
      requires Valid() && (Done(jobs)[item] > 0 ==> item in missed)
      modifies this`occurrences, this`jobs, this`struck, this`again
      ensures Valid() && crashed == fault.Crashes() && raised == fault.Raised()
      ensures Books() == old(Books()).Processed(item, fault)
      ensures again == old(again) + if fault.Commits() && old(occurrences)[item] > 0 then {item} else {}
      ensures fault == Smooth ==> |jobs| > 0 && jobs[|jobs| - 1] == Job(item, Completed)
      // the job record that is left, and whether the occurrence was committed
      ensures fault.RaisesBeforeJob? || fault == CrashesBeforeJob ==> jobs == old(jobs) && occurrences == old(occurrences)
      ensures fault.RaisesInIngest? || fault.RaisesInWindow? ==> jobs == old(jobs) + [Job(item, JobFailed)]
      ensures fault in {CrashesInIngest, CrashesInWindow} ==> jobs == old(jobs) + [Job(item, Ingesting)]
      ensures fault.RaisesInIngest? || fault == CrashesInIngest ==> occurrences == old(occurrences)
      ensures fault in {Smooth, CrashesAfterJob} || fault.RaisesAfterJob? ==> jobs == old(jobs) + [Job(item, Completed)]
      ensures fault in {Smooth, CrashesInWindow, CrashesAfterJob} || fault.RaisesInWindow? || fault.RaisesAfterJob? ==>
        occurrences == old(occurrences)[item := old(occurrences)[item] + 1]
    {
      hide Done, Ledger.Balanced, AtMostOnceBut, Explained;
      ProcessedIsBalanced(Books(), item, fault);
      ProcessedIsExplained(Books(), again, missed, item, fault);
      assert again + {} == again;
      crashed, raised := fault.Crashes(), fault.Raised();
      if fault.RaisesBeforeJob? || fault == CrashesBeforeJob {
        return;
      }
      jobs := jobs + [Job(item, Ingesting)];
      if fault == CrashesInIngest {
        return;
      }
      if fault.RaisesInIngest? {
        jobs := jobs[|jobs| - 1 := Job(item, JobFailed)];
        assert jobs == old(jobs) + [Job(item, JobFailed)];
        return;
      }
      Commit(item, fault);
      assert jobs == old(jobs) + [Job(item, fault.Leaves().value)];
    }

    /** The part of an ingest from its commit on. */
    method Commit(item: Item, fault: Fault)
      requires fault.Commits() && jobs != [] && jobs[|jobs| - 1] == Job(item, Ingesting) && AtMostOnceBut(occurrences, again)
      modifies this`occurrences, this`jobs, this`struck, this`again
      ensures occurrences == Plus(old(occurrences), item, true) && struck == Plus(old(struck), item, fault.InWindow())
      ensures jobs == old(jobs)[|old(jobs)| - 1 := Job(item, fault.Leaves().value)]
      ensures AtMostOnceBut(occurrences, again)
      ensures again == old(again) + if old(occurrences)[item] > 0 then {item} else {}
    {
      hide AtMostOnceBut;
      OneMore(occurrences, again, item);
      again := again + if occurrences[item] > 0 then {item} else {};
      occurrences := Plus(occurrences, item, true);
      if fault.InWindow() {
        struck := Plus(struck, item, true);
        if fault.RaisesInWindow? {
          jobs := jobs[|jobs| - 1 := Job(item, JobFailed)];
        }
        return;
      }
      jobs := jobs[|jobs| - 1 := Job(item, Completed)];
    }

    /** Whether a scan passes over a file because of what it remembers of it. */
    predicate PassesOver(s: Sight, clock: int)
      reads this
    {
      s.path in files && files[s.path].fingerprint == s.fingerprint
      && (files[s.path].status in {FileCompleted, Ignored, FileFailed}
          || (files[s.path].status == RetryWait && clock < files[s.path].nextRetry))
    }

    function FailStatus(retries: nat, permanent: bool): Status {
      if permanent || maxRetries <= retries + 1 then FileFailed else RetryWait
    }

    /** What becomes of a file that is not passed over; None is a crash. `known` says whether a completed
        job covers its content. */
    function StatusAfter(s: Sight, retries: nat, known: bool): Option<Status> {
      if s.tooLarge then Some(FileFailed)
      else if !s.stable then Some(WaitingStable)
      else if !s.claimed then Some(Ready)
      else if known then Some(if s.recoverRaises.Some? then FailStatus(retries, s.recoverRaises.value) else FileCompleted)
      else
        match s.fault
        case Smooth => Some(FileCompleted)
        case RaisesBeforeJob(permanent) => Some(FailStatus(retries, permanent))
        case RaisesInIngest(permanent) => Some(FailStatus(retries, permanent))
        case RaisesInWindow(permanent) => Some(FailStatus(retries, permanent))
        case RaisesAfterJob(permanent) => Some(FailStatus(retries, permanent))
        case _ => None
    }

    function Retries(path: Path): nat
      reads this
    { if path in files then files[path].retries else 0 }

    /** The exception handler: a permanent failure, or another try later. */
    method Fail(s: Sight, retries: nat, permanent: bool, clock: int)
      modifies this`files
      ensures s.path in files && files == old(files)[s.path := files[s.path]]
      ensures files[s.path].retries == retries + 1 && files[s.path].fingerprint == s.fingerprint
      ensures files[s.path].status == FailStatus(retries, permanent)
      ensures files[s.path].nextRetry == clock + Backoff(retryDelay, retries)
    {
      var next := clock + Backoff(retryDelay, retries);
      files := files[s.path := Entry(FailStatus(retries, permanent), s.fingerprint, retries + 1, next, None)];
    }

    /** Processing of a claimed file that no completed job covers. */
    method Attempt(s: Sight, retries: nat, clock: int) returns (crashed: bool)
      requires Valid() && s.path in files && files[s.path].fingerprint == s.fingerprint
      requires Done(jobs)[s.Staged()] > 0 ==> s.Staged() in missed
      modifies this`files, this`saved, this`occurrences, this`jobs, this`struck, this`again
      ensures Valid() && crashed == s.fault.Crashes()
      ensures Books() == old(Books()).Processed(s.Staged(), s.fault)
      ensures again == old(again) + if s.fault.Commits() && old(occurrences)[s.Staged()] > 0 then {s.Staged()} else {}
      ensures s.path in files && files == old(files)[s.path := files[s.path]] && files[s.path].fingerprint == s.fingerprint
      ensures files[s.path].status == if crashed then Processing
                                      else if s.fault.Raised().Some? then FailStatus(retries, s.fault.Raised().value)
                                      else FileCompleted
      ensures s.fault.Raised().Some? || files[s.path].status == RetryWait ==>
        files[s.path].nextRetry == clock + Backoff(retryDelay, retries) && files[s.path].retries == retries + 1
    {
      hide Done, Backoff, Valid, Ledger.Processed;
      files := files[s.path := files[s.path].(status := Processing)];
      saved := files;
      var raised;
      crashed, raised := Process(s.Staged(), s.fault);
      if crashed {
        // the watcher starts again from what it had saved
        files := saved;
      } else if raised.Some? {
        Fail(s, retries, raised.value, clock);
      } else {
        files := files[s.path := Entry(FileCompleted, s.fingerprint, retries, 0, Some(|jobs| - 1))];
      }
    }

    /** What is noted as missed when this file is not passed over. */
    ghost function MissedIn(s: Sight): set<Item>
      reads this`jobs
    { if Claimed(s) && Overlooked(jobs, s) then {s.Staged()} else {} }

    /** A claimed file: recovered if a completed job is found, processed if not. */
    method Settle(s: Sight, retries: nat, clock: int) returns (crashed: bool)
      requires Valid() && Claimed(s) && s.path in files && files[s.path].fingerprint == s.fingerprint
      modifies this
      ensures Valid()
      ensures var item, known := s.Staged(), old(Found(jobs, s));
        && Books() == (if known then old(Books()) else old(Books()).Processed(item, s.fault))
        && again == old(again) + (if !known && s.fault.Commits() && old(occurrences)[item] > 0 then {item} else {})
        && missed == old(missed) + old(MissedIn(s))
        && (crashed <==> StatusAfter(s, retries, known) == None)
        && s.path in files && files == old(files)[s.path := files[s.path]] && files[s.path].fingerprint == s.fingerprint
        && (!crashed ==> Some(files[s.path].status) == StatusAfter(s, retries, known))
        && (crashed ==> files[s.path].status == Processing)
        && (files[s.path].status == RetryWait || (!known && s.fault.Raised().Some?) ==>
              files[s.path].nextRetry == clock + Backoff(retryDelay, retries) && files[s.path].retries == retries + 1)
    {
      hide Done, Found, Backoff, AtMostOnceBut, Ledger.Balanced, Ledger.Processed;
      var recovered := Recover(s);
      if recovered.Some? {
        if s.recoverRaises.Some? {
          Fail(s, retries, s.recoverRaises.value, clock);
        } else {
          files := files[s.path := Entry(FileCompleted, s.fingerprint, retries, 0, recovered)];
        }
        return false;
      }
      missed := missed + MissedIn(s);
      crashed := Attempt(s, retries, clock);
    }

    /** The body of a scan for one file. A ready file is ingested unless the recovery finds a completed job; what the
        ingest takes is then missed iff a completed job covers it all the same, and ingested again iff it has an
        occurrence. */
    method ScanFile(s: Sight, clock: int) returns (crashed: bool)
      requires Valid()
      modifies this
      ensures Valid()
      ensures old(PassesOver(s, clock)) ==>
        !crashed && files == old(files) && Books() == old(Books()) && again == old(again) && missed == old(missed)
      ensures !old(PassesOver(s, clock)) ==>
        var item, known := s.Staged(), old(Found(jobs, s));
        && Books() == (if !known && Claimed(s) then old(Books()).Processed(item, s.fault) else old(Books()))
        && again == old(again) + (if !known && Claimed(s) && s.fault.Commits() && old(occurrences)[item] > 0 then {item} else {})
        && missed == old(missed) + old(MissedIn(s))
        && (crashed <==> StatusAfter(s, old(Retries(s.path)), known) == None)
        && s.path in files && files == old(files)[s.path := files[s.path]] && files[s.path].fingerprint == s.fingerprint
        && (!crashed ==> Some(files[s.path].status) == StatusAfter(s, old(Retries(s.path)), known))
        && (crashed ==> files[s.path].status == Processing)
        && (files[s.path].status == RetryWait ==> files[s.path].nextRetry == clock + Backoff(retryDelay, old(Retries(s.path))))
      // a file that is not due is left alone
      ensures !old(Due(files, s, clock)) ==>
        !crashed && files == old(files) && Books() == old(Books()) && again == old(again) && missed == old(missed)
      // one that is due is refused, waits, or is found to be known already
      ensures old(Due(files, s, clock)) && (s.tooLarge || !s.stable || !s.claimed) ==>
        !crashed && occurrences == old(occurrences) && jobs == old(jobs)
        && files[s.path].status == if s.tooLarge then FileFailed else if !s.stable then WaitingStable else Ready
      ensures old(Due(files, s, clock)) && !s.tooLarge && s.stable && s.claimed && old(Found(jobs, s)) ==>
        !crashed && occurrences == old(occurrences) && jobs == old(jobs)
        && (s.recoverRaises == None ==> files[s.path].status == FileCompleted)
      // and otherwise it is ingested, unless something raises; then it fails for good or is tried again later
      ensures old(Due(files, s, clock)) && !s.tooLarge && s.stable && s.claimed && !old(Found(jobs, s)) ==>
        && (s.fault == Smooth ==>
              && !crashed && files[s.path].status == FileCompleted
              && occurrences == old(occurrences)[s.Staged() := old(occurrences)[s.Staged()] + 1]
              && jobs == old(jobs) + [Job(s.Staged(), Completed)])
        && (s.fault.Raised().Some? ==>
              var retries := if s.path in old(files) then old(files)[s.path].retries else 0;
              && !crashed && files[s.path].retries == retries + 1
              && files[s.path].status == (if s.fault.Raised().value || maxRetries <= retries + 1 then FileFailed else RetryWait)
              && files[s.path].nextRetry == clock + retryDelay * Power(if retries < 6 then retries else 6))
    {
      hide Done, Found, Overlooked, Backoff, Valid, Power, Ledger.Processed, Matches;
      BackoffDoubles(retryDelay, Retries(s.path));
      SmoothIsRecorded(Books(), s.Staged());
      if PassesOver(s, clock) {
        return false;
      }
      var retries := Retries(s.path);
      if s.tooLarge {
        files := files[s.path := Entry(FileFailed, s.fingerprint, 0, 0, None)];
        return false;
      }
      files := files[s.path := Entry(if s.stable then Ready else WaitingStable, s.fingerprint, retries, 0, None)];
      if !s.stable || !s.claimed {
        return false;
      }
      crashed := Settle(s, retries, clock);
    }

    /** What one file contributes to a scan. */
    method ScanNext(s: Sight, clock: int) returns (crashed: bool)
      requires Valid()
      modifies this
      ensures Valid() && old(occurrences) <= occurrences && old(struck) <= struck && old(again) <= again
      ensures old(missed) <= missed <= old(missed) + if Claimed(s) && !s.Clear() then {s.Staged()} else {}
    {
      hide Done, Found, Matches, Overlooked, StatusAfter, PassesOver, Backoff, Valid, Ledger.Processed;
      ProcessedGrows(Books(), s.Staged(), s.fault);
      if s.Clear() {
        OverlookedIff(jobs, s);
      }
      crashed := ScanFile(s, clock);
    }

    /** The files in the order met, up to a crash. */
    method ScanAll(sights: seq<Sight>, clock: int) returns (crashed: bool)
      requires Valid()
      modifies this
      ensures Valid() && old(occurrences) <= occurrences && old(struck) <= struck && old(again) <= again
      ensures old(missed) <= missed <= old(missed) + Unclear(sights)
    {
      hide Valid;
      crashed := false;
      for i := 0 to |sights|
        invariant Valid() && old(occurrences) <= occurrences && old(struck) <= struck && old(again) <= again
        invariant old(missed) <= missed <= old(missed) + Unclear(sights)
      {
        assert sights[i] in sights;
        assert Claimed(sights[i]) && !sights[i].Clear() ==> sights[i].Staged() in Unclear(sights);
        crashed := ScanNext(sights[i], clock);
        if crashed {
          return;
        }
      }
    }

    /** What the invariant says of items with more than one occurrence or completed job. */
    lemma Explains()
      requires Valid()
      ensures forall item :: occurrences[item] > 1 <==> item in again
      ensures forall item :: occurrences[item] > 1 ==> struck[item] > 0 || item in missed
      ensures forall item :: Done(jobs)[item] > 1 ==> item in missed
    {
      hide Done, Ledger.Balanced;
    }

    /** `scan_once`, over the files in the order met. Over any scans, with exceptions and crashes anywhere: an item
        has at most one occurrence iff it was never ingested again, it is ingested again only if an occurrence of it
        was struck or a completed job for it was missed, and it has two completed jobs only if one was missed. A scan
        misses nothing but what a file held whose content changed or could not be hashed, or whose jobs could not all
        be read. */
    method Scan(sights: seq<Sight>, clock: int) returns (crashed: bool)
      requires Valid()
      modifies this
      ensures Valid() && old(occurrences) <= occurrences && old(struck) <= struck && old(again) <= again
      ensures forall item :: occurrences[item] > 1 <==> item in again
      ensures forall item :: occurrences[item] > 1 ==> struck[item] > 0 || item in missed
      ensures forall item :: Done(jobs)[item] > 1 ==> item in missed
      ensures old(missed) <= missed <= old(missed) + Unclear(sights)
    {
      hide Valid;
      crashed := ScanAll(sights, clock);
      Explains();
      if crashed {
        files := saved;
      } else {
        saved := files;
      }
    }
  }

  /** What a scan remembers of a file does not keep it from looking at the file. */
  predicate Due(files: map<Path, Entry>, s: Sight, clock: int) {
    || s.path !in files || files[s.path].fingerprint != s.fingerprint
    || files[s.path].status in {WaitingStable, Ready, Processing}
    || (files[s.path].status == RetryWait && files[s.path].nextRetry <= clock)
  }

  lemma SmoothIsRecorded(l: Ledger, item: Item)
    ensures var after := l.Processed(item, Smooth);
      && after.occurrences == l.occurrences[item := l.occurrences[item] + 1] && after.jobs == l.jobs + [Job(item, Completed)]
  {}

  function Power(n: nat): nat { if n == 0 then 1 else 2 * Power(n - 1) }

  /** The wait doubles with every try, up to 64 times the configured delay. */
  lemma BackoffDoubles(delay: nat, retries: nat)
    ensures Backoff(delay, retries) == delay * Power(if retries < 6 then retries else 6)
  {
    assert Power(0) == 1 && Power(1) == 2 && Power(2) == 4 && Power(3) == 8 && Power(4) == 16;
    assert Power(5) == 32 && Power(6) == 64;
  }

  /** What the files hold that a scan might miss. */
  ghost function Unclear(sights: seq<Sight>): set<Item> {
    set s | s in sights && Claimed(s) && !s.Clear() :: s.Staged()
  }

  lemma NothingDone(item: Item)
    ensures Done([])[item] == 0
  {}

  /** Two scans duplicate an occurrence although the content never changes: the first ends in the window, by a
      crash or by an exception after which the file is tried again, and the second meets no fault. */
  method TwoScansDuplicate(path: Path, sha: Sha, fingerprint: Fingerprint, crash: bool) returns (count: nat)
    ensures count == 2
  {
    hide Done, Overlooked, Due, Power, WatchedInbox.Valid, WatchedInbox.MissedIn;
    var inbox := new WatchedInbox(5, 60);
    var fault := if crash then CrashesInWindow else RaisesInWindow(false);
    var sight := Sight(path, Some(sha), {}, sha, fingerprint, false, true, true, None, fault);
    var item := Item(path, sha);
    var crashed := inbox.ScanFile(sight, 0);
    assert !inbox.PassesOver(sight.(fault := Smooth), 60);
    assert forall i :: 0 <= i < |inbox.jobs| ==> inbox.jobs[i].state != Completed;
    crashed := inbox.ScanFile(sight.(fault := Smooth), 60);
    return inbox.occurrences[item];
  }

  lemma SecondOccurrence(item: Item)
    ensures Ledger(multiset{item}, [Job(item, Completed)], multiset{}).Processed(item, Smooth)
         == Ledger(multiset{item, item}, [Job(item, Completed), Job(item, Completed)], multiset{})
  {}

  /** Two scans duplicate an occurrence, and its completed job, although the content never changes and nothing is
      struck: the first crashes after the final job write, the second cannot hash the file for a moment, or cannot
      read the job record. */
  method TwoScansOverlook(path: Path, sha: Sha, fingerprint: Fingerprint, hashFails: bool)
    returns (count: nat, jobs: seq<Job>)
    ensures count == 2 && jobs == [Job(Item(path, sha), Completed), Job(Item(path, sha), Completed)]
  {
    hide Done, Overlooked, Backoff, Due, Power, WatchedInbox.Valid, WatchedInbox.MissedIn;
    var inbox := new WatchedInbox(5, 60);
    var sight := Sight(path, Some(sha), {}, sha, fingerprint, false, true, true, None, CrashesAfterJob);
    var crashed := inbox.ScanFile(sight, 0);
    assert inbox.Books() == Ledger(multiset{sight.Staged()}, [Job(sight.Staged(), Completed)], multiset{});
    hide Ledger.Processed;
    var later := sight.(hashed := if hashFails then None else Some(sha), unread := if hashFails then {} else {0},
                        fault := Smooth);
    assert !inbox.PassesOver(later, 60) && !Found(inbox.jobs, later);
    crashed := inbox.ScanFile(later, 60);
    SecondOccurrence(sight.Staged());
    return inbox.occurrences[Item(path, sha)], inbox.jobs;
  }

  function Backoff(delay: nat, retries: nat): nat {
    delay * match retries case 0 => 1 case 1 => 2 case 2 => 4 case 3 => 8 case 4 => 16 case 5 => 32 case _ => 64
  }
}
