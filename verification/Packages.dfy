/**
  Event-sourced packages. The live tables are updated step by step by `sync_aminet`, `_package` and
  `mark_missing` (src/rab/acquisition.py); a rebuild forgets them and replays the generation and
  event sidecars (src/rab/catalogue.py, `_package_state` and the package part of
  `_insert_base_index`). Times strictly increase, so sidecars replay in the order they were written.
*/
module Packages {
  import opened Common

  type Sha = string

  /** "source:stem"; source identifiers contain no colon. */
  datatype Pid = Pid(source: string, stem: string)

  datatype Completeness = Complete | PayloadMissing | ReadmeMissing | AcquisitionFailed

  /** The part of a package row, or of a generation, that says what the package consists of. */
  datatype Content = Content(payload: Option<Sha>, readme: Option<Sha>, completeness: Completeness)

  datatype Row = Row(content: Content, metadata: string, generation: nat, present: bool)

  /** A generation sidecar. */
  datatype GenFile = GenFile(pid: Pid, generation: nat, content: Content, metadata: string)

  datatype Kind = Disappearance | Reappearance | PackageState | SourceIngest | PackageFailed

  /** A source event sidecar: `package` is the package_id of its detail, where it has one. */
  datatype Event = Event(source: string, path: string, kind: Kind, package: Option<Pid>)

  // ---------------------------------------------------------------- replay

  /** The generations of one package, oldest first. */
  function Own(files: seq<GenFile>, pid: Pid): seq<GenFile> {
    if files == [] then []
    else
      var last := files[|files| - 1];
      Own(files[..|files| - 1], pid) + if last.pid == pid then [last] else []
  }

  /** `max(own, key=generation)`: the first of the greatest. */
  function Latest(own: seq<GenFile>): (f: GenFile)
    requires own != []
    ensures forall g :: g in own ==> g.generation <= f.generation
    ensures exists i :: 0 <= i < |own| && own[i] == f && forall j :: 0 <= j < i ==> own[j].generation < f.generation
  {
    if |own| == 1 then own[0]
    else
      var before := Latest(own[..|own| - 1]);
      var last := own[|own| - 1];
      if before.generation < last.generation then last else before
  }

  predicate Concerns(e: Event, pid: Pid) { e.package == Some(pid) || e.path == pid.stem }

  /** The presence that the events leave a package with. */
  function Present(events: seq<Event>, pid: Pid): bool {
    if events == [] then true
    else
      var e := events[|events| - 1];
      if Concerns(e, pid) && e.kind == Disappearance then false
      else if Concerns(e, pid) && e.kind == Reappearance then true
      else Present(events[..|events| - 1], pid)
  }

  /** `_package_state`, as the source loops; None is its IntegrityError for an unknown package. */
  method StateOf(pid: Pid, files: seq<GenFile>, events: seq<Event>) returns (r: Option<(GenFile, bool)>)
    ensures r == if Own(files, pid) == [] then None else Some((Latest(Own(files, pid)), Present(events, pid)))
  {
    var own := [];
    for i := 0 to |files|
      invariant own == Own(files[..i], pid)
    {
      assert files[..i + 1][..i] == files[..i];
      if files[i].pid == pid {
        own := own + [files[i]];
      }
    }
    assert files[..|files|] == files;
    if own == [] {
      return None;
    }
    var present := true;
    for i := 0 to |events|
      invariant present == Present(events[..i], pid)
    {
      assert events[..i + 1][..i] == events[..i];
      if events[i].package == Some(pid) || events[i].path == pid.stem {
        if events[i].kind == Disappearance {
          present := false;
        } else if events[i].kind == Reappearance {
          present := true;
        }
      }
    }
    assert events[..|events|] == events;
    return Some((Latest(own), present));
  }

  function Pids(files: seq<GenFile>): set<Pid> { set f | f in files :: f.pid }

  lemma {:induction false} OwnOfKnown(files: seq<GenFile>, pid: Pid)
    ensures Own(files, pid) != [] <==> pid in Pids(files)
    ensures forall f :: f in Own(files, pid) <==> f in files && f.pid == pid
  {
    if files != [] {
      OwnOfKnown(files[..|files| - 1], pid);
      assert files == files[..|files| - 1] + [files[|files| - 1]];
    }
  }

  /** The newest generation of a package that has generations. */
  function Newest(files: seq<GenFile>, pid: Pid): (f: GenFile)
    requires pid in Pids(files)
    ensures f in files && f.pid == pid
  {
    OwnOfKnown(files, pid);
    Latest(Own(files, pid))
  }

  /** The row a rebuild writes for a package. */
  function Replayed(pid: Pid, files: seq<GenFile>, events: seq<Event>): Row
    requires pid in Pids(files)
  {
    var f := Newest(files, pid);
    Row(f.content, f.metadata, f.generation, Present(events, pid))
  }

  predicate Whole(content: Content) { content.payload.Some? && content.readme.Some? }

  /** The package part of a rebuild: None is the AttributeError of `None.removeprefix`, raised for a
      newest generation that lacks its payload or its readme. */
  function Rebuilt(files: seq<GenFile>, events: seq<Event>): Option<map<Pid, Row>> {
    if forall pid :: pid in Pids(files) ==> Whole(Newest(files, pid).content)
    then Some(map pid | pid in Pids(files) :: Replayed(pid, files, events))
    else None
  }

  /** The loop of a rebuild over all package identifiers. */
  method Rebuild(files: seq<GenFile>, events: seq<Event>) returns (r: Option<map<Pid, Row>>)
    ensures r == Rebuilt(files, events)
  {
    hide Own, Latest, Present, Pids;
    var table: map<Pid, Row> := map[];
    var pending := Pids(files);
    while pending != {}
      invariant pending <= Pids(files) && table.Keys == Pids(files) - pending
      invariant forall pid :: pid in table ==> table[pid] == Replayed(pid, files, events)
      invariant forall pid :: pid in table ==> Whole(Newest(files, pid).content)
      decreases pending
    {
      var pid :| pid in pending;
      OwnOfKnown(files, pid);
      var state := StateOf(pid, files, events);
      var (latest, present) := state.value;
      assert latest == Newest(files, pid);
      if latest.content.payload == None || latest.content.readme == None {
        return None;
      }
      table := table[pid := Row(latest.content, latest.metadata, latest.generation, present)];
      pending := pending - {pid};
    }
    assert table == map pid | pid in Pids(files) :: Replayed(pid, files, events);
    return Some(table);
  }

  /** The live package rows next to the sidecars written so far. */
  datatype Story = Story(packages: map<Pid, Row>, files: seq<GenFile>, events: seq<Event>)

  // ---------------------------------------------------------------- agreement of live rows and sidecars

  /** The sidecars of one package tell the same story as its live row: generations dense from 1,
      neighbours different, the last one and the folded presence as in the row. */
  ghost predicate RowAgrees(row: Row, pid: Pid, files: seq<GenFile>, events: seq<Event>) {
    var own := Own(files, pid);
    && row.generation == |own| >= 1
    && (forall i :: 0 <= i < |own| ==> own[i].generation == i + 1)
    && (forall i :: 0 < i < |own| ==> own[i].content != own[i - 1].content)
    && own[|own| - 1].content == row.content && own[|own| - 1].metadata == row.metadata
    && Present(events, pid) == row.present
  }

  /** Every disappearance is that of a tracked file or of a known package. */
  ghost predicate Accounted(e: Event, packages: map<Pid, Row>, tracked: set<string>) {
    e.kind == Disappearance ==>
      match e.package
      case None => e.path in tracked
      case Some(pid) => pid in packages && e.path == pid.stem
  }

  /** Package stems belong to one source each and are not paths of tracked files. */
  ghost predicate Separate(pids: set<Pid>, tracked: set<string>) {
    && (forall p, q :: p in pids && q in pids && p.stem == q.stem ==> p == q)
    && (forall p :: p in pids ==> p.stem !in tracked)
  }

  ghost predicate Agree(s: Story, tracked: set<string>) {
    && Separate(s.packages.Keys, tracked)
    && (forall f :: f in s.files ==> f.pid in s.packages)
    && (forall e :: e in s.events ==> Accounted(e, s.packages, tracked))
    && (forall pid :: pid in s.packages ==> RowAgrees(s.packages[pid], pid, s.files, s.events))
  }

  lemma MoreTracked(s: Story, tracked: set<string>, more: set<string>)
    requires Agree(s, tracked) && tracked <= more && Separate(s.packages.Keys, more)
    ensures Agree(s, more)
  {}

  /** Replaying the sidecars of a package gives back its live row. */
  lemma ReplayOfRow(row: Row, pid: Pid, files: seq<GenFile>, events: seq<Event>)
    requires RowAgrees(row, pid, files, events)
    ensures pid in Pids(files) && Replayed(pid, files, events) == row
  {
    OwnOfKnown(files, pid);
    LatestOfDense(Own(files, pid));
  }

  /** Replay equals live, for every package and no others. */
  lemma ReplayEqualsLive(s: Story, tracked: set<string>)
    requires Agree(s, tracked)
    ensures Pids(s.files) == s.packages.Keys
    ensures forall pid :: pid in s.packages ==> Replayed(pid, s.files, s.events) == s.packages[pid]
  {
    hide Replayed, RowAgrees;
    forall pid | pid in s.packages
      ensures pid in Pids(s.files) && Replayed(pid, s.files, s.events) == s.packages[pid]
    {
      ReplayOfRow(s.packages[pid], pid, s.files, s.events);
    }
  }

  lemma {:induction false} LatestOfDense(own: seq<GenFile>)
    requires own != [] && forall i :: 0 <= i < |own| ==> own[i].generation == i + 1
    ensures Latest(own) == own[|own| - 1]
  {
    if 1 < |own| {
      LatestOfDense(own[..|own| - 1]);
    }
  }

  /** A rebuild succeeds exactly when every live package is whole, and then restores the live rows. */
  lemma RebuildIffWhole(s: Story, tracked: set<string>)
    requires Agree(s, tracked)
    ensures Rebuilt(s.files, s.events).Some? <==> forall pid :: pid in s.packages ==> Whole(s.packages[pid].content)
    ensures Rebuilt(s.files, s.events).Some? ==> Rebuilt(s.files, s.events).value == s.packages
  {
    hide Agree, Pids, Newest, Present;
    ReplayEqualsLive(s, tracked);
    forall pid | pid in s.packages
      ensures Newest(s.files, pid).content == s.packages[pid].content
    {
      assert Replayed(pid, s.files, s.events) == s.packages[pid];
    }
  }

  // ---------------------------------------------------------------- how one step changes the story

  lemma OwnAppend(files: seq<GenFile>, f: GenFile, pid: Pid)
    ensures Own(files + [f], pid) == Own(files, pid) + if f.pid == pid then [f] else []
  {
    assert (files + [f])[..|files|] == files;
  }

  lemma PresentAppend(events: seq<Event>, e: Event, pid: Pid)
    ensures Present(events + [e], pid)
            == if !Concerns(e, pid) then Present(events, pid)
               else if e.kind == Disappearance then false
               else if e.kind == Reappearance then true
               else Present(events, pid)
  {
    assert (events + [e])[..|events|] == events;
  }

  /** Before its first generation nothing has been said about the presence of a package. */
  lemma {:induction false} NewIsPresent(packages: map<Pid, Row>, events: seq<Event>, tracked: set<string>, pid: Pid)
    requires pid !in packages && Separate(packages.Keys + {pid}, tracked)
    requires forall e :: e in events ==> Accounted(e, packages, tracked)
    ensures Present(events, pid)
  {
    if events != [] {
      var e := events[|events| - 1];
      assert Accounted(e, packages, tracked);
      NewIsPresent(packages, events[..|events| - 1], tracked, pid);
    }
  }

  /** An event that is not about the presence of a package leaves its row in agreement. */
  lemma RowIgnores(row: Row, pid: Pid, files: seq<GenFile>, events: seq<Event>, e: Event)
    requires RowAgrees(row, pid, files, events)
    requires !Concerns(e, pid) || e.kind !in {Disappearance, Reappearance}
    ensures RowAgrees(row, pid, files, events + [e])
  {
    PresentAppend(events, e, pid);
  }

  lemma AccountedAfter(s: Story, e: Event, packages: map<Pid, Row>, tracked: set<string>)
    requires forall x :: x in s.events ==> Accounted(x, s.packages, tracked)
    requires s.packages.Keys <= packages.Keys && Accounted(e, packages, tracked)
    ensures forall x :: x in s.events + [e] ==> Accounted(x, packages, tracked)
  {}

  /** Exactly which event about something else breaks the agreement of a row: one that carries the
      package's stem as its path and moves the presence away from what the row says. */
  lemma ForeignEvent(row: Row, pid: Pid, files: seq<GenFile>, events: seq<Event>, e: Event)
    requires RowAgrees(row, pid, files, events) && e.package != Some(pid)
    ensures RowAgrees(row, pid, files, events + [e]) <==>
      (e.path == pid.stem && e.kind == Disappearance ==> !row.present)
      && (e.path == pid.stem && e.kind == Reappearance ==> row.present)
  {
    PresentAppend(events, e, pid);
  }

  /** An event that says nothing about presence changes no story. */
  lemma NeutralEvent(s: Story, e: Event, tracked: set<string>)
    requires Agree(s, tracked) && e.kind !in {Disappearance, Reappearance}
    ensures Agree(s.(events := s.events + [e]), tracked)
  {
    hide RowAgrees, Accounted;
    forall pid | pid in s.packages
      ensures RowAgrees(s.packages[pid], pid, s.files, s.events + [e])
    {
      RowIgnores(s.packages[pid], pid, s.files, s.events, e);
    }
    NeutralIsAccounted(e, s.packages, tracked);
    AccountedAfter(s, e, s.packages, tracked);
  }

  lemma NeutralIsAccounted(e: Event, packages: map<Pid, Row>, tracked: set<string>)
    requires e.kind != Disappearance || (e.package == None && e.path in tracked)
    ensures Accounted(e, packages, tracked)
  {}

  /** A disappearance of a tracked file is not a disappearance of a package. */
  lemma FileEvent(s: Story, e: Event, tracked: set<string>)
    requires Agree(s, tracked) && e.package == None && e.path in tracked
    ensures Agree(s.(events := s.events + [e]), tracked)
  {
    hide RowAgrees, Accounted;
    forall pid | pid in s.packages
      ensures RowAgrees(s.packages[pid], pid, s.files, s.events + [e])
    {
      RowIgnores(s.packages[pid], pid, s.files, s.events, e);
    }
    NeutralIsAccounted(e, s.packages, tracked);
    AccountedAfter(s, e, s.packages, tracked);
  }

  function PackageEvent(pid: Pid, kind: Kind): Event { Event(pid.source, pid.stem, kind, Some(pid)) }

  lemma RowMoves(row: Row, pid: Pid, files: seq<GenFile>, events: seq<Event>, kind: Kind)
    requires RowAgrees(row, pid, files, events) && kind in {Disappearance, Reappearance}
    ensures RowAgrees(row.(present := kind == Reappearance), pid, files, events + [PackageEvent(pid, kind)])
  {
    PresentAppend(events, PackageEvent(pid, kind), pid);
  }

  /** A package event moves the presence of that package, in its row and in its story. */
  lemma PresenceEvent(s: Story, pid: Pid, kind: Kind, tracked: set<string>)
    requires Agree(s, tracked) && pid in s.packages && kind in {Disappearance, Reappearance}
    ensures Agree(Notice(SetPresent(s, pid, kind == Reappearance), pid, kind), tracked)
  {
    hide RowAgrees, Accounted;
    var e := PackageEvent(pid, kind);
    var packages := SetPresent(s, pid, kind == Reappearance).packages;
    assert packages.Keys == s.packages.Keys;
    forall q | q in packages
      ensures RowAgrees(packages[q], q, s.files, s.events + [e])
    {
      if q == pid {
        RowMoves(s.packages[pid], pid, s.files, s.events, kind);
      } else {
        RowIgnores(s.packages[q], q, s.files, s.events, e);
      }
    }
    assert Accounted(e, packages, tracked) by {
      PackageIsAccounted(pid, kind, packages, tracked);
    }
    AccountedAfter(s, e, packages, tracked);
  }

  lemma PackageIsAccounted(pid: Pid, kind: Kind, packages: map<Pid, Row>, tracked: set<string>)
    requires pid in packages
    ensures Accounted(PackageEvent(pid, kind), packages, tracked)
  {}

  lemma RowGrows(row: Row, pid: Pid, files: seq<GenFile>, events: seq<Event>, content: Content, metadata: string)
    requires RowAgrees(row, pid, files, events) && row.content != content
    ensures RowAgrees(Row(content, metadata, row.generation + 1, row.present), pid,
                      files + [GenFile(pid, row.generation + 1, content, metadata)], events)
  {
    OwnAppend(files, GenFile(pid, row.generation + 1, content, metadata), pid);
  }

  lemma RowStarts(pid: Pid, files: seq<GenFile>, events: seq<Event>, content: Content, metadata: string)
    requires pid !in Pids(files) && Present(events, pid)
    ensures RowAgrees(Row(content, metadata, 1, true), pid, files + [GenFile(pid, 1, content, metadata)], events)
  {
    OwnOfKnown(files, pid);
    OwnAppend(files, GenFile(pid, 1, content, metadata), pid);
  }

  lemma RowElsewhere(row: Row, pid: Pid, files: seq<GenFile>, events: seq<Event>, f: GenFile)
    requires RowAgrees(row, pid, files, events) && f.pid != pid
    ensures RowAgrees(row, pid, files + [f], events)
  {
    OwnAppend(files, f, pid);
    assert Own(files, pid) + [] == Own(files, pid);
  }

  /** A changed package gets the next generation, present like before. */
  lemma GenerationAdded(s: Story, pid: Pid, content: Content, metadata: string, tracked: set<string>)
    requires Agree(s, tracked) && Separate(s.packages.Keys + {pid}, tracked)
    requires pid in s.packages ==> s.packages[pid].content != content
    ensures Agree(NextGeneration(s, pid, content, metadata), tracked)
  {
    hide RowAgrees, Accounted, Present;
    var t := NextGeneration(s, pid, content, metadata);
    var f := t.files[|s.files|];
    assert t.packages.Keys == s.packages.Keys + {pid};
    forall q | q in t.packages
      ensures RowAgrees(t.packages[q], q, t.files, t.events)
    {
      if q != pid {
        RowElsewhere(s.packages[q], q, s.files, s.events, f);
      } else if pid in s.packages {
        RowGrows(s.packages[pid], pid, s.files, s.events, content, metadata);
      } else {
        NewIsPresent(s.packages, s.events, tracked, pid);
        RowStarts(pid, s.files, s.events, content, metadata);
      }
    }
    AccountedAfter(s, PackageEvent(pid, PackageState), t.packages, tracked) by {
      PackageIsAccounted(pid, PackageState, t.packages, tracked);
    }
  }

  // ---------------------------------------------------------------- the live side, as functions of the state

  function NextGeneration(s: Story, pid: Pid, content: Content, metadata: string): Story {
    var known := pid in s.packages;
    var generation := if known then s.packages[pid].generation + 1 else 1;
    var present := if known then s.packages[pid].present else true;
    s.(packages := s.packages[pid := Row(content, metadata, generation, present)],
       files := s.files + [GenFile(pid, generation, content, metadata)])
  }

  function Notice(s: Story, pid: Pid, kind: Kind): Story {
    s.(events := s.events + [PackageEvent(pid, kind)])
  }

  function SetPresent(s: Story, pid: Pid, present: bool): Story
    requires pid in s.packages
  { s.(packages := s.packages[pid := s.packages[pid].(present := present)]) }

  /** `_package`: a changed package gets a new generation, an unchanged one at most reappears. */
  function Recorded(s: Story, pid: Pid, content: Content, metadata: string): Story {
    var reappeared := pid in s.packages && !s.packages[pid].present;
    var changed := pid !in s.packages || s.packages[pid].content != content;
    var t := if changed then Notice(NextGeneration(s, pid, content, metadata), pid, PackageState) else s;
    if reappeared then Notice(SetPresent(t, pid, true), pid, Reappearance) else t
  }

  lemma RecordedAgrees(s: Story, pid: Pid, content: Content, metadata: string, tracked: set<string>)
    requires Agree(s, tracked) && Separate(s.packages.Keys + {pid}, tracked)
    ensures Agree(Recorded(s, pid, content, metadata), tracked)
  {
    hide Agree, RowAgrees;
    var t := s;
    if pid !in s.packages || s.packages[pid].content != content {
      GenerationAdded(s, pid, content, metadata, tracked);
      t := NextGeneration(s, pid, content, metadata);
      NeutralEvent(t, PackageEvent(pid, PackageState), tracked);
      t := Notice(t, pid, PackageState);
    }
    if pid in s.packages && !s.packages[pid].present {
      PresenceEvent(t, pid, Reappearance, tracked);
    }
  }

  lemma RecordedRow(s: Story, pid: Pid, content: Content, metadata: string)
    ensures var t := Recorded(s, pid, content, metadata);
      && t.packages.Keys == s.packages.Keys + {pid}
      && t.packages[pid].content == content && t.packages[pid].present
      && forall q :: q in s.packages && q != pid ==> t.packages[q] == s.packages[q]
  {}

  lemma SeparateLess(pids: set<Pid>, tracked: set<string>, fewer: set<Pid>, less: set<string>)
    requires Separate(pids, tracked) && fewer <= pids && less <= tracked
    ensures Separate(fewer, less)
  {}

  /** The packages whose stems a run no longer finds: all rows first, then all events. */
  function Vanished(s: Story, gone: seq<Pid>): Story
    requires forall i :: 0 <= i < |gone| ==> gone[i] in s.packages
  {
    s.(packages := map pid | pid in s.packages :: if pid in gone then s.packages[pid].(present := false) else s.packages[pid],
       events := s.events + seq(|gone|, i requires 0 <= i < |gone| =>
                                  PackageEvent(gone[i], Disappearance)))
  }

  lemma {:induction false} VanishedAgrees(s: Story, gone: seq<Pid>, tracked: set<string>)
    requires Agree(s, tracked) && forall i :: 0 <= i < |gone| ==> gone[i] in s.packages
    ensures Agree(Vanished(s, gone), tracked)
  {
    hide Agree, RowAgrees;
    if gone == [] {
      assert Vanished(s, gone) == s;
    } else {
      var front, last := gone[..|gone| - 1], gone[|gone| - 1];
      var t := Vanished(s, front);
      VanishedAgrees(s, front, tracked);
      PresenceEvent(t, last, Disappearance, tracked);
      var packages := t.packages[last := t.packages[last].(present := false)];
      assert gone == front + [last];
      assert packages == Vanished(s, gone).packages;
      assert Vanished(s, gone).events == t.events + [PackageEvent(last, Disappearance)];
    }
  }

  // ---------------------------------------------------------------- runs that stop between rows and sidecars

  /** A rebuild would give exactly the live rows, or fail. */
  ghost predicate ReplayIsLive(s: Story) {
    Pids(s.files) == s.packages.Keys && forall pid :: pid in s.packages ==> Replayed(pid, s.files, s.events) == s.packages[pid]
  }

  predicate Changes(s: Story, pid: Pid, content: Content) { pid !in s.packages || s.packages[pid].content != content }

  predicate Reappears(s: Story, pid: Pid) { pid in s.packages && !s.packages[pid].present }

  /** `_package` commits the row first; an exception or a crash then leaves the first `written` of its sidecars: the
      generation and its event for a changed package, and the reappearance of an absent one. */
  function Interrupted(s: Story, pid: Pid, content: Content, metadata: string, written: nat): Story {
    var changed, target := Changes(s, pid, content), Recorded(s, pid, content, metadata);
    var events := if !changed then written else if 0 < written then written - 1 else 0;
    Story(target.packages,
          if changed && 0 < written then target.files else s.files,
          if |s.events| + events <= |target.events| then target.events[..|s.events| + events] else target.events)
  }

  /** Replay is still the live state exactly when a changed package has its generation file and an absent one its
      event of reappearance; if not, a later run that finds the same does not repair it. */
  lemma InterruptedIff(s: Story, pid: Pid, content: Content, metadata: string, written: nat, tracked: set<string>)
    requires Agree(s, tracked) && Separate(s.packages.Keys + {pid}, tracked)
    ensures var t := Interrupted(s, pid, content, metadata, written);
      && Recorded(t, pid, content, metadata) == t
      && (ReplayIsLive(t) <==>
            (Changes(s, pid, content) ==> 1 <= written)
            && (Reappears(s, pid) ==> (if Changes(s, pid, content) then 3 else 1) <= written))
  {
    hide Agree, Separate, ReplayIsLive, Present, Own;
    RecordedRow(s, pid, content, metadata);
    InterruptedStory(s, pid, content, metadata, written);
    var t := Interrupted(s, pid, content, metadata, written);
    if Changes(s, pid, content) && written == 0 {
      GenerationIsMissing(s, t, pid, tracked);
    } else if Reappears(s, pid) && written < (if Changes(s, pid, content) then 3 else 1) {
      PresenceIsMissing(s, t, pid, written, tracked);
    } else {
      if t == NextGeneration(s, pid, content, metadata) {
        GenerationAdded(s, pid, content, metadata, tracked);
      } else {
        RecordedAgrees(s, pid, content, metadata, tracked);
      }
      AgreeIsReplay(t, tracked);
    }
  }

  lemma AgreeIsReplay(s: Story, tracked: set<string>)
    requires Agree(s, tracked)
    ensures ReplayIsLive(s)
  {
    hide Agree, Pids, Replayed;
    ReplayEqualsLive(s, tracked);
  }

  /** The story by the number of sidecars written. */
  lemma InterruptedStory(s: Story, pid: Pid, content: Content, metadata: string, written: nat)
    ensures var t, all := Interrupted(s, pid, content, metadata, written), Recorded(s, pid, content, metadata);
      && t.packages == all.packages
      && (written == 0 ==> t.files == s.files && t.events == s.events)
      && (!Changes(s, pid, content) ==> t.files == s.files && (1 <= written || !Reappears(s, pid) ==> t == all))
      && (Changes(s, pid, content) && 1 <= written ==>
            && (written == 1 && !Reappears(s, pid) ==> t == NextGeneration(s, pid, content, metadata))
            && (written <= 2 ==> t.events == (s.events + [PackageEvent(pid, PackageState)])[..|s.events| + written - 1])
            && (3 <= written || (2 <= written && !Reappears(s, pid)) ==> t == all))
  {
    var t, all := Interrupted(s, pid, content, metadata, written), Recorded(s, pid, content, metadata);
    assert s.events == all.events[..|s.events|];
    if Changes(s, pid, content) {
      assert (s.events + [PackageEvent(pid, PackageState)])[..|s.events|] == s.events;
      assert all.events[..|s.events| + 1] == s.events + [PackageEvent(pid, PackageState)];
    }
  }

  /** Without its generation file a package is unknown to the replay, or known with its former content. */
  lemma GenerationIsMissing(s: Story, t: Story, pid: Pid, tracked: set<string>)
    requires Agree(s, tracked) && t.files == s.files && pid in t.packages
    requires pid in s.packages ==> s.packages[pid].content != t.packages[pid].content
    ensures !ReplayIsLive(t)
  {
    hide RowAgrees, Newest, Accounted;
    if pid in s.packages {
      ReplayOfRow(s.packages[pid], pid, s.files, s.events);
      assert Replayed(pid, t.files, t.events).content == Replayed(pid, s.files, s.events).content;
    }
  }

  /** Without its event of reappearance a package stays absent in the replay. */
  lemma PresenceIsMissing(s: Story, t: Story, pid: Pid, written: nat, tracked: set<string>)
    requires Agree(s, tracked) && pid in s.packages && !s.packages[pid].present
    requires pid in t.packages && t.packages[pid].present
    requires t.events == s.events || t.events == s.events + [PackageEvent(pid, PackageState)]
    ensures !ReplayIsLive(t)
  {
    hide Accounted, Present;
    assert RowAgrees(s.packages[pid], pid, s.files, s.events);
    PresentAppend(s.events, PackageEvent(pid, PackageState), pid);
    if pid in Pids(t.files) {
      assert !Replayed(pid, t.files, t.events).present;
    }
  }

  /** The rows of packages that disappear are committed together; an exception or a crash then leaves the first `k` of
      their events. */
  function VanishedUpTo(s: Story, gone: seq<Pid>, k: nat): Story
    requires k <= |gone| && forall i :: 0 <= i < |gone| ==> gone[i] in s.packages
  { Vanished(s, gone).(events := Vanished(s, gone[..k]).events) }

  /** Replay is still the live state exactly when every event was written; a later run passes over these packages,
      because their rows are absent already. */
  lemma VanishedUpToIff(s: Story, gone: seq<Pid>, k: nat, tracked: set<string>)
    requires Agree(s, tracked) && k <= |gone|
    requires forall i :: 0 <= i < |gone| ==> gone[i] in s.packages && s.packages[gone[i]].present
    requires forall i, j :: 0 <= i < j < |gone| ==> gone[i] != gone[j]
    ensures ReplayIsLive(VanishedUpTo(s, gone, k)) <==> k == |gone|
    ensures forall pid :: pid in gone ==> !VanishedUpTo(s, gone, k).packages[pid].present
  {
    hide Agree, ReplayIsLive;
    var t := VanishedUpTo(s, gone, k);
    if k == |gone| {
      assert gone[..k] == gone;
      VanishedAgrees(s, gone, tracked);
      AgreeIsReplay(t, tracked);
    } else {
      VanishedAgrees(s, gone[..k], tracked);
      AgreeIsReplay(Vanished(s, gone[..k]), tracked);
      StillPresent(s, gone, k);
    }
  }

  lemma StillPresent(s: Story, gone: seq<Pid>, k: nat)
    requires k < |gone| && forall i :: 0 <= i < |gone| ==> gone[i] in s.packages && s.packages[gone[i]].present
    requires forall i, j :: 0 <= i < j < |gone| ==> gone[i] != gone[j]
    requires ReplayIsLive(Vanished(s, gone[..k]))
    ensures !ReplayIsLive(VanishedUpTo(s, gone, k))
  {
    hide Replayed, Pids;
    var u, t, pid := Vanished(s, gone[..k]), VanishedUpTo(s, gone, k), gone[k];
    assert pid !in gone[..k];
    assert Replayed(pid, u.files, u.events) == u.packages[pid] && u.packages[pid].present;
    assert pid in gone && !t.packages[pid].present;
  }

  /** A package whose payload was never found stops every rebuild, although its live row is in order. */
  lemma IncompletePackageStopsRebuild(pid: Pid, readme: Sha, metadata: string)
    ensures var s := Recorded(Story(map[], [], []), pid, Content(None, Some(readme), PayloadMissing), metadata);
      && pid in s.packages && s.packages[pid].present && Agree(s, {})
      && Rebuilt(s.files, s.events) == None
  {
    hide Agree, Rebuilt;
    var content := Content(None, Some(readme), PayloadMissing);
    EmptyAgrees();
    RecordedAgrees(Story(map[], [], []), pid, content, metadata, {});
    RecordedRow(Story(map[], [], []), pid, content, metadata);
    var s := Recorded(Story(map[], [], []), pid, content, metadata);
    RebuildIffWhole(s, {});
    assert !Whole(s.packages[pid].content);
  }

  lemma EmptyAgrees()
    ensures Agree(Story(map[], [], []), {})
  {}

  /** Two sources with the same stem: when the package of one disappears, a rebuild takes the other's
      for absent too. */
  lemma SharedStemIsMisread(content: Content)
    ensures var mine, other := Pid("a", "game"), Pid("b", "game");
      var s := Recorded(Recorded(Story(map[], [], []), mine, content, ""), other, content, "");
      var t := Vanished(s, [other]);
      t.packages[mine].present && !Present(t.events, mine)
  {
    var mine, other := Pid("a", "game"), Pid("b", "game");
    var s := Recorded(Recorded(Story(map[], [], []), mine, content, ""), other, content, "");
    RecordedRow(Story(map[], [], []), mine, content, "");
    RecordedRow(Recorded(Story(map[], [], []), mine, content, ""), other, content, "");
    var t := Vanished(s, [other]);
    assert t.events == s.events + [PackageEvent(other, Disappearance)];
    PresentAppend(s.events, PackageEvent(other, Disappearance), mine);
  }

  /** A package whose stem is the path of a tracked file: the file's disappearance is misread. */
  lemma TrackedStemIsMisread(content: Content)
    ensures var pid := Pid("a", "game.lha");
      var s := Recorded(Story(map[], [], []), pid, content, "");
      s.packages[pid].present && !Present(s.events + [Event("a", "game.lha", Disappearance, None)], pid)
  {
    var pid := Pid("a", "game.lha");
    RecordedRow(Story(map[], [], []), pid, content, "");
    var s := Recorded(Story(map[], [], []), pid, content, "");
    PresentAppend(s.events, Event("a", "game.lha", Disappearance, None), pid);
  }

  function StateFor(failed: bool, payload: Option<Sha>, readme: Option<Sha>): Completeness {
    if failed then AcquisitionFailed
    else if payload.Some? && readme.Some? then Complete
    else if readme.Some? then PayloadMissing
    else ReadmeMissing
  }

  /** What a sync run found and acquired for one stem: the files ingested, and whether it failed. */
  datatype Acquired = Acquired(stem: string, failed: bool, payload: Option<Sha>, readme: Option<Sha>,
                               metadata: string, ingested: seq<string>)
  {
    function What(): Content { Content(payload, readme, StateFor(failed, payload, readme)) }
  }

  /** The row after a stem was recorded: what the run acquired for it, in the next generation and with the new metadata
      if that is new. */
  ghost predicate Holds(before: map<Pid, Row>, packages: map<Pid, Row>, source: string, a: Acquired) {
    var pid := Pid(source, a.stem);
    pid in packages
    && var row := packages[pid];
    && row.present && row.content.payload == a.payload && row.content.readme == a.readme
    && (row.content.completeness == AcquisitionFailed <==> a.failed)
    && (row.content.completeness == Complete <==> !a.failed && a.payload.Some? && a.readme.Some?)
    && (row.content.completeness == PayloadMissing <==> !a.failed && a.payload == None && a.readme.Some?)
    && (row.content.completeness == ReadmeMissing <==> !a.failed && a.readme == None)
    && (if pid in before && before[pid].content == row.content
        then row.generation == before[pid].generation && row.metadata == before[pid].metadata
        else row.generation == (if pid in before then before[pid].generation + 1 else 1) && row.metadata == a.metadata)
  }

  /** A stem of this run whose files could not all be acquired. */
  ghost predicate Fails(source: string, found: seq<Acquired>, e: Event) {
    e.kind == PackageFailed && e.source == source && e.package == None
    && exists i :: 0 <= i < |found| && found[i].failed && found[i].stem == e.path
  }

  lemma RecordedHolds(s: Story, source: string, a: Acquired)
    ensures Holds(s.packages, Recorded(s, Pid(source, a.stem), a.What(), a.metadata).packages, source, a)
  {}

  // ---------------------------------------------------------------- the disappearances that a run reports

  /** A file or a package of the source that was present, or ingested just now, and is not found by this run. */
  ghost predicate Vanishes(objects: map<(string, string), bool>, packages: map<Pid, Row>, source: string,
                           found: seq<Acquired>, present: set<string>, e: Event)
  {
    && e.kind == Disappearance && e.source == source
    && match e.package
       case None => e.path !in present && (((source, e.path) in objects && objects[(source, e.path)]) || e.path in PathsOf(found))
       case Some(pid) =>
         && pid.source == source && pid.stem == e.path && pid in packages && packages[pid].present
         && forall i :: 0 <= i < |found| ==> found[i].stem != pid.stem
  }

  /** The events that tell of something gone wrong. */
  predicate IsLoss(e: Event) { e.kind == Disappearance || e.kind == PackageFailed }

  /** Between two states of the log exactly these losses were added, each once. */
  ghost predicate Reports(before: seq<Event>, after: seq<Event>, losses: set<Event>) {
    before <= after && forall e :: IsLoss(e) ==> multiset(after)[e] == multiset(before)[e] + if e in losses then 1 else 0
  }

  lemma ReportsNext(first: seq<Event>, middle: seq<Event>, last: seq<Event>, a: set<Event>, b: set<Event>)
    requires Reports(first, middle, a) && Reports(middle, last, b) && a !! b
    ensures Reports(first, last, a + b)
  {}

  lemma ReportsOne(before: seq<Event>, e: Event)
    ensures Reports(before, before + [e], if IsLoss(e) then {e} else {})
  {
    assert multiset(before + [e]) == multiset(before) + multiset{e};
  }

  lemma ReportsOther(before: seq<Event>, log: seq<Event>, losses: set<Event>, e: Event)
    requires Reports(before, log, losses) && !IsLoss(e)
    ensures Reports(before, log + [e], losses)
  {
    hide Reports;
    ReportsOne(log, e);
    ReportsNext(before, log, log + [e], losses, {});
    NothingMore(losses);
  }

  lemma RecordedReports(before: seq<Event>, s: Story, losses: set<Event>, pid: Pid, content: Content, metadata: string)
    requires Reports(before, s.events, losses)
    ensures Reports(before, Recorded(s, pid, content, metadata).events, losses)
  {
    hide Reports;
    var first, second := PackageEvent(pid, PackageState), PackageEvent(pid, Reappearance);
    ReportsOther(before, s.events, losses, first);
    ReportsOther(before, s.events, losses, second);
    ReportsOther(before, s.events + [first], losses, second);
  }

  lemma NothingMore(gone: set<Event>)
    ensures {} + gone == gone && gone + {} == gone
  {}

  lemma ReportsNothing(events: seq<Event>)
    ensures Reports(events, events, {})
  {}

  function FileEventOf(source: string, path: string): Event { Event(source, path, Disappearance, None) }

  /** The files of a source that were present and are not found any more. */
  function Lost(objects: map<(string, string), bool>, source: string, present: set<string>): set<string> {
    set k | k in objects && k.0 == source && k.1 !in present && objects[k] :: k.1
  }

  /** The packages of a source that were present and are not found any more. */
  function Absent(packages: map<Pid, Row>, source: string, stems: set<string>): set<Pid> {
    set pid | pid in packages && pid.source == source && packages[pid].present && pid.stem !in stems
  }

  function FailureEvent(source: string, a: Acquired): Event { Event(source, a.stem, PackageFailed, None) }

  function FailureEvents(source: string, found: seq<Acquired>): set<Event> {
    set i | 0 <= i < |found| && found[i].failed :: FailureEvent(source, found[i])
  }

  function SetOf<T>(xs: seq<T>): set<T> { set x | x in xs }

  function FileEvents(source: string, paths: set<string>): set<Event> { set p | p in paths :: FileEventOf(source, p) }

  function PackageEvents(pids: set<Pid>): set<Event> { set pid | pid in pids :: PackageEvent(pid, Disappearance) }

  class Acquisition {
    var packages: map<Pid, Row>
    var files: seq<GenFile>
    var events: seq<Event>
    var objects: map<(string, string), bool>   // (source, path) -> whether its status is PRESENT

    constructor ()
      ensures Valid() && packages == map[] && files == [] && events == []
    {
      packages, files, events, objects := map[], [], [], map[];
    }

    function State(): Story
      reads this`packages, this`files, this`events
    { Story(packages, files, events) }

    function Tracked(): set<string>
      reads this`objects
    { set k | k in objects :: k.1 }

    /** The live rows and the sidecars agree. */
    ghost predicate Valid()
      reads this
    { Agree(State(), Tracked()) }

    method Emit(e: Event)
      modifies this`events
      ensures State() == old(State()).(events := old(events) + [e])
    {
      events := events + [e];
    }

    /** `_package`. */
    method Package(pid: Pid, content: Content, metadata: string)
      requires Valid() && Separate(packages.Keys + {pid}, Tracked())
      modifies this`packages, this`files, this`events
      ensures Valid() && State() == Recorded(old(State()), pid, content, metadata)
    {
      hide Agree, Separate;
      RecordedAgrees(State(), pid, content, metadata, Tracked());
      var known := pid in packages;
      var reappeared := known && !packages[pid].present;
      if known && packages[pid].content == content {
        ghost var before := packages;
        packages := packages[pid := packages[pid].(present := true)];
        if !reappeared {
          assert packages == before;
          return;
        }
        Emit(PackageEvent(pid, Reappearance));
        return;
      }
      var generation := if known then packages[pid].generation + 1 else 1;
      ghost var next := NextGeneration(State(), pid, content, metadata);
      packages := packages[pid := Row(content, metadata, generation, true)];
      files := files + [GenFile(pid, generation, content, metadata)];
      Emit(PackageEvent(pid, PackageState));
      if reappeared {
        assert packages == next.packages[pid := next.packages[pid].(present := true)];
        Emit(PackageEvent(pid, Reappearance));
      } else {
        assert packages == next.packages;
      }
    }

    /** `ingest_completed`, as far as the source tables are concerned. */
    method Ingest(source: string, path: string)
      requires Valid() && Separate(packages.Keys, Tracked() + {path})
      modifies this`objects, this`events
      ensures Valid() && Tracked() == old(Tracked()) + {path} && objects == old(objects)[(source, path) := true]
      ensures State() == old(State()).(events := old(events) + [Event(source, path, SourceIngest, None)])
    {
      hide Agree, Separate;
      assert (set k | k in objects[(source, path) := true] :: k.1) == Tracked() + {path} by {
        assert (source, path) in objects[(source, path) := true];
        forall x | x in Tracked()
          ensures x in (set k | k in objects[(source, path) := true] :: k.1)
        {
          var k :| k in objects && k.1 == x;
          assert k in objects[(source, path) := true];
        }
      }
      MoreTracked(State(), Tracked(), Tracked() + {path});
      objects := objects[(source, path) := true];
      assert Tracked() == old(Tracked()) + {path};
      NeutralEvent(State(), Event(source, path, SourceIngest, None), Tracked());
      Emit(Event(source, path, SourceIngest, None));
    }

    /** `mark_missing`: tracked files of the source that are not present any more; all rows first, then all events. */
    method MarkMissing(source: string, present: set<string>) returns (count: nat)
      requires Valid()
      modifies this`objects, this`events
      ensures Valid() && Tracked() == old(Tracked()) && State() == old(State()).(events := events)
      ensures objects.Keys == old(objects).Keys
      ensures forall k :: k in objects ==> objects[k] == (old(objects)[k] && !(k.0 == source && k.1 !in present))
      ensures Reports(old(events), events, FileEvents(source, Lost(old(objects), source, present)))
      ensures count == |Lost(old(objects), source, present)|
    {
      hide Agree, Reports, FileEvents;
      var gone := MarkFiles(source, present);
      SameTracked(old(objects), objects);
      LostAreTracked(old(objects), source, present);
      assert SetOf(gone) == Lost(old(objects), source, present);
      ReportFiles(source, gone);
      return |gone|;
    }

    /** Marks the rows of files that a run did not find, and returns their paths in order. */
    method MarkFiles(source: string, present: set<string>) returns (gone: seq<string>)
      modifies this`objects
      ensures objects.Keys == old(objects).Keys
      ensures forall k :: k in objects ==> objects[k] == (old(objects)[k] && !(k.0 == source && k.1 !in present))
      ensures |gone| == |Lost(old(objects), source, present)|
      ensures forall p :: p in gone <==> p in Lost(old(objects), source, present)
      ensures forall i, j :: 0 <= i < j < |gone| ==> gone[i] != gone[j]
    {
      hide Lost;
      var pending := Lost(objects, source, present);
      ghost var lost := pending;
      gone := [];
      while pending != {}
        invariant pending <= lost && objects.Keys == old(objects).Keys && |gone| + |pending| == |lost|
        invariant forall p :: p in gone <==> p in lost - pending
        invariant forall i, j :: 0 <= i < j < |gone| ==> gone[i] != gone[j]
        invariant forall k :: k in objects ==> objects[k] == (old(objects)[k] && !(k.0 == source && k.1 in lost - pending))
        decreases pending
      {
        var p :| p in pending;
        InLost(old(objects), source, present, p);
        objects := objects[(source, p) := false];
        gone := gone + [p];
        pending := pending - {p};
      }
      forall k | k in objects
        ensures k.0 == source && k.1 in lost <==> k.0 == source && k.1 !in present && old(objects)[k]
      {
        InLost(old(objects), source, present, k.1);
      }
    }

    /** The events of files that are gone. */
    method ReportFiles(source: string, gone: seq<string>)
      requires Valid() && (forall p :: p in gone ==> p in Tracked())
      requires forall i, j :: 0 <= i < j < |gone| ==> gone[i] != gone[j]
      modifies this`events
      ensures Valid() && State() == old(State()).(events := events)
      ensures Reports(old(events), events, FileEvents(source, SetOf(gone)))
    {
      hide Reports, Agree;
      ReportsNothing(events);
      NoEvents();
      for i := 0 to |gone|
        invariant Valid() && State() == old(State()).(events := events)
        invariant Reports(old(events), events, FileEvents(source, SetOf(gone[..i])))
      {
        var e := FileEventOf(source, gone[i]);
        FileEvent(State(), e, Tracked());
        ReportsOne(events, e);
        FileEventsNext(source, gone, i);
        ReportsNext(old(events), events, events + [e], FileEvents(source, SetOf(gone[..i])), {e});
        Emit(e);
      }
      assert gone[..|gone|] == gone;
    }

    /** Marks the rows of packages that a run did not find, and returns them in order. */
    method MarkRows(source: string, stems: set<string>) returns (gone: seq<Pid>)
      modifies this`packages
      ensures forall pid :: pid in gone <==>
        pid in old(packages) && pid.source == source && old(packages)[pid].present && pid.stem !in stems
      ensures forall i :: 0 <= i < |gone| ==> gone[i] in old(packages)
      ensures forall i, j :: 0 <= i < j < |gone| ==> gone[i] != gone[j]
      ensures packages == Vanished(old(State()), gone).packages
    {
      var pending := Absent(packages, source, stems);
      ghost var all := pending;
      gone := [];
      while pending != {}
        invariant pending <= all && forall pid :: pid in gone <==> pid in all - pending
        invariant forall i :: 0 <= i < |gone| ==> gone[i] in old(packages)
        invariant forall i, j :: 0 <= i < j < |gone| ==> gone[i] != gone[j]
        invariant packages == Vanished(old(State()), gone).packages
        decreases pending
      {
        var pid :| pid in pending;
        packages := packages[pid := packages[pid].(present := false)];
        gone := gone + [pid];
        pending := pending - {pid};
      }
    }

    /** Packages of the source that the run did not find disappear: all rows first, then all events. */
    method MarkDisappeared(source: string, stems: set<string>)
      requires Valid()
      modifies this`packages, this`events
      ensures Valid() && packages.Keys == old(packages).Keys && files == old(files)
      ensures forall pid :: pid in packages ==>
        packages[pid] == old(packages)[pid].(present := old(packages)[pid].present && !(pid.source == source && pid.stem !in stems))
      ensures Reports(old(events), events, PackageEvents(Absent(old(packages), source, stems)))
    {
      hide Agree, Reports, PackageEvents, Tracked;
      var gone := MarkRows(source, stems);
      ghost var target := Vanished(old(State()), gone);
      VanishedAgrees(old(State()), gone, Tracked());
      ReportsNothing(events);
      NoEvents();
      for i := 0 to |gone|
        invariant events == target.events[..|old(events)| + i]
        invariant packages == target.packages && files == old(files)
        invariant Reports(old(events), events, PackageEvents(SetOf(gone[..i])))
      {
        var e := PackageEvent(gone[i], Disappearance);
        ReportsOne(events, e);
        PackageEventsNext(gone, i);
        ReportsNext(old(events), events, events + [e], PackageEvents(SetOf(gone[..i])), {e});
        Emit(e);
      }
      assert gone[..|gone|] == gone && SetOf(gone) == Absent(old(packages), source, stems);
      assert State() == target;
    }

    /** The files of one stem. */
    method IngestAll(source: string, found: seq<Acquired>, k: nat)
      requires Valid() && k < |found| && Separate(packages.Keys, Tracked() + PathsOf(found))
      modifies this`objects, this`events
      ensures Valid() && State() == old(State()).(events := events) && Reports(old(events), events, {})
      ensures Tracked() <= old(Tracked()) + PathsOf(found)
      ensures objects == Ingested(old(objects), source, found[k].ingested)
    {
      hide Reports;
      var paths := found[k].ingested;
      ReportsNothing(events);
      for j := 0 to |paths|
        invariant Valid() && State() == old(State()).(events := events) && Reports(old(events), events, {})
        invariant Tracked() <= old(Tracked()) + PathsOf(found)
        invariant objects == Ingested(old(objects), source, paths[..j])
      {
        assert paths[j] in PathsOf(found);
        assert paths[..j + 1][..j] == paths[..j];
        ReportsOther(old(events), events, {}, Event(source, paths[j], SourceIngest, None));
        Ingest(source, paths[j]);
      }
      assert paths[..|paths|] == paths;
    }

    /** One stem of a run: its files, then its package. */
    method SyncStem(source: string, found: seq<Acquired>, k: nat)
      requires Valid() && k < |found| && Separate(packages.Keys + PidsOf(source, found), Tracked() + PathsOf(found))
      modifies this
      ensures Valid() && Tracked() <= old(Tracked()) + PathsOf(found)
      ensures packages.Keys == old(packages).Keys + {Pid(source, found[k].stem)} && Holds(old(packages), packages, source, found[k])
      ensures forall pid :: pid in old(packages) && pid != Pid(source, found[k].stem) ==> packages[pid] == old(packages)[pid]
      ensures objects == Ingested(old(objects), source, found[k].ingested)
      ensures Reports(old(events), events, FailureEvents(source, [found[k]]))
    {
      hide Valid, Tracked, Separate, PathsOf, Holds, Reports;
      var a, pid := found[k], Pid(source, found[k].stem);
      assert FailureEvents(source, [a]) == if a.failed then {FailureEvent(source, a)} else {} by {
        assert [a][0] == a;
      }
      ghost var pids, bound := packages.Keys + PidsOf(source, found), Tracked() + PathsOf(found);
      assert pid in PidsOf(source, found);
      SeparateLess(pids, bound, packages.Keys, Tracked() + PathsOf(found));
      IngestAll(source, found, k);
      if a.failed {
        ReportsOne(events, FailureEvent(source, a));
        ReportsNext(old(events), events, events + [FailureEvent(source, a)], {}, {FailureEvent(source, a)});
        NothingMore({FailureEvent(source, a)});
        Failed(source, a.stem);
      }
      SeparateLess(pids, bound, packages.Keys + {pid}, Tracked());
      RecordedRow(State(), pid, a.What(), a.metadata);
      RecordedHolds(State(), source, a);
      RecordedReports(old(events), State(), FailureEvents(source, [a]), pid, a.What(), a.metadata);
      Package(pid, a.What(), a.metadata);
    }

    /** The event of a stem whose files could not all be acquired. */
    method Failed(source: string, stem: string)
      requires Valid()
      modifies this`events
      ensures Valid() && State() == old(State()).(events := old(events) + [Event(source, stem, PackageFailed, None)])
    {
      hide Agree;
      NeutralEvent(State(), Event(source, stem, PackageFailed, None), Tracked());
      Emit(Event(source, stem, PackageFailed, None));
    }

    /** The loop of `sync_aminet` over the stems found. */
    method SyncAll(source: string, found: seq<Acquired>)
      requires Valid()
      requires forall i, j :: 0 <= i < j < |found| ==> found[i].stem != found[j].stem
      requires Separate(packages.Keys + PidsOf(source, found), Tracked() + PathsOf(found))
      modifies this
      ensures Valid() && packages.Keys == old(packages).Keys + PidsOf(source, found)
      ensures forall i :: 0 <= i < |found| ==> Holds(old(packages), packages, source, found[i])
      ensures forall pid :: pid in old(packages) && pid !in PidsOf(source, found) ==> packages[pid] == old(packages)[pid]
      ensures objects == IngestedAll(old(objects), source, found)
      ensures Reports(old(events), events, FailureEvents(source, found))
    {
      hide Valid, Tracked, Separate, PidsOf, PathsOf, Holds, Reports, Ingested, FailureEvents;
      NoPids(source, found);
      ReportsNothing(events);
      NoFailures(source);
      for i := 0 to |found|
        invariant Valid()
        invariant packages.Keys == old(packages).Keys + PidsOf(source, found[..i])
        invariant Tracked() <= old(Tracked()) + PathsOf(found)
        invariant forall k :: 0 <= k < i ==> Holds(old(packages), packages, source, found[k])
        invariant forall pid :: pid in old(packages) && pid !in PidsOf(source, found[..i]) ==> packages[pid] == old(packages)[pid]
        invariant objects == IngestedAll(old(objects), source, found[..i])
        invariant Reports(old(events), events, FailureEvents(source, found[..i]))
      {
        PidsOfNext(source, found, i);
        SeparateLess(old(packages.Keys) + PidsOf(source, found), old(Tracked()) + PathsOf(found),
                     packages.Keys + PidsOf(source, found), Tracked() + PathsOf(found));
        ghost var before, log := packages, events;
        NotYet(source, found, i);
        SyncStem(source, found, i);
        FailuresNext(source, found, i);
        ReportsNext(old(events), log, events, FailureEvents(source, found[..i]), FailureEvents(source, [found[i]]));
        HoldsStill(old(packages), before, packages, source, found, i);
        assert found[..i + 1][..i] == found[..i];
      }
      assert found[..|found|] == found;
    }

    /** `sync_aminet` on what was found in a source directory. The tables and sidecars agree again afterwards; the rows
        of the stems found say what was acquired for them, and the other packages of the source are absent. A file is
        present iff it was so or was ingested, and is still found if it is of this source. Each file and each package
        that this run lost has one more event of its disappearance, each stem that failed one of that, and nothing else
        has. */
    method Sync(source: string, found: seq<Acquired>, present: set<string>) returns (lost: nat)
      requires Valid()
      requires forall i, j :: 0 <= i < j < |found| ==> found[i].stem != found[j].stem
      requires Separate(packages.Keys + PidsOf(source, found), Tracked() + PathsOf(found))
      modifies this
      ensures Valid()
      ensures packages.Keys == old(packages).Keys + PidsOf(source, found)
      ensures forall i :: 0 <= i < |found| ==> Holds(old(packages), packages, source, found[i])
      ensures forall pid :: pid in old(packages) && pid !in PidsOf(source, found) ==>
        packages[pid] == old(packages)[pid].(present := old(packages)[pid].present && pid.source != source)
      ensures forall k :: k in objects <==> k in old(objects) || (k.0 == source && k.1 in PathsOf(found))
      ensures forall k :: k in objects ==>
        (objects[k] <==>
          && ((k in old(objects) && old(objects)[k]) || (k.0 == source && k.1 in PathsOf(found)))
          && (k.0 == source ==> k.1 in present))
      ensures old(events) <= events && forall e :: IsLoss(e) ==>
        multiset(events)[e]
        == multiset(old(events))[e]
           + if Vanishes(old(objects), old(packages), source, found, present, e) || Fails(source, found, e) then 1 else 0
      ensures lost == |Lost(old(objects), source, present) + (PathsOf(found) - present)|
    {
      hide Valid, Tracked, Separate, PidsOf, PathsOf, Holds, Reports, FileEvents, PackageEvents, FailureEvents, IngestedAll,
           Lost, Absent, StemsOf, Vanishes, Fails;
      SyncAll(source, found);
      ghost var full, rows, log := objects, packages, events;
      lost := MarkLost(source, StemsOf(found), present);
      StemsArePids(source, found);
      IngestedIs(old(objects), source, found);
      ghost var gone := FileEvents(source, Lost(full, source, present)) + PackageEvents(Absent(rows, source, StemsOf(found)));
      FailuresAre(source, found);
      GoneAreNoFailures(source, Lost(full, source, present), Absent(rows, source, StemsOf(found)), found);
      ReportsNext(old(events), log, events, FailureEvents(source, found), gone);
      ReportsWhatVanishes(old(objects), full, old(packages), rows, source, found, present);
      ReportsMeans(old(events), events, FailureEvents(source, found) + gone);
      HoldsAll(old(packages), rows, packages, source, found);
    }

    /** The end of `sync_aminet`: missing files and packages. */
    method MarkLost(source: string, stems: set<string>, present: set<string>) returns (lost: nat)
      requires Valid()
      modifies this
      ensures Valid() && packages.Keys == old(packages).Keys && objects.Keys == old(objects).Keys
      ensures forall pid :: pid in packages ==>
        packages[pid] == old(packages)[pid].(present := old(packages)[pid].present && !(pid.source == source && pid.stem !in stems))
      ensures forall k :: k in objects ==> objects[k] == (old(objects)[k] && !(k.0 == source && k.1 !in present))
      ensures Reports(old(events), events, FileEvents(source, Lost(old(objects), source, present))
                                           + PackageEvents(Absent(old(packages), source, stems)))
      ensures lost == |Lost(old(objects), source, present)|
    {
      hide Valid, Reports, FileEvents, PackageEvents, Lost, Absent;
      lost := MarkMissing(source, present);
      ghost var log := events;
      MarkDisappeared(source, stems);
      KindsDiffer(source, Lost(old(objects), source, present), Absent(old(packages), source, stems));
      ReportsNext(old(events), log, events, FileEvents(source, Lost(old(objects), source, present)),
                  PackageEvents(Absent(old(packages), source, stems)));
    }
  }

  function Ingested(objects: map<(string, string), bool>, source: string, paths: seq<string>): map<(string, string), bool> {
    if paths == [] then objects
    else Ingested(objects, source, paths[..|paths| - 1])[(source, paths[|paths| - 1]) := true]
  }

  function IngestedAll(objects: map<(string, string), bool>, source: string, found: seq<Acquired>): map<(string, string), bool> {
    if found == [] then objects
    else Ingested(IngestedAll(objects, source, found[..|found| - 1]), source, found[|found| - 1].ingested)
  }

  lemma FileEventsNext(source: string, gone: seq<string>, i: nat)
    requires i < |gone| && forall j :: 0 <= j < i ==> gone[j] != gone[i]
    ensures FileEvents(source, SetOf(gone[..i + 1])) == FileEvents(source, SetOf(gone[..i])) + {FileEventOf(source, gone[i])}
    ensures FileEventOf(source, gone[i]) !in FileEvents(source, SetOf(gone[..i]))
  {
    assert gone[..i + 1] == gone[..i] + [gone[i]];
    assert SetOf(gone[..i + 1]) == SetOf(gone[..i]) + {gone[i]};
  }

  lemma PackageEventsNext(gone: seq<Pid>, i: nat)
    requires i < |gone| && forall j :: 0 <= j < i ==> gone[j] != gone[i]
    ensures PackageEvents(SetOf(gone[..i + 1])) == PackageEvents(SetOf(gone[..i])) + {PackageEvent(gone[i], Disappearance)}
    ensures PackageEvent(gone[i], Disappearance) !in PackageEvents(SetOf(gone[..i]))
  {
    assert gone[..i + 1] == gone[..i] + [gone[i]];
    assert SetOf(gone[..i + 1]) == SetOf(gone[..i]) + {gone[i]};
  }

  lemma NoEvents()
    ensures SetOf<string>([]) == {} && SetOf<Pid>([]) == {} && PackageEvents({}) == {}
    ensures forall source :: FileEvents(source, {}) == {}
  {}

  lemma NoFailures(source: string)
    ensures forall found: seq<Acquired> :: FailureEvents(source, found[..0]) == {}
  {}

  lemma FailuresNext(source: string, found: seq<Acquired>, i: nat)
    requires i < |found| && forall a, b :: 0 <= a < b < |found| ==> found[a].stem != found[b].stem
    ensures FailureEvents(source, found[..i + 1]) == FailureEvents(source, found[..i]) + FailureEvents(source, [found[i]])
    ensures FailureEvents(source, found[..i]) !! FailureEvents(source, [found[i]])
  {
    assert [found[i]][0] == found[i];
    forall e | e in FailureEvents(source, found[..i + 1])
      ensures e in FailureEvents(source, found[..i]) + FailureEvents(source, [found[i]])
    {
      var k :| 0 <= k < i + 1 && found[..i + 1][k].failed && e == FailureEvent(source, found[..i + 1][k]);
      assert found[k] == found[..i + 1][k] && (k < i ==> found[..i][k] == found[k]);
    }
    forall e | e in FailureEvents(source, found[..i]) + FailureEvents(source, [found[i]])
      ensures e in FailureEvents(source, found[..i + 1])
    {
      if e in FailureEvents(source, found[..i]) {
        var k :| 0 <= k < i && found[..i][k].failed && e == FailureEvent(source, found[..i][k]);
        assert found[..i + 1][k] == found[..i][k];
      } else {
        assert found[..i + 1][i] == found[i];
      }
    }
  }

  lemma FailuresAre(source: string, found: seq<Acquired>)
    ensures forall e :: e in FailureEvents(source, found) <==> Fails(source, found, e)
  {
    forall e | Fails(source, found, e)
      ensures e in FailureEvents(source, found)
    {
      var i :| 0 <= i < |found| && found[i].failed && found[i].stem == e.path;
      assert e == FailureEvent(source, found[i]);
    }
  }

  lemma GoneAreNoFailures(source: string, paths: set<string>, pids: set<Pid>, found: seq<Acquired>)
    ensures FailureEvents(source, found) !! FileEvents(source, paths) + PackageEvents(pids)
  {}

  lemma KindsDiffer(source: string, paths: set<string>, pids: set<Pid>)
    ensures FileEvents(source, paths) !! PackageEvents(pids)
  {}

  lemma ReportsMeans(before: seq<Event>, after: seq<Event>, losses: set<Event>)
    requires Reports(before, after, losses)
    ensures before <= after
    ensures forall e :: IsLoss(e) ==> multiset(after)[e] == multiset(before)[e] + if e in losses then 1 else 0
  {}

  lemma {:induction false} IngestedHas(objects: map<(string, string), bool>, source: string, paths: seq<string>)
    ensures forall k :: k in Ingested(objects, source, paths) <==> k in objects || (k.0 == source && k.1 in paths)
    ensures forall k :: k in Ingested(objects, source, paths) ==>
      (Ingested(objects, source, paths)[k] <==> (k in objects && objects[k]) || (k.0 == source && k.1 in paths))
  {
    if paths != [] {
      IngestedHas(objects, source, paths[..|paths| - 1]);
      assert paths == paths[..|paths| - 1] + [paths[|paths| - 1]];
    }
  }

  /** Which files a run leaves tracked and present, before it looks for missing ones. */
  lemma {:induction false} IngestedIs(objects: map<(string, string), bool>, source: string, found: seq<Acquired>)
    ensures forall k :: k in IngestedAll(objects, source, found) <==> k in objects || (k.0 == source && k.1 in PathsOf(found))
    ensures forall k :: k in IngestedAll(objects, source, found) ==>
      (IngestedAll(objects, source, found)[k] <==> (k in objects && objects[k]) || (k.0 == source && k.1 in PathsOf(found)))
  {
    hide Ingested, PathsOf;
    if found != [] {
      var rest, last := found[..|found| - 1], found[|found| - 1];
      IngestedIs(objects, source, rest);
      IngestedHas(IngestedAll(objects, source, rest), source, last.ingested);
      PathsOfLast(found);
    } else {
      NoPaths();
    }
  }

  lemma NoPaths()
    ensures PathsOf([]) == {}
  {}

  lemma PathsOfLast(found: seq<Acquired>)
    requires found != []
    ensures forall p :: p in PathsOf(found) <==> p in PathsOf(found[..|found| - 1]) || p in found[|found| - 1].ingested
  {
    var rest := found[..|found| - 1];
    forall p | p in PathsOf(rest)
      ensures p in PathsOf(found)
    {
      var i, j :| 0 <= i < |rest| && 0 <= j < |rest[i].ingested| && rest[i].ingested[j] == p;
      assert found[i].ingested[j] == p;
    }
    forall p | p in PathsOf(found)
      ensures p in PathsOf(rest) || p in found[|found| - 1].ingested
    {
      var i, j :| 0 <= i < |found| && 0 <= j < |found[i].ingested| && found[i].ingested[j] == p;
      if i < |rest| {
        assert rest[i].ingested[j] == p;
      }
    }
  }

  /** The files and packages that are marked, as events, are those that vanish. */
  lemma ReportsWhatVanishes(objects: map<(string, string), bool>, full: map<(string, string), bool>, packages: map<Pid, Row>,
                            rows: map<Pid, Row>, source: string, found: seq<Acquired>, present: set<string>)
    requires full == IngestedAll(objects, source, found) && rows.Keys == packages.Keys + PidsOf(source, found)
    requires forall pid :: pid in packages && pid !in PidsOf(source, found) ==> rows[pid] == packages[pid]
    ensures Lost(full, source, present) == Lost(objects, source, present) + (PathsOf(found) - present)
    ensures forall e ::
      (e in FileEvents(source, Lost(full, source, present)) + PackageEvents(Absent(rows, source, StemsOf(found)))
       <==> Vanishes(objects, packages, source, found, present, e))
  {
    hide IngestedAll, PathsOf;
    IngestedIs(objects, source, found);
    LostIs(objects, full, source, PathsOf(found), present);
    StemsArePids(source, found);
    forall e: Event
      ensures e in FileEvents(source, Lost(full, source, present)) + PackageEvents(Absent(rows, source, StemsOf(found)))
              <==> Vanishes(objects, packages, source, found, present, e)
    {
      match e.package
      case None => FileVanishes(objects, packages, full, rows, source, found, present, e);
      case Some(pid) => PackageVanishes(objects, packages, full, rows, source, found, present, e);
    }
  }

  lemma LostIs(objects: map<(string, string), bool>, full: map<(string, string), bool>, source: string, paths: set<string>,
               present: set<string>)
    requires forall k :: k in full <==> k in objects || (k.0 == source && k.1 in paths)
    requires forall k :: k in full ==> (full[k] <==> (k in objects && objects[k]) || (k.0 == source && k.1 in paths))
    ensures Lost(full, source, present) == Lost(objects, source, present) + (paths - present)
  {
    forall p
      ensures p in Lost(full, source, present) <==> p in Lost(objects, source, present) + (paths - present)
    {
      InLost(full, source, present, p);
      InLost(objects, source, present, p);
    }
  }

  lemma SameTracked(before: map<(string, string), bool>, after: map<(string, string), bool>)
    requires before.Keys == after.Keys
    ensures (set k | k in before :: k.1) == (set k | k in after :: k.1)
  {}

  lemma LostAreTracked(objects: map<(string, string), bool>, source: string, present: set<string>)
    ensures Lost(objects, source, present) <= set k | k in objects :: k.1
  {}

  lemma InLost(objects: map<(string, string), bool>, source: string, present: set<string>, p: string)
    ensures p in Lost(objects, source, present) <==> (source, p) in objects && objects[(source, p)] && p !in present
  {
    if (source, p) in objects && objects[(source, p)] && p !in present {
      assert (source, p).1 == p;
    }
  }

  lemma FileVanishes(objects: map<(string, string), bool>, packages: map<Pid, Row>, full: map<(string, string), bool>,
                     rows: map<Pid, Row>, source: string, found: seq<Acquired>, present: set<string>, e: Event)
    requires e.package == None
    requires Lost(full, source, present) == Lost(objects, source, present) + (PathsOf(found) - present)
    ensures e in FileEvents(source, Lost(full, source, present)) + PackageEvents(Absent(rows, source, StemsOf(found)))
            <==> Vanishes(objects, packages, source, found, present, e)
  {
    hide PathsOf, Lost, Absent;
    InLost(objects, source, present, e.path);
    if e.source == source && e.kind == Disappearance {
      assert e == FileEventOf(source, e.path);
    }
  }

  lemma PackageVanishes(objects: map<(string, string), bool>, packages: map<Pid, Row>, full: map<(string, string), bool>,
                        rows: map<Pid, Row>, source: string, found: seq<Acquired>, present: set<string>, e: Event)
    requires e.package.Some? && rows.Keys == packages.Keys + PidsOf(source, found)
    requires forall pid :: pid in packages && pid !in PidsOf(source, found) ==> rows[pid] == packages[pid]
    ensures e in FileEvents(source, Lost(full, source, present)) + PackageEvents(Absent(rows, source, StemsOf(found)))
            <==> Vanishes(objects, packages, source, found, present, e)
  {
    hide PathsOf, Lost, PidsOf;
    var pid := e.package.value;
    StemsArePids(source, found);
    assert e in PackageEvents(Absent(rows, source, StemsOf(found)))
           <==> e == PackageEvent(pid, Disappearance) && pid in Absent(rows, source, StemsOf(found));
  }

  lemma NotYet(source: string, found: seq<Acquired>, i: nat)
    requires i < |found| && forall a, b :: 0 <= a < b < |found| ==> found[a].stem != found[b].stem
    ensures Pid(source, found[i].stem) !in PidsOf(source, found[..i])
  {}

  /** A later stem leaves what an earlier one recorded; the row of this stem was still the old one. */
  lemma HoldsStill(first: map<Pid, Row>, before: map<Pid, Row>, after: map<Pid, Row>, source: string, found: seq<Acquired>, i: nat)
    requires i < |found| && forall a, b :: 0 <= a < b < |found| ==> found[a].stem != found[b].stem
    requires forall k :: 0 <= k < i ==> Holds(first, before, source, found[k])
    requires Holds(before, after, source, found[i]) && before.Keys == first.Keys + PidsOf(source, found[..i])
    requires forall pid :: pid in first && pid !in PidsOf(source, found[..i]) ==> before[pid] == first[pid]
    requires forall pid :: pid in before && pid != Pid(source, found[i].stem) ==> pid in after && after[pid] == before[pid]
    ensures forall k :: 0 <= k < i + 1 ==> Holds(first, after, source, found[k])
  {
    NotYet(source, found, i);
    forall k | 0 <= k < i + 1
      ensures Holds(first, after, source, found[k])
    {
      if k < i {
        HoldsMoves(first, before, first, after, source, found[k]);
      } else {
        HoldsMoves(before, after, first, after, source, found[i]);
      }
    }
  }

  ghost predicate Same(before: map<Pid, Row>, after: map<Pid, Row>, pid: Pid) {
    pid in before && pid in after && after[pid] == before[pid]
  }

  lemma HoldsAll(first: map<Pid, Row>, before: map<Pid, Row>, after: map<Pid, Row>, source: string, found: seq<Acquired>)
    requires forall i :: 0 <= i < |found| ==> Holds(first, before, source, found[i])
    requires forall i :: 0 <= i < |found| ==> Same(before, after, Pid(source, found[i].stem))
    ensures forall i :: 0 <= i < |found| ==> Holds(first, after, source, found[i])
  {
    forall i | 0 <= i < |found|
      ensures Holds(first, after, source, found[i])
    {
      HoldsMoves(first, before, first, after, source, found[i]);
    }
  }

  lemma HoldsMoves(was: map<Pid, Row>, now: map<Pid, Row>, first: map<Pid, Row>, last: map<Pid, Row>, source: string, a: Acquired)
    requires Holds(was, now, source, a)
    requires var pid := Pid(source, a.stem);
      && (pid in was <==> pid in first) && (pid in was ==> was[pid] == first[pid])
      && pid in last && last[pid] == now[pid]
    ensures Holds(first, last, source, a)
  {}

  function PidsOf(source: string, found: seq<Acquired>): set<Pid> {
    set i | 0 <= i < |found| :: Pid(source, found[i].stem)
  }

  function StemsOf(found: seq<Acquired>): set<string> { set i | 0 <= i < |found| :: found[i].stem }

  lemma StemsArePids(source: string, found: seq<Acquired>)
    ensures forall pid: Pid :: pid.source == source ==> (pid in PidsOf(source, found) <==> pid.stem in StemsOf(found))
    ensures forall i :: 0 <= i < |found| ==> found[i].stem in StemsOf(found)
  {
    forall pid: Pid | pid.source == source && pid.stem in StemsOf(found)
      ensures pid in PidsOf(source, found)
    {
      var i :| 0 <= i < |found| && found[i].stem == pid.stem;
      assert pid == Pid(source, found[i].stem);
    }
  }

  lemma NoPids(source: string, found: seq<Acquired>)
    ensures PidsOf(source, found[..0]) == {}
  {}

  lemma PidsOfNext(source: string, found: seq<Acquired>, i: nat)
    requires i < |found|
    ensures PidsOf(source, found[..i + 1]) == PidsOf(source, found[..i]) + {Pid(source, found[i].stem)}
    ensures PidsOf(source, found[..i + 1]) <= PidsOf(source, found)
  {
    forall p | p in PidsOf(source, found[..i + 1])
      ensures p in PidsOf(source, found[..i]) + {Pid(source, found[i].stem)} && p in PidsOf(source, found)
    {
      var k :| 0 <= k < i + 1 && p == Pid(source, found[..i + 1][k].stem);
      assert found[k] == found[..i + 1][k] && (k < i ==> found[..i][k] == found[k]);
    }
    forall p | p in PidsOf(source, found[..i])
      ensures p in PidsOf(source, found[..i + 1])
    {
      var k :| 0 <= k < i && p == Pid(source, found[..i][k].stem);
      assert found[..i + 1][k] == found[..i][k];
    }
    assert found[..i + 1][i] == found[i];
  }

  /** All file paths that a run ingests. */
  function PathsOf(found: seq<Acquired>): set<string> {
    set i, j | 0 <= i < |found| && 0 <= j < |found[i].ingested| :: found[i].ingested[j]
  }
}
