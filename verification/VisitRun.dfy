/**
  The recursive analysis of a container (src/rab/analysis.py, `AnalysisManager.analyze` and its nested
  `visit`) as a function of its variables. Analyzers, the clock and the store are arbitrary: every question
  put to them is answered by a function of the moment at which it is asked, so nothing about a container's
  answers need be consistent, and a container may well contain itself.
*/
module VisitRun {
  import opened Common
  import opened AnalysisTypes

  type ObjectId = string

  datatype Policy = MetadataOnly | Identify | Preserve | Archival

  /** A listed member; `mark` is what its analyzer remembers about it. */
  datatype Found = Found(path: string, raw: Option<Bytes>, size: Option<nat>, directory: bool, mark: nat)
  {
    /** The announced size passes the check made before extraction. */
    predicate SizePasses(lim: Limits) { size.Some? ==> size.value <= lim.maxSingleBytes }
  }

  /** What an extraction leaves in the workspace, and the exception it ended with, if any. */
  datatype Extraction = Extraction(written: Bytes, failure: Option<Failure>)

  datatype Analyzer = Analyzer(name: string, available: bool, members: (nat, Bytes) -> Result<(seq<Found>, nat), Failure>,
                               extract: (nat, Bytes, Found) -> Extraction)
  {
    /** Extracting a member that passed the check of its announced size writes no more than one member may have. */
    ghost predicate KeepsSize(lim: Limits) {
      forall u: nat, c: Bytes, f: Found :: f.SizePasses(lim) ==> |extract(u, c, f).written| <= lim.maxSingleBytes
    }
  }

  /** The outside world: the first analyzer whose probe matches, or an exception of a probe that `_matching` does not
      catch; whether time is up, whether the store or the identity catalogue refuses a child, and the hash of bytes. */
  datatype World = World(matching: (nat, Bytes, string) -> Result<Option<Analyzer>, Failure>, late: nat -> bool,
                         refuses: nat -> bool, sha: Bytes -> ObjectId)
  {
    /** An analyzer matches. */
    predicate Matches(t: nat, b: Bytes, n: string) { matching(t, b, n).Ok? && matching(t, b, n).value.Some? }

    /** Every analyzer that may match keeps the size limit of one member. */
    ghost predicate Bounded(lim: Limits) {
      forall t, b, n :: Matches(t, b, n) ==> matching(t, b, n).value.value.KeepsSize(lim)
    }

    /** Probing the same bytes twice gives the same verdict, as `deterministic` declares. */
    ghost predicate Steady() {
      forall t, u, b, n :: Matches(t, b, n) == Matches(u, b, n)
    }
  }

  datatype Status = Unrecognised | Discovered | Materialized | Preserved(object_id: ObjectId)

  datatype State =
    | Complete
    | CompleteWithWarnings
    | Unsupported
    | ToolIsMissing
    | TimedOut
    | LimitExceeded
    | Malformed
    | Failed

  /** The state recorded for an exception that ends an analysis. */
  function Outcome(failure: Failure): State {
    match failure
    case LimitReached(_) => LimitExceeded
    case MalformedInput => Malformed
    case ToolMissing => ToolIsMissing
    case Timeout => TimedOut
    case PolicyError => Failed
    case Unexpected => Failed
  }

  datatype Item = Item(path: string, depth: nat, parent: ObjectId, status: Status)

  datatype Relation = Relation(subject: ObjectId, object_: ObjectId, analyzer: string, path: string, raw: Option<Bytes>,
                               depth: nat)

  /** The relationship recorded for a member that was preserved as `child`. */
  function Contains(a: Analyzer, member: Found, parent: ObjectId, child: ObjectId, depth: nat): Relation {
    Relation(parent, child, a.name, member.path, member.raw, depth)
  }

  function Max(a: nat, b: nat): nat { if a < b then b else a }

  // ---------------------------------------------------------------- one analysis as a function of its state

  /** What does not change during an analysis. */
  datatype Setup = Setup(world: World, lim: Limits, policy: Policy, recursive: bool)

  /** The variables that `visit` shares: `tick` counts the questions put to the world, `files` are the accepted
      files of the workspace, `scratch` is the one under the next number. */
  datatype Vars = Vars(tick: nat, discovered: seq<Item>, nested: nat, expanded: nat, files: seq<Bytes>, scratch: Bytes,
                       relations: set<Relation>, warnings: nat, tooDeep: bool)

  function Marked(items: seq<Item>, status: Status): seq<Item>
    requires items != []
  { items[|items| - 1 := items[|items| - 1].(status := status)] }

  /** The limits that are checked before a file is looked at. */
  function Entered(s: Setup, v: Vars, depth: nat): (Vars, Option<Failure>) {
    if s.lim.maxDepth < depth then (v.(tooDeep := true), Some(LimitReached(MaxDepth)))
    else
      var n := if depth == 0 then v else v.(nested := v.nested + 1);
      if 0 < depth && s.lim.maxNested < n.nested then (n, Some(LimitReached(MaxNested)))
      else (n.(tick := n.tick + 1), if s.world.late(n.tick) then Some(Timeout) else None)
  }

  /** The members of a file that an analyzer recognises. */
  function Inspected(s: Setup, v: Vars, a: Analyzer, path: Bytes): (Vars, Result<seq<Found>, Failure>) {
    if !a.available then (v, Err(ToolMissing))
    else
      match a.members(v.tick, path)
      case Err(failure) => (v.(tick := v.tick + 1), Err(failure))
      case Ok((members, warnings)) =>
        if s.world.late(v.tick + 1) then (v.(tick := v.tick + 2), Err(Timeout))
        else (v.(tick := v.tick + 2, warnings := v.warnings + warnings), Ok(members))
  }

  /** Extraction of one member into the workspace. */
  function Extracted(s: Setup, v: Vars, a: Analyzer, path: Bytes, member: Found): (Vars, Result<Bytes, Failure>) {
    if !member.SizePasses(s.lim) then (v, Err(LimitReached(MaxSingleBytes)))
    else
      var x := a.extract(v.tick, path, member);
      var w := v.(tick := v.tick + 1, scratch := x.written);
      if x.failure.Some? then (w, Err(x.failure.value)) else Checked(s, w, path, member)
  }

  /** The checks of an extracted file, in the order of the source. */
  function Checked(s: Setup, v: Vars, path: Bytes, member: Found): (Vars, Result<Bytes, Failure>) {
    if member.size.Some? && |v.scratch| != member.size.value then (v, Err(MalformedInput))
    else if Max(|path|, 1) * s.lim.maxRatio < |v.scratch| then (v.(scratch := []), Err(LimitReached(MaxRatio)))
    else
      var w := v.(tick := v.tick + 1, scratch := []);
      if s.world.late(v.tick) then (w, Err(Timeout))
      else if s.lim.maxBytes < v.expanded + |v.scratch| then (w, Err(LimitReached(MaxBytes)))
      else (w.(files := v.files + [v.scratch], expanded := v.expanded + |v.scratch|), Ok(v.scratch))
  }

  /** Ingest of an extracted member and its relationship to its container. */
  function Kept(s: Setup, v: Vars, a: Analyzer, bytes: Bytes, member: Found, parent: ObjectId, depth: nat)
    : (r: (Vars, Result<ObjectId, Failure>))
    requires v.discovered != []
    ensures |r.0.discovered| == |v.discovered|
  {
    var w := v.(tick := v.tick + 1);
    if s.world.refuses(v.tick) then (w, Err(Unexpected))
    else
      var id := s.world.sha(bytes);
      var x, relation := w.(discovered := Marked(w.discovered, Preserved(id))), Contains(a, member, parent, id, depth);
      // a self relationship, or one recorded before under another time
      if parent == id || relation in v.relations then (x, Err(PolicyError))
      else (x.(relations := v.relations + {relation}), Ok(id))
  }

  /** A listed member: its bytes, and the object that whatever is in it belongs to. */
  function Taken(s: Setup, v: Vars, a: Analyzer, path: Bytes, member: Found, parent: ObjectId, depth: nat)
    : (r: (Vars, Result<(Bytes, ObjectId), Failure>))
    requires v.discovered != []
    ensures |r.0.discovered| == |v.discovered|
  {
    var (w, extracted) := Extracted(s, v, a, path, member);
    match extracted
    case Err(failure) => (w, Err(failure))
    case Ok(bytes) => Settled(s, w, a, bytes, member, parent, depth)
  }

  /** An extracted member: it is preserved if the policy says so. */
  function Settled(s: Setup, v: Vars, a: Analyzer, bytes: Bytes, member: Found, parent: ObjectId, depth: nat)
    : (r: (Vars, Result<(Bytes, ObjectId), Failure>))
    requires v.discovered != []
    ensures |r.0.discovered| == |v.discovered|
  {
    var w := v.(discovered := Marked(v.discovered, Status.Materialized));
    if s.policy !in {Preserve, Archival} then (w, Ok((bytes, parent)))
    else
      var (x, kept) := Kept(s, w, a, bytes, member, parent, depth);
      match kept
      case Err(failure) => (x, Err(failure))
      case Ok(child) => (x, Ok((bytes, child)))
  }

  /** A member of a container is listed and, unless it is a directory or only its metadata is wanted, extracted. */
  function Admitted(s: Setup, v: Vars, a: Analyzer, path: Bytes, member: Found, parent: ObjectId, depth: nat)
    : (Vars, Result<Option<(Bytes, ObjectId)>, Failure>)
  {
    if s.lim.maxFiles <= |v.discovered| then (v, Err(LimitReached(MaxFiles)))
    else
      var w := v.(discovered := v.discovered + [Item(member.path, depth + 1, parent, Discovered)]);
      if member.directory || s.policy == MetadataOnly then (w, Ok(None))
      else
        var (x, taken) := Taken(s, w, a, path, member, parent, depth + 1);
        match taken
        case Err(failure) => (x, Err(failure))
        case Ok(content) => (x, Ok(Some(content)))
  }

  function Height(s: Setup, depth: nat): nat { if depth <= s.lim.maxDepth then s.lim.maxDepth + 1 - depth else 0 }

  /** The nested `visit`. */
  function Visited(s: Setup, v: Vars, path: Bytes, parent: ObjectId, name: string, depth: nat): (Vars, Result<bool, Failure>)
    decreases Height(s, depth), 4, 0
  {
    var (w, refusal) := Entered(s, v, depth);
    if refusal.Some? then (w, Err(refusal.value)) else Probed(s, w, path, parent, name, depth)
  }

  /** The rest of it: the probes, and what the analyzer that matches finds. */
  function Probed(s: Setup, v: Vars, path: Bytes, parent: ObjectId, name: string, depth: nat): (Vars, Result<bool, Failure>)
    requires depth <= s.lim.maxDepth
    decreases Height(s, depth), 3, 0
  {
    var x := v.(tick := v.tick + 1);
    match s.world.matching(v.tick, path, name)
    case Err(failure) => (x, Err(failure))
    case Ok(None) => (x.(discovered := x.discovered + [Item(name, depth, parent, Unrecognised)]), Ok(false))
    case Ok(Some(a)) =>
      var (y, members) := Inspected(s, x, a, path);
      match members
      case Err(failure) => (y, Err(failure))
      case Ok(found) => MembersVisited(s, y, a, path, found, parent, depth)
  }

  /** The loop over the members of one container. */
  function MembersVisited(s: Setup, v: Vars, a: Analyzer, path: Bytes, members: seq<Found>, parent: ObjectId, depth: nat)
    : (Vars, Result<bool, Failure>)
    requires depth <= s.lim.maxDepth
    decreases Height(s, depth), 2, |members|
  {
    if members == [] then (v, Ok(true))
    else
      var (w, handled) := MemberVisited(s, v, a, path, members[0], parent, depth);
      match handled
      case Err(failure) => (w, Err(failure))
      case Ok(_) => MembersVisited(s, w, a, path, members[1..], parent, depth)
  }

  /** One round of that loop: the member is listed, extracted, and what is in it is visited. */
  function MemberVisited(s: Setup, v: Vars, a: Analyzer, path: Bytes, member: Found, parent: ObjectId, depth: nat)
    : (Vars, Result<(), Failure>)
    requires depth <= s.lim.maxDepth
    decreases Height(s, depth), 1, 0
  {
    var (w, admitted) := Admitted(s, v, a, path, member, parent, depth);
    match admitted
    case Err(failure) => (w, Err(failure))
    case Ok(None) => (w, Ok(()))
    case Ok(Some((bytes, child))) => Opened(s, w, bytes, child, member.path, depth)
  }

  /** The visit of what was extracted, if an analyzer matches it. */
  function Opened(s: Setup, v: Vars, bytes: Bytes, child: ObjectId, name: string, depth: nat): (Vars, Result<(), Failure>)
    requires depth <= s.lim.maxDepth
    decreases Height(s, depth), 0, 0
  {
    if !s.recursive || depth == s.lim.maxDepth then (v, Ok(()))
    else
      var x := v.(tick := v.tick + 1);
      match s.world.matching(v.tick, bytes, name)
      case Err(failure) => (x, Err(failure))
      case Ok(None) => (x, Ok(()))
      case Ok(Some(_)) =>
        var (y, below) := Visited(s, x, bytes, child, name, depth + 1);
        (y, if below.Err? then Err(below.error) else Ok(()))
  }

  /** The body of `analyze` around the first visit. */
  function Analyzed(s: Setup, v: Vars, root: Bytes, rootId: ObjectId, name: string): (Vars, State) {
    var (w, supported) := Visited(s, v, root, rootId, name, 0);
    match supported
    case Err(failure) => (w.(tick := w.tick + 1), Outcome(failure))
    case Ok(recognised) =>
      // the identity catalogue may not be rebuildable
      var x := w.(tick := w.tick + 1, warnings := w.warnings + if s.world.refuses(w.tick) then 1 else 0);
      (x, if !recognised then Unsupported else if x.warnings > 0 then CompleteWithWarnings else Complete)
  }

  function Initial(relations: set<Relation>): Vars { Vars(0, [], 0, 0, [], [], relations, 0, false) }

  // ---------------------------------------------------------------- a run over the limit

  /** Lists one member without bytes. */
  const ONE_MEMBER := Analyzer("one", true, (t: nat, b: Bytes) => Ok(([Found("m", None, Some(0), false, 0)], 0)),
                               (t: nat, b: Bytes, f: Found) => Extraction([], None))

  /** Recognises every file, except when it is asked for the ninth time: by the visit of the member. */
  const FICKLE := World((t: nat, b: Bytes, n: string) => Ok(if t == 8 then None else Some(ONE_MEMBER)),
                        (t: nat) => false, (t: nat) => false, (b: Bytes) => "")

  /** With room for one entry the analysis lists two and ends complete: the visit of the member finds nothing to
      recognise any more and lists it again, although the list is full. */
  lemma OneEntryTooMany()
    ensures var s := Setup(FICKLE, Limits(1, 1, 1, 1, 1, 1, 1), Identify, true);
      var (v, state) := Analyzed(s, Initial({}), [], "root", "disk");
      v.discovered == [Item("m", 1, "root", Status.Materialized), Item("m", 1, "root", Unrecognised)] && state == Complete
  {
  }
}
