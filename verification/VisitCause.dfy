/**
  Why an analysis ends early (src/rab/analysis.py, `analyze`): for every exception that reaches it, the budget that is
  used up, the question that was answered too late, or who raised it.
*/
module VisitCause {
  import opened Common
  import opened AnalysisTypes
  import opened VisitRun

  /** An extraction: what was asked of whom, and at which moment. */
  datatype Attempt = Attempt(analyzer: Analyzer, tick: nat, source: Bytes, member: Found)
  {
    function Result(): Extraction { analyzer.extract(tick, source, member) }
  }

  datatype Cause =
    | TooManyEntries
    | TooManyVisits
    | AnnouncedTooLarge(a: Attempt)
    | ExpandsTooMuch(a: Attempt)
    | TotalTooLarge(a: Attempt)
    | OtherSize(a: Attempt)
    | TimeIsUp(tick: nat)
    | NoTool(analyzer: Analyzer)
    | NotStored(tick: nat)
    | OwnContainer(a: Attempt, parent: ObjectId)
    | RelatedBefore(relation: Relation)
    | ProbeRaised(tick: nat, source: Bytes, name: string, failure: Failure)
    | ListingRaised(analyzer: Analyzer, tick: nat, source: Bytes, failure: Failure)
    | ExtractionRaised(a: Attempt, failure: Failure)

  /** What is raised for it. */
  function Raised(c: Cause): Failure {
    match c
    case TooManyEntries => LimitReached(MaxFiles)
    case TooManyVisits => LimitReached(MaxNested)
    case AnnouncedTooLarge(_) => LimitReached(MaxSingleBytes)
    case ExpandsTooMuch(_) => LimitReached(MaxRatio)
    case TotalTooLarge(_) => LimitReached(MaxBytes)
    case OtherSize(_) => MalformedInput
    case TimeIsUp(_) => Timeout
    case NoTool(_) => ToolMissing
    case NotStored(_) => Unexpected
    case OwnContainer(_, _) => PolicyError
    case RelatedBefore(_) => PolicyError
    case ProbeRaised(_, _, _, failure) => failure
    case ListingRaised(_, _, _, failure) => failure
    case ExtractionRaised(_, failure) => failure
  }

  /** A budget of the analysis itself is used up. */
  predicate IsBudget(c: Cause) {
    c.TooManyEntries? || c.TooManyVisits? || c.AnnouncedTooLarge? || c.ExpandsTooMuch? || c.TotalTooLarge?
  }

  /** A probe or an analyzer raised this. */
  predicate Says(c: Cause, failure: Failure) {
    (c.ProbeRaised? || c.ListingRaised? || c.ExtractionRaised?) && c.failure == failure
  }

  predicate SaysLimit(c: Cause) { exists l: Limit :: Says(c, LimitReached(l)) }

  /** The analyzer is one that matched a file. */
  ghost predicate Matched(w: World, a: Analyzer) {
    exists t, b, n :: w.matching(t, b, n) == Ok(Some(a))
  }

  /** The extraction is that of a member that a matching analyzer listed, which is no directory. */
  ghost predicate Tried(s: Setup, a: Attempt) {
    && s.policy != MetadataOnly && !a.member.directory && Matched(s.world, a.analyzer)
    && exists t :: a.analyzer.members(t, a.source).Ok? && a.member in a.analyzer.members(t, a.source).value.0
  }

  /** The extraction was carried out without an exception. */
  ghost predicate Succeeded(s: Setup, a: Attempt) { Tried(s, a) && a.Result().failure == None }

  /** It gave as many bytes as the listing announced, if it did. */
  ghost predicate Agreed(s: Setup, a: Attempt) {
    Succeeded(s, a) && (a.member.size.Some? ==> |a.Result().written| == a.member.size.value)
  }

  /** The cause is real, in an analysis that ended with these variables. */
  ghost predicate Real(s: Setup, v: Vars, c: Cause) {
    match c
    case TooManyEntries => s.lim.maxFiles <= |v.discovered|
    case TooManyVisits => s.lim.maxNested < v.nested
    case AnnouncedTooLarge(a) => Tried(s, a) && a.member.size.Some? && s.lim.maxSingleBytes < a.member.size.value
    case ExpandsTooMuch(a) =>
      Agreed(s, a) && (if a.source == [] then 1 else |a.source|) * s.lim.maxRatio < |a.Result().written|
    case TotalTooLarge(a) => Agreed(s, a) && s.lim.maxBytes < v.expanded + |a.Result().written|
    case OtherSize(a) => Succeeded(s, a) && a.member.size.Some? && |a.Result().written| != a.member.size.value
    case TimeIsUp(tick) => tick < v.tick && s.world.late(tick)
    case NoTool(a) => Matched(s.world, a) && !a.available
    case NotStored(tick) => tick < v.tick && s.world.refuses(tick) && (s.policy == Preserve || s.policy == Archival)
    case OwnContainer(a, parent) => Agreed(s, a) && s.world.sha(a.Result().written) == parent
    case RelatedBefore(relation) => relation in v.relations
    case ProbeRaised(tick, source, name, failure) => tick < v.tick && s.world.matching(tick, source, name) == Err(failure)
    case ListingRaised(a, tick, source, failure) => tick < v.tick && Matched(s.world, a) && a.members(tick, source) == Err(failure)
    case ExtractionRaised(a, failure) => a.tick < v.tick && Tried(s, a) && a.Result().failure == Some(failure)
  }

  /** The cause that an early end is put down to. */
  ghost predicate Explains(s: Setup, v: Vars, c: Cause, failure: Failure) { Real(s, v, c) && Raised(c) == failure }

  /** The state recorded for an analysis and its cause, if it ended early. */
  ghost predicate Accounts(s: Setup, v: Vars, state: State, why: Option<Cause>) {
    && (why == None <==> state in {Complete, CompleteWithWarnings, Unsupported})
    && (why.Some? ==> Real(s, v, why.value))
    && (state == LimitExceeded <==> why.Some? && (IsBudget(why.value) || SaysLimit(why.value)))
    && (state == TimedOut <==> why.Some? && (why.value.TimeIsUp? || Says(why.value, Timeout)))
    && (state == Malformed <==> why.Some? && (why.value.OtherSize? || Says(why.value, MalformedInput)))
    && (state == ToolIsMissing <==> why.Some? && (why.value.NoTool? || Says(why.value, ToolMissing)))
    && (state == Failed <==>
          why.Some?
          && (why.value.NotStored? || why.value.OwnContainer? || why.value.RelatedBefore? || Says(why.value, PolicyError)
              || Says(why.value, Unexpected)))
  }

  /** Every analysis that ends early has a cause, and the state says which; one that does not has none. */
  lemma WhyAnalyzed(s: Setup, v: Vars, root: Bytes, rootId: ObjectId, name: string) returns (why: Option<Cause>)
    ensures var (w, state) := Analyzed(s, v, root, rootId, name); Accounts(s, w, state, why)
  {
    hide Visited, Real, IsBudget, Says, SaysLimit, Raised, Outcome, Accounts;
    var (w, supported) := Visited(s, v, root, rootId, name, 0);
    if supported.Err? {
      var cause := WhyVisited(s, v, root, rootId, name, 0);
      RealLater(s, w, cause);
      CauseAccounts(s, w.(tick := w.tick + 1), cause);
      return Some(cause);
    }
    var (x, state) := Analyzed(s, v, root, rootId, name);
    NoCauseAccounts(s, x, state);
    return None;
  }

  lemma NoCauseAccounts(s: Setup, v: Vars, state: State)
    requires state in {Complete, CompleteWithWarnings, Unsupported}
    ensures Accounts(s, v, state, None)
  {}

  /** One more question changes nothing about a cause. */
  lemma RealLater(s: Setup, v: Vars, c: Cause)
    ensures Real(s, v, c) ==> Real(s, v.(tick := v.tick + 1), c)
  {
    hide Tried, Matched;
  }

  lemma CauseAccounts(s: Setup, v: Vars, c: Cause)
    requires Real(s, v, c)
    ensures Accounts(s, v, Outcome(Raised(c)), Some(c))
  {
    hide Real;
    if (c.ProbeRaised? || c.ListingRaised? || c.ExtractionRaised?) && c.failure.LimitReached? {
      assert Says(c, LimitReached(c.failure.limit));
    }
  }

  lemma WhyVisited(s: Setup, v: Vars, path: Bytes, parent: ObjectId, name: string, depth: nat) returns (c: Cause)
    requires depth <= s.lim.maxDepth && Visited(s, v, path, parent, name, depth).1.Err?
    ensures var (w, r) := Visited(s, v, path, parent, name, depth); Explains(s, w, c, r.error)
    decreases s.lim.maxDepth - depth, 4, 0
  {
    hide Probed, Explains;
    var (w, refusal) := Entered(s, v, depth);
    if refusal.Some? {
      c := WhyEntered(s, v, depth);
    } else {
      c := WhyProbed(s, w, path, parent, name, depth);
    }
  }

  lemma WhyEntered(s: Setup, v: Vars, depth: nat) returns (c: Cause)
    requires depth <= s.lim.maxDepth && Entered(s, v, depth).1.Some?
    ensures var (w, r) := Entered(s, v, depth); Explains(s, w, c, r.value)
  {
    return if 0 < depth && s.lim.maxNested < v.nested + 1 then TooManyVisits else TimeIsUp(v.tick);
  }

  lemma WhyProbed(s: Setup, v: Vars, path: Bytes, parent: ObjectId, name: string, depth: nat) returns (c: Cause)
    requires depth <= s.lim.maxDepth && Probed(s, v, path, parent, name, depth).1.Err?
    ensures var (w, r) := Probed(s, v, path, parent, name, depth); Explains(s, w, c, r.error)
    decreases s.lim.maxDepth - depth, 3, 0
  {
    hide MembersVisited, Inspected, Matched, Tried;
    var x := v.(tick := v.tick + 1);
    match s.world.matching(v.tick, path, name)
    case Err(failure) => c := ProbeRaised(v.tick, path, name, failure);
    case Ok(Some(a)) =>
      IsMatched(s.world, a, v.tick, path, name);
      var (y, members) := Inspected(s, x, a, path);
      if members.Err? {
        c := WhyInspected(s, x, a, path);
      } else {
        IsOffered(s, x, a, path);
        c := WhyMembers(s, y, a, path, members.value, parent, depth);
      }
  }

  lemma IsMatched(w: World, a: Analyzer, t: nat, path: Bytes, name: string)
    requires w.matching(t, path, name) == Ok(Some(a))
    ensures Matched(w, a)
  {}

  /** Every member of the list was listed by the analyzer. */
  ghost predicate Offered(a: Analyzer, path: Bytes, members: seq<Found>) {
    forall m :: m in members ==> exists t :: a.members(t, path).Ok? && m in a.members(t, path).value.0
  }

  lemma IsOffered(s: Setup, v: Vars, a: Analyzer, path: Bytes)
    requires Inspected(s, v, a, path).1.Ok?
    ensures Offered(a, path, Inspected(s, v, a, path).1.value)
  {
    assert a.members(v.tick, path).value.0 == Inspected(s, v, a, path).1.value;
  }

  lemma WhyInspected(s: Setup, v: Vars, a: Analyzer, path: Bytes) returns (c: Cause)
    requires Matched(s.world, a) && Inspected(s, v, a, path).1.Err?
    ensures var (w, r) := Inspected(s, v, a, path); Explains(s, w, c, r.error)
  {
    hide Matched;
    return if !a.available then NoTool(a)
           else if a.members(v.tick, path).Err? then ListingRaised(a, v.tick, path, a.members(v.tick, path).error)
           else TimeIsUp(v.tick + 1);
  }

  lemma WhyMembers(s: Setup, v: Vars, a: Analyzer, path: Bytes, members: seq<Found>, parent: ObjectId, depth: nat)
    returns (c: Cause)
    requires depth <= s.lim.maxDepth && Matched(s.world, a) && Offered(a, path, members)
    requires MembersVisited(s, v, a, path, members, parent, depth).1.Err?
    ensures var (w, r) := MembersVisited(s, v, a, path, members, parent, depth); Explains(s, w, c, r.error)
    decreases s.lim.maxDepth - depth, 2, |members|
  {
    hide MemberVisited, Explains, Matched;
    assert forall m :: m in [members[0]] || m in members[1..] ==> m in members;
    var (w, handled) := MemberVisited(s, v, a, path, members[0], parent, depth);
    if handled.Err? {
      c := WhyMember(s, v, a, path, members[0], parent, depth);
    } else {
      c := WhyMembers(s, w, a, path, members[1..], parent, depth);
    }
  }

  lemma WhyMember(s: Setup, v: Vars, a: Analyzer, path: Bytes, member: Found, parent: ObjectId, depth: nat) returns (c: Cause)
    requires depth <= s.lim.maxDepth && Matched(s.world, a) && Offered(a, path, [member])
    requires MemberVisited(s, v, a, path, member, parent, depth).1.Err?
    ensures var (w, r) := MemberVisited(s, v, a, path, member, parent, depth); Explains(s, w, c, r.error)
    decreases s.lim.maxDepth - depth, 1, 0
  {
    hide Admitted, Opened, Explains, Matched, Offered;
    var (w, admitted) := Admitted(s, v, a, path, member, parent, depth);
    if admitted.Err? {
      c := WhyAdmitted(s, v, a, path, member, parent, depth);
    } else {
      c := WhyOpened(s, w, admitted.value.value.0, admitted.value.value.1, member.path, depth);
    }
  }

  lemma WhyOpened(s: Setup, v: Vars, bytes: Bytes, child: ObjectId, name: string, depth: nat) returns (c: Cause)
    requires depth <= s.lim.maxDepth && Opened(s, v, bytes, child, name, depth).1.Err?
    ensures var (w, r) := Opened(s, v, bytes, child, name, depth); Explains(s, w, c, r.error)
    decreases s.lim.maxDepth - depth, 0, 0
  {
    hide Visited;
    match s.world.matching(v.tick, bytes, name)
    case Err(failure) => c := ProbeRaised(v.tick, bytes, name, failure);
    case Ok(_) => c := WhyVisited(s, v.(tick := v.tick + 1), bytes, child, name, depth + 1);
  }

  lemma WhyAdmitted(s: Setup, v: Vars, a: Analyzer, path: Bytes, member: Found, parent: ObjectId, depth: nat)
    returns (c: Cause)
    requires Matched(s.world, a) && Offered(a, path, [member]) && Admitted(s, v, a, path, member, parent, depth).1.Err?
    ensures var (w, r) := Admitted(s, v, a, path, member, parent, depth); Explains(s, w, c, r.error)
  {
    hide Extracted, Settled, Matched, Tried;
    if s.lim.maxFiles <= |v.discovered| {
      c := TooManyEntries;
    } else {
      var w := v.(discovered := v.discovered + [Item(member.path, depth + 1, parent, Discovered)]);
      IsTried(s, a, w.tick, path, member);
      var (x, extracted) := Extracted(s, w, a, path, member);
      if extracted.Err? {
        c := WhyExtracted(s, w, a, path, member);
      } else {
        ExtractedAgrees(s, w, a, path, member);
        c := WhySettled(s, x, Attempt(a, w.tick, path, member), parent, depth + 1);
      }
    }
  }

  lemma IsTried(s: Setup, a: Analyzer, tick: nat, path: Bytes, member: Found)
    requires Matched(s.world, a) && Offered(a, path, [member])
    ensures s.policy != MetadataOnly && !member.directory ==> Tried(s, Attempt(a, tick, path, member))
  {
    hide Matched;
    assert member in [member];
  }

  lemma WhyExtracted(s: Setup, v: Vars, a: Analyzer, path: Bytes, member: Found) returns (c: Cause)
    requires Tried(s, Attempt(a, v.tick, path, member)) && Extracted(s, v, a, path, member).1.Err?
    ensures var (w, r) := Extracted(s, v, a, path, member); Explains(s, w, c, r.error)
  {
    hide Tried, Matched;
    var x, tried := a.extract(v.tick, path, member), Attempt(a, v.tick, path, member);
    if !member.SizePasses(s.lim) {
      c := AnnouncedTooLarge(tried);
    } else if x.failure.Some? {
      c := ExtractionRaised(tried, x.failure.value);
    } else if member.size.Some? && |x.written| != member.size.value {
      c := OtherSize(tried);
    } else if Max(|path|, 1) * s.lim.maxRatio < |x.written| {
      c := ExpandsTooMuch(tried);
    } else if s.world.late(v.tick + 1) {
      c := TimeIsUp(v.tick + 1);
    } else {
      c := TotalTooLarge(tried);
    }
  }

  lemma ExtractedAgrees(s: Setup, v: Vars, a: Analyzer, path: Bytes, member: Found)
    requires Tried(s, Attempt(a, v.tick, path, member)) && Extracted(s, v, a, path, member).1.Ok?
    ensures Agreed(s, Attempt(a, v.tick, path, member))
    ensures Extracted(s, v, a, path, member).1.value == Attempt(a, v.tick, path, member).Result().written
  {
    hide Tried;
  }

  lemma WhySettled(s: Setup, v: Vars, tried: Attempt, parent: ObjectId, depth: nat) returns (c: Cause)
    requires Agreed(s, tried) && v.discovered != []
    requires Settled(s, v, tried.analyzer, tried.Result().written, tried.member, parent, depth).1.Err?
    ensures var (w, r) := Settled(s, v, tried.analyzer, tried.Result().written, tried.member, parent, depth); Explains(s, w, c, r.error)
  {
    hide Agreed;
    var id := s.world.sha(tried.Result().written);
    if s.world.refuses(v.tick) {
      c := NotStored(v.tick);
    } else if parent == id {
      c := OwnContainer(tried, parent);
    } else {
      c := RelatedBefore(Contains(tried.analyzer, tried.member, parent, id, depth));
    }
  }
}
