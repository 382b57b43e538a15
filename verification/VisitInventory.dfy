/**
  What there is in a container, without limits, clock or store: the entries, the extracted files and the nested visits
  that its analyzers lead to, by recursion over the depth. In a world whose answers do not change, that is never late
  and whose store takes everything, the recursive analysis (src/rab/analysis.py, `visit`) ends normally exactly when
  this fits the limits, and has then done exactly this.
*/
module VisitInventory {
  import opened Common
  import opened AnalysisTypes
  import opened VisitRun

  /** One file extracted from `source`, and the relationship recorded for it. */
  datatype Taking = Taking(source: Bytes, member: Found, extraction: Extraction, relation: Option<Relation>)

  /** `faults` counts the probes and listings that raise and the tools that are missing. */
  datatype Inventory = Inventory(items: seq<Item>, takings: seq<Taking>, visits: nat, warnings: nat, faults: nat)

  const NOTHING := Inventory([], [], 0, 0, 0)

  const FAULT := Inventory([], [], 0, 0, 1)

  function Plus(a: Inventory, b: Inventory): Inventory {
    Inventory(a.items + b.items, a.takings + b.takings, a.visits + b.visits, a.warnings + b.warnings, a.faults + b.faults)
  }

  predicate Keeps(policy: Policy) { policy == Preserve || policy == Archival }

  /** A file and everything below it. */
  function Whole(s: Setup, path: Bytes, parent: ObjectId, name: string, depth: nat): Inventory
    requires depth <= s.lim.maxDepth
    decreases s.lim.maxDepth - depth, 3, 0
  {
    match s.world.matching(0, path, name)
    case Err(_) => FAULT
    case Ok(None) => NOTHING.(items := [Item(name, depth, parent, Unrecognised)])
    case Ok(Some(a)) =>
      if !a.available then FAULT
      else
        match a.members(0, path)
        case Err(_) => FAULT
        case Ok((members, warnings)) => Plus(NOTHING.(warnings := warnings), Inside(s, a, path, members, parent, depth))
  }

  function Inside(s: Setup, a: Analyzer, path: Bytes, members: seq<Found>, parent: ObjectId, depth: nat): Inventory
    requires depth <= s.lim.maxDepth
    decreases s.lim.maxDepth - depth, 2, |members|
  {
    if members == [] then NOTHING
    else Plus(Single(s, a, path, members[0], parent, depth), Inside(s, a, path, members[1..], parent, depth))
  }

  /** The object that a member's content belongs to. */
  function ChildOf(s: Setup, a: Analyzer, path: Bytes, member: Found, parent: ObjectId): ObjectId {
    if Keeps(s.policy) then s.world.sha(a.extract(0, path, member).written) else parent
  }

  /** The entry of a member, with its extraction unless it is a directory or only metadata is wanted. */
  function Entry(s: Setup, a: Analyzer, path: Bytes, member: Found, parent: ObjectId, depth: nat): Inventory {
    if member.directory || s.policy == MetadataOnly then NOTHING.(items := [Item(member.path, depth + 1, parent, Discovered)])
    else
      var child := ChildOf(s, a, path, member, parent);
      NOTHING.(items := [Item(member.path, depth + 1, parent, if Keeps(s.policy) then Preserved(child) else Status.Materialized)],
               takings := [Taking(path, member, a.extract(0, path, member),
                                  if Keeps(s.policy) then Some(Relation(parent, child, a.name, member.path, member.raw, depth + 1))
                                  else None)])
  }

  function Single(s: Setup, a: Analyzer, path: Bytes, member: Found, parent: ObjectId, depth: nat): Inventory
    requires depth <= s.lim.maxDepth
    decreases s.lim.maxDepth - depth, 1, 0
  {
    var entry := Entry(s, a, path, member, parent, depth);
    if member.directory || s.policy == MetadataOnly then entry
    else Plus(entry, Below(s, a.extract(0, path, member).written, ChildOf(s, a, path, member, parent), member.path, depth))
  }

  /** What is in an extracted file, if it is recognised above the depth limit. */
  function Below(s: Setup, bytes: Bytes, child: ObjectId, name: string, depth: nat): Inventory
    requires depth <= s.lim.maxDepth
    decreases s.lim.maxDepth - depth, 0, 0
  {
    if !s.recursive || depth == s.lim.maxDepth then NOTHING
    else
      match s.world.matching(0, bytes, name)
      case Err(_) => FAULT
      case Ok(None) => NOTHING
      case Ok(Some(_)) => Plus(NOTHING.(visits := 1), Whole(s, bytes, child, name, depth + 1))
  }

  function Size(takings: seq<Taking>): nat {
    if takings == [] then 0 else Size(takings[..|takings| - 1]) + |takings[|takings| - 1].extraction.written|
  }

  function FilesOf(takings: seq<Taking>): seq<Bytes> {
    seq(|takings|, i requires 0 <= i < |takings| => takings[i].extraction.written)
  }

  function RelationsOf(takings: seq<Taking>): set<Relation> {
    set t | t in takings && t.relation.Some? :: t.relation.value
  }

  // ---------------------------------------------------------------- what fits

  /** One extraction: it does not raise, its size is the announced one and allowed, and it does not expand too much. */
  predicate TakingFits(lim: Limits, t: Taking) {
    && t.extraction.failure == None
    && (t.member.size.Some? ==> |t.extraction.written| == t.member.size.value <= lim.maxSingleBytes)
    && |t.extraction.written| <= (if t.source == [] then 1 else |t.source|) * lim.maxRatio
    && (t.relation.Some? ==> t.relation.value.subject != t.relation.value.object_)
  }

  /** No relationship twice, and none that is recorded already. */
  ghost predicate Fresh(known: set<Relation>, takings: seq<Taking>) {
    forall i :: 0 <= i < |takings| && takings[i].relation.Some? ==>
      takings[i].relation.value !in known
      && forall j :: 0 <= j < i ==> takings[j].relation != takings[i].relation
  }

  /** What is left of the limits is enough. */
  ghost predicate Fits(s: Setup, v: Vars, inv: Inventory) {
    && inv.faults == 0
    && |v.discovered| + |inv.items| <= s.lim.maxFiles && v.nested + inv.visits <= s.lim.maxNested
    && v.expanded + Size(inv.takings) <= s.lim.maxBytes
    && (forall i :: 0 <= i < |inv.takings| ==> TakingFits(s.lim, inv.takings[i]))
    && Fresh(v.relations, inv.takings)
  }

  /** The variables after all of it. */
  function Grown(v: Vars, inv: Inventory): Vars {
    v.(discovered := v.discovered + inv.items, nested := v.nested + inv.visits, expanded := v.expanded + Size(inv.takings),
       files := v.files + FilesOf(inv.takings), relations := v.relations + RelationsOf(inv.takings),
       warnings := v.warnings + inv.warnings)
  }

  lemma {:induction false} SizePlus(a: seq<Taking>, b: seq<Taking>)
    ensures Size(a + b) == Size(a) + Size(b)
  {
    if b == [] {
      assert a + b == a;
    } else {
      assert (a + b)[..|a + b| - 1] == a + b[..|b| - 1];
      SizePlus(a, b[..|b| - 1]);
    }
  }

  lemma FreshPlus(known: set<Relation>, a: seq<Taking>, b: seq<Taking>)
    ensures Fresh(known, a + b) <==> Fresh(known, a) && Fresh(known + RelationsOf(a), b)
  {
    var all := a + b;
    if Fresh(known, all) {
      forall i | 0 <= i < |a| && a[i].relation.Some?
        ensures a[i].relation.value !in known && forall j :: 0 <= j < i ==> a[j].relation != a[i].relation
      {
        assert all[i] == a[i];
        assert forall j :: 0 <= j < i ==> all[j] == a[j];
      }
      forall i | 0 <= i < |b| && b[i].relation.Some?
        ensures b[i].relation.value !in known + RelationsOf(a) && forall j :: 0 <= j < i ==> b[j].relation != b[i].relation
      {
        assert all[|a| + i] == b[i];
        assert forall j :: 0 <= j < i ==> all[|a| + j] == b[j];
        assert forall j :: 0 <= j < |a| ==> all[j] == a[j];
      }
    }
    if Fresh(known, a) && Fresh(known + RelationsOf(a), b) {
      forall i | 0 <= i < |all| && all[i].relation.Some?
        ensures all[i].relation.value !in known && forall j :: 0 <= j < i ==> all[j].relation != all[i].relation
      {
        if i < |a| {
          assert all[i] == a[i];
        } else {
          assert all[i] == b[i - |a|];
          forall j | 0 <= j < i
            ensures all[j].relation != all[i].relation
          {
            if j < |a| {
              assert all[j] == a[j] && a[j] in a;
            } else {
              assert all[j] == b[j - |a|];
            }
          }
        }
      }
    }
  }

  lemma GrownPlus(v: Vars, a: Inventory, b: Inventory)
    ensures Grown(v, Plus(a, b)) == Grown(Grown(v, a), b)
  {
    SizePlus(a.takings, b.takings);
    assert FilesOf(a.takings + b.takings) == FilesOf(a.takings) + FilesOf(b.takings);
    assert RelationsOf(a.takings + b.takings) == RelationsOf(a.takings) + RelationsOf(b.takings);
    assert v.discovered + (a.items + b.items) == v.discovered + a.items + b.items;
    assert v.files + (FilesOf(a.takings) + FilesOf(b.takings)) == v.files + FilesOf(a.takings) + FilesOf(b.takings);
    assert v.relations + (RelationsOf(a.takings) + RelationsOf(b.takings))
           == v.relations + RelationsOf(a.takings) + RelationsOf(b.takings);
  }

  lemma FitsPlus(s: Setup, v: Vars, a: Inventory, b: Inventory)
    ensures Fits(s, v, Plus(a, b)) <==> Fits(s, v, a) && Fits(s, Grown(v, a), b)
  {
    hide Fresh, TakingFits, RelationsOf;
    SizePlus(a.takings, b.takings);
    FreshPlus(v.relations, a.takings, b.takings);
    AllPlus(s.lim, a.takings, b.takings);
  }

  lemma AllPlus(lim: Limits, a: seq<Taking>, b: seq<Taking>)
    ensures (forall i :: 0 <= i < |a + b| ==> TakingFits(lim, (a + b)[i]))
            <==> (forall i :: 0 <= i < |a| ==> TakingFits(lim, a[i])) && (forall i :: 0 <= i < |b| ==> TakingFits(lim, b[i]))
  {
    hide TakingFits;
    if forall i :: 0 <= i < |a + b| ==> TakingFits(lim, (a + b)[i]) {
      forall i | 0 <= i < |b|
        ensures TakingFits(lim, b[i])
      {
        assert (a + b)[|a| + i] == b[i];
      }
      forall i | 0 <= i < |a|
        ensures TakingFits(lim, a[i])
      {
        assert (a + b)[i] == a[i];
      }
    }
  }

  lemma FitsNothing(s: Setup, v: Vars, inv: Inventory)
    requires Within(s, v) && inv.takings == [] && inv.items == [] && inv.visits == 0 && inv.faults == 0
    ensures Fits(s, v, inv) && Grown(v, inv) == v.(warnings := v.warnings + inv.warnings)
  {
    assert v.discovered + [] == v.discovered && v.files + [] == v.files;
    assert v.relations + RelationsOf([]) == v.relations;
  }

  // ---------------------------------------------------------------- the analysis does just this

  /** The answers of an analyzer do not depend on the moment. */
  ghost predicate Constant(a: Analyzer) {
    && (forall t, c :: a.members(t, c) == a.members(0, c))
    && forall t, c, f :: a.extract(t, c, f) == a.extract(0, c, f)
  }

  /** Nothing depends on the moment, nothing is late and the store takes everything. */
  ghost predicate Quiet(w: World) {
    && (forall t :: !w.late(t)) && (forall t :: !w.refuses(t))
    && (forall t, b, n :: w.matching(t, b, n) == w.matching(0, b, n))
    && forall b, n :: w.Matches(0, b, n) ==> Constant(w.matching(0, b, n).value.value)
  }

  /** The limits are not exceeded so far, and nothing lies in the workspace unaccepted. */
  predicate Within(s: Setup, v: Vars) {
    |v.discovered| <= s.lim.maxFiles && v.nested <= s.lim.maxNested && v.expanded <= s.lim.maxBytes && v.scratch == []
  }

  /** The step ended normally iff what it was to do fits, and then did it. */
  ghost predicate Does(s: Setup, v: Vars, inv: Inventory, w: Vars, ok: bool) {
    (ok <==> Fits(s, v, inv)) && (ok ==> w == Grown(v, inv).(tick := w.tick))
  }

  lemma GrownWithin(s: Setup, v: Vars, inv: Inventory)
    requires Within(s, v) && Fits(s, v, inv)
    ensures Within(s, Grown(v, inv))
  {}

  /** One thing after the other. */
  lemma DoesPlus(s: Setup, v: Vars, a: Inventory, w: Vars, b: Inventory, x: Vars, ok: bool)
    requires Does(s, v, a, w, true) && Does(s, w, b, x, ok)
    ensures Does(s, v, Plus(a, b), x, ok)
  {
    hide Fits;
    FitsPlus(s, v, a, b);
    GrownPlus(v, a, b);
    TickIsFree(s, Grown(v, a), b, w.tick);
  }

  lemma DoesNot(s: Setup, v: Vars, a: Inventory, w: Vars, b: Inventory)
    requires Does(s, v, a, w, false)
    ensures Does(s, v, Plus(a, b), w, false)
  {
    hide Fits;
    FitsPlus(s, v, a, b);
  }

  lemma TickIsFree(s: Setup, v: Vars, inv: Inventory, tick: nat)
    ensures Fits(s, v.(tick := tick), inv) <==> Fits(s, v, inv)
    ensures Grown(v.(tick := tick), inv) == Grown(v, inv).(tick := tick)
  {}

  lemma ExtractedIs(s: Setup, v: Vars, a: Analyzer, path: Bytes, member: Found)
    requires Quiet(s.world) && Constant(a) && Within(s, v)
    ensures var (w, r) := Extracted(s, v, a, path, member);
      var x := a.extract(0, path, member);
      && (r.Ok? <==> TakingFits(s.lim, Taking(path, member, x, None)) && v.expanded + |x.written| <= s.lim.maxBytes)
      && (r.Ok? ==> r.value == x.written
                    && w == v.(tick := w.tick, files := v.files + [x.written], expanded := v.expanded + |x.written|))
  {
    assert a.extract(v.tick, path, member) == a.extract(0, path, member);
  }

  lemma SettledIs(s: Setup, v: Vars, a: Analyzer, bytes: Bytes, member: Found, parent: ObjectId, depth: nat)
    requires Quiet(s.world) && v.discovered != []
    ensures var (w, r) := Settled(s, v, a, bytes, member, parent, depth);
      var child := if Keeps(s.policy) then s.world.sha(bytes) else parent;
      var relation := Relation(parent, child, a.name, member.path, member.raw, depth);
      var last := v.discovered[|v.discovered| - 1];
      && (r.Ok? <==> Keeps(s.policy) ==> parent != child && relation !in v.relations)
      && (r.Ok? ==>
            && r.value == (bytes, child)
            && w == v.(tick := w.tick, relations := v.relations + if Keeps(s.policy) then {relation} else {},
                       discovered := v.discovered[..|v.discovered| - 1]
                                     + [last.(status := if Keeps(s.policy) then Preserved(child) else Status.Materialized)]))
  {
  }

  lemma OneTaking(s: Setup, v: Vars, t: Taking)
    ensures Size([t]) == |t.extraction.written| && FilesOf([t]) == [t.extraction.written]
    ensures RelationsOf([t]) == if t.relation.Some? then {t.relation.value} else {}
    ensures Fresh(v.relations, [t]) <==> (t.relation.Some? ==> t.relation.value !in v.relations)
  {
    assert [t][..0] == [] && Size([]) == 0;
    assert forall u :: u in [t] <==> u == t;
  }

  /** A member is admitted iff its entry and its extraction fit. */
  lemma AdmittedDoes(s: Setup, v: Vars, a: Analyzer, path: Bytes, member: Found, parent: ObjectId, depth: nat)
    requires Quiet(s.world) && Constant(a) && Within(s, v)
    ensures var (w, r) := Admitted(s, v, a, path, member, parent, depth);
      && Does(s, v, Entry(s, a, path, member, parent, depth), w, r.Ok?)
      && (r.Ok? ==> r.value == if member.directory || s.policy == MetadataOnly then None
                               else Some((a.extract(0, path, member).written, ChildOf(s, a, path, member, parent))))
  {
    hide Quiet, Constant, Fresh, RelationsOf, FilesOf, Size, Extracted, Settled, TakingFits;
    var entry := Entry(s, a, path, member, parent, depth);
    if member.directory || s.policy == MetadataOnly {
      NoTaking(v);
    } else {
      OneTaking(s, v, entry.takings[0]);
      if |v.discovered| < s.lim.maxFiles {
        var u := v.(discovered := v.discovered + [Item(member.path, depth + 1, parent, Discovered)]);
        ExtractedIs(s, u, a, path, member);
        var (x, extracted) := Extracted(s, u, a, path, member);
        if extracted.Ok? {
          SettledIs(s, x, a, extracted.value, member, parent, depth + 1);
        }
        RelationFits(s.lim, entry.takings[0]);
      }
    }
  }

  lemma RelationFits(lim: Limits, t: Taking)
    ensures TakingFits(lim, t) <==>
      && TakingFits(lim, t.(relation := None))
      && (t.relation.Some? ==> t.relation.value.subject != t.relation.value.object_)
  {}

  lemma NoTaking(v: Vars)
    ensures Size([]) == 0 && FilesOf([]) == [] && RelationsOf([]) == {} && Fresh(v.relations, [])
    ensures v.files + [] == v.files && v.relations + {} == v.relations
  {}

  /** A visit of a file: itself, if it is nested, and everything below it. */
  function Visit(s: Setup, path: Bytes, parent: ObjectId, name: string, depth: nat): Inventory
    requires depth <= s.lim.maxDepth
  { Plus(NOTHING.(visits := if depth == 0 then 0 else 1), Whole(s, path, parent, name, depth)) }

  lemma {:induction false} VisitedDoes(s: Setup, v: Vars, path: Bytes, parent: ObjectId, name: string, depth: nat)
    requires Quiet(s.world) && Within(s, v) && depth <= s.lim.maxDepth
    requires if depth == 0 then v.discovered == [] && 0 < s.lim.maxFiles else s.world.Matches(0, path, name)
    ensures var (w, r) := Visited(s, v, path, parent, name, depth);
      Does(s, v, Visit(s, path, parent, name, depth), w, r.Ok?) && (r.Ok? ==> r.value == s.world.Matches(0, path, name))
    decreases s.lim.maxDepth - depth, 4, 0
  {
    hide Fits, Grown, Probed, Whole, World.Matches, Constant, Does;
    var entry := NOTHING.(visits := if depth == 0 then 0 else 1);
    var (w, refusal) := Entered(s, v, depth);
    EnteredDoes(s, v, depth);
    if refusal.Some? {
      DoesNot(s, v, entry, w, Whole(s, path, parent, name, depth));
    } else {
      ProbedDoes(s, w, path, parent, name, depth);
      var (x, r) := Probed(s, w, path, parent, name, depth);
      DoesPlus(s, v, entry, w, Whole(s, path, parent, name, depth), x, r.Ok?);
    }
  }

  lemma EnteredDoes(s: Setup, v: Vars, depth: nat)
    requires Quiet(s.world) && Within(s, v) && depth <= s.lim.maxDepth
    ensures var (w, refusal) := Entered(s, v, depth);
      && Does(s, v, NOTHING.(visits := if depth == 0 then 0 else 1), w, refusal == None)
      && (refusal == None ==> Within(s, w) && w.discovered == v.discovered)
  {
    NoTaking(v);
    assert v.discovered + [] == v.discovered;
  }

  lemma {:induction false} ProbedDoes(s: Setup, v: Vars, path: Bytes, parent: ObjectId, name: string, depth: nat)
    requires Quiet(s.world) && Within(s, v) && depth <= s.lim.maxDepth
    requires if depth == 0 then v.discovered == [] && 0 < s.lim.maxFiles else s.world.Matches(0, path, name)
    ensures var (w, r) := Probed(s, v, path, parent, name, depth);
      Does(s, v, Whole(s, path, parent, name, depth), w, r.Ok?) && (r.Ok? ==> r.value == s.world.Matches(0, path, name))
    decreases s.lim.maxDepth - depth, 3, 0
  {
    hide Fits, Grown, Inspected, MembersVisited, Inside, Constant, Does, Within;
    var x := v.(tick := v.tick + 1);
    assert s.world.matching(v.tick, path, name) == s.world.matching(0, path, name);
    match s.world.matching(0, path, name)
    case Err(_) => FaultDoes(s, v, x);
    case Ok(None) => UnrecognisedDoes(s, v, Item(name, depth, parent, Unrecognised), x.tick);
    case Ok(Some(a)) =>
      assert s.world.Matches(0, path, name) && Constant(a);
      InspectedDoes(s, v, a, path, x.tick);
      var (y, members) := Inspected(s, x, a, path);
      if members.Ok? {
        var warnings := NOTHING.(warnings := a.members(0, path).value.1);
        InsideDoes(s, y, a, path, members.value, parent, depth);
        var (z, r) := MembersVisited(s, y, a, path, members.value, parent, depth);
        DoesPlus(s, v, warnings, y, Inside(s, a, path, members.value, parent, depth), z, r.Ok?);
        MembersAreRecognised(s, y, a, path, members.value, parent, depth);
      }
  }

  lemma FaultDoes(s: Setup, v: Vars, w: Vars)
    ensures Does(s, v, FAULT, w, false)
  {}

  lemma UnrecognisedDoes(s: Setup, v: Vars, item: Item, tick: nat)
    requires Within(s, v) && v.discovered == [] && 0 < s.lim.maxFiles
    ensures Does(s, v, NOTHING.(items := [item]), v.(tick := tick, discovered := v.discovered + [item]), true)
  {
    NoTaking(v);
  }

  lemma InspectedDoes(s: Setup, v: Vars, a: Analyzer, path: Bytes, tick: nat)
    requires Quiet(s.world) && Constant(a) && Within(s, v)
    ensures var (w, r) := Inspected(s, v.(tick := tick), a, path);
      && (r.Ok? <==> a.available && a.members(0, path).Ok?)
      && (r.Err? ==> Does(s, v, FAULT, w, false))
      && (r.Ok? ==> r.value == a.members(0, path).value.0 && Within(s, w)
                    && Does(s, v, NOTHING.(warnings := a.members(0, path).value.1), w, true))
  {
    hide Fits, Grown;
    FaultDoes(s, v, Inspected(s, v.(tick := tick), a, path).0);
    assert a.members(tick, path) == a.members(0, path);
    if a.members(0, path).Ok? {
      FitsNothing(s, v, NOTHING.(warnings := a.members(0, path).value.1));
    }
  }

  lemma {:induction false} MembersAreRecognised(s: Setup, v: Vars, a: Analyzer, path: Bytes, members: seq<Found>,
                                                parent: ObjectId, depth: nat)
    requires depth <= s.lim.maxDepth
    ensures var r := MembersVisited(s, v, a, path, members, parent, depth).1; r.Ok? ==> r.value
    decreases |members|
  {
    hide MemberVisited;
    if members != [] {
      MembersAreRecognised(s, MemberVisited(s, v, a, path, members[0], parent, depth).0, a, path, members[1..], parent, depth);
    }
  }

  lemma {:induction false} InsideDoes(s: Setup, v: Vars, a: Analyzer, path: Bytes, members: seq<Found>, parent: ObjectId, depth: nat)
    requires Quiet(s.world) && Constant(a) && Within(s, v) && depth <= s.lim.maxDepth
    ensures var (w, r) := MembersVisited(s, v, a, path, members, parent, depth);
      Does(s, v, Inside(s, a, path, members, parent, depth), w, r.Ok?)
    decreases s.lim.maxDepth - depth, 2, |members|
  {
    hide Fits, Grown, MemberVisited, Single, Constant, Quiet;
    if members == [] {
      FitsNothing(s, v, NOTHING);
    } else {
      var single, rest := Single(s, a, path, members[0], parent, depth), Inside(s, a, path, members[1..], parent, depth);
      SingleDoes(s, v, a, path, members[0], parent, depth);
      var (w, handled) := MemberVisited(s, v, a, path, members[0], parent, depth);
      if handled.Ok? {
        GrownWithin(s, v, single);
        InsideDoes(s, w, a, path, members[1..], parent, depth);
        var (x, r) := MembersVisited(s, w, a, path, members[1..], parent, depth);
        DoesPlus(s, v, single, w, rest, x, r.Ok?);
      } else {
        DoesNot(s, v, single, w, rest);
      }
    }
  }

  lemma {:induction false} SingleDoes(s: Setup, v: Vars, a: Analyzer, path: Bytes, member: Found, parent: ObjectId, depth: nat)
    requires Quiet(s.world) && Constant(a) && Within(s, v) && depth <= s.lim.maxDepth
    ensures var (w, r) := MemberVisited(s, v, a, path, member, parent, depth);
      Does(s, v, Single(s, a, path, member, parent, depth), w, r.Ok?)
    decreases s.lim.maxDepth - depth, 1, 0
  {
    hide Fits, Grown, Admitted, Opened, Constant, Quiet, Entry, Below, ChildOf;
    AdmittedDoes(s, v, a, path, member, parent, depth);
    var entry := Entry(s, a, path, member, parent, depth);
    var (w, admitted) := Admitted(s, v, a, path, member, parent, depth);
    if !(member.directory || s.policy == MetadataOnly) {
      var bytes, child := a.extract(0, path, member).written, ChildOf(s, a, path, member, parent);
      var below := Below(s, bytes, child, member.path, depth);
      if admitted.Ok? {
        GrownWithin(s, v, entry);
        BelowDoes(s, w, bytes, child, member.path, depth);
        var (x, r) := Opened(s, w, bytes, child, member.path, depth);
        DoesPlus(s, v, entry, w, below, x, r.Ok?);
      } else {
        DoesNot(s, v, entry, w, below);
      }
    }
  }

  lemma {:induction false} BelowDoes(s: Setup, v: Vars, bytes: Bytes, child: ObjectId, name: string, depth: nat)
    requires Quiet(s.world) && Within(s, v) && depth <= s.lim.maxDepth
    ensures var (w, r) := Opened(s, v, bytes, child, name, depth);
      Does(s, v, Below(s, bytes, child, name, depth), w, r.Ok?)
    decreases s.lim.maxDepth - depth, 0, 0
  {
    hide Fits, Grown, Visited, Whole, Constant;
    var x := v.(tick := v.tick + 1);
    assert s.world.matching(v.tick, bytes, name) == s.world.matching(0, bytes, name);
    if !s.recursive || depth == s.lim.maxDepth {
      FitsNothing(s, v, NOTHING);
    } else if s.world.matching(0, bytes, name).Err? {
      FaultDoes(s, v, x);
    } else if s.world.matching(0, bytes, name) == Ok(None) {
      FitsNothing(s, v, NOTHING);
    } else {
      VisitedDoes(s, x, bytes, child, name, depth + 1);
      assert Below(s, bytes, child, name, depth) == Visit(s, bytes, child, name, depth + 1);
      var (y, below) := Visited(s, x, bytes, child, name, depth + 1);
      assert Opened(s, v, bytes, child, name, depth) == (y, if below.Err? then Err(below.error) else Ok(()));
      TickIsFree(s, v, Visit(s, bytes, child, name, depth + 1), x.tick);
    }
  }

  /** The analysis ended complete, or unsupported where no analyzer knows the container, exactly if all there is in it
      fits the limits; and then its lists are those of the inventory. */
  ghost predicate Completes(s: Setup, relations: set<Relation>, root: Bytes, rootId: ObjectId, name: string, v: Vars,
                            state: State) {
    var all, fits := Whole(s, root, rootId, name, 0), Fits(s, Initial(relations), Whole(s, root, rootId, name, 0));
    && (fits <==> state in {Complete, CompleteWithWarnings, Unsupported})
    && (fits ==>
          && (state == Unsupported <==> s.world.matching(0, root, name) == Ok(None))
          && (state == CompleteWithWarnings <==> state != Unsupported && 0 < all.warnings)
          && v == Vars(v.tick, all.items, all.visits, Size(all.takings), FilesOf(all.takings), [],
                       relations + RelationsOf(all.takings), all.warnings, false))
  }

  lemma AnalysisIsInventory(s: Setup, relations: set<Relation>, root: Bytes, rootId: ObjectId, name: string)
    requires Quiet(s.world) && 0 < s.lim.maxFiles
    ensures var (v, state) := Analyzed(s, Initial(relations), root, rootId, name);
      Completes(s, relations, root, rootId, name, v, state)
  {
    hide Fits, Visited, Whole, Constant, Does;
    var v := Initial(relations);
    VisitedDoes(s, v, root, rootId, name, 0);
    var entry, inv := NOTHING, Whole(s, root, rootId, name, 0);
    FitsNothing(s, v, entry);
    FitsPlus(s, v, entry, inv);
    GrownPlus(v, entry, inv);
    var (w, r) := Visited(s, v, root, rootId, name, 0);
    DoesMeans(s, v, Visit(s, root, rootId, name, 0), w, r.Ok?);
    FitsIsAnswered(s, v, root, rootId, name);
    assert [] + inv.items == inv.items && [] + FilesOf(inv.takings) == FilesOf(inv.takings);
  }

  lemma FitsIsAnswered(s: Setup, v: Vars, path: Bytes, parent: ObjectId, name: string)
    ensures Fits(s, v, Whole(s, path, parent, name, 0)) ==> s.world.matching(0, path, name).Ok?
  {}

  lemma DoesMeans(s: Setup, v: Vars, inv: Inventory, w: Vars, ok: bool)
    requires Does(s, v, inv, w, ok)
    ensures (ok <==> Fits(s, v, inv)) && (ok ==> w == Grown(v, inv).(tick := w.tick))
  {}
}
