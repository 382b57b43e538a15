/**
  The recursive analysis of a container as it is carried out in place (src/rab/analysis.py,
  `AnalysisManager.analyze` and its nested `visit`): its budgets, and what a finished analysis has listed.
*/
module Visit {
  import opened Common
  import opened AnalysisTypes
  import opened VisitRun
  import opened VisitCause
  import VisitInventory

  function Total(files: seq<Bytes>): nat {
    if files == [] then 0 else Total(files[..|files| - 1]) + |files[|files| - 1]|
  }

  /** The parent of every listed item is the root or an item listed and preserved before it. */
  ghost predicate Rooted(items: seq<Item>, root: ObjectId) {
    forall k :: 0 <= k < |items| ==> Known(items[..k], root, items[k].parent)
  }

  ghost predicate Known(items: seq<Item>, root: ObjectId, id: ObjectId) {
    id == root || exists j :: 0 <= j < |items| && items[j].status == Preserved(id)
  }

  lemma KnownGrows(items: seq<Item>, more: seq<Item>, root: ObjectId, id: ObjectId)
    requires Known(items, root, id) && items <= more
    ensures Known(more, root, id)
  {
    if id != root {
      var j :| 0 <= j < |items| && items[j].status == Preserved(id);
      assert more[j] == items[j];
    }
  }

  lemma KnownLast(items: seq<Item>, root: ObjectId, id: ObjectId)
    requires items != [] && items[|items| - 1].status == Preserved(id)
    ensures Known(items, root, id)
  {}

  lemma RootedSnoc(items: seq<Item>, root: ObjectId, item: Item)
    requires Rooted(items, root) && Known(items, root, item.parent)
    ensures Rooted(items + [item], root)
  {
    var all := items + [item];
    forall k | 0 <= k < |all|
      ensures Known(all[..k], root, all[k].parent)
    {
      assert all[..k] == if k < |items| then items[..k] else items;
    }
  }

  /** The status of the newest item may rise from Discovered without losing what is known. */
  lemma RootedUpdate(items: seq<Item>, root: ObjectId, status: Status)
    requires items != [] && Rooted(items, root)
    ensures Rooted(Marked(items, status), root)
  {
    var all := Marked(items, status);
    forall k | 0 <= k < |all|
      ensures Known(all[..k], root, all[k].parent)
    {
      assert all[..k] == items[..k];
    }
  }

  /** A container that was opened when `first` entries had been listed: its members, and for each what was
      extracted from it with the object that whatever is inside it belongs to. */
  datatype Container = Container(source: Bytes, name: string, parent: ObjectId, depth: nat, first: nat,
                                 members: seq<Found>, contents: seq<Option<(Bytes, ObjectId)>>)

  /** The entry of a member of a container, once it has been handled. */
  predicate Describes(item: Item, member: Found, content: Option<(Bytes, ObjectId)>, parent: ObjectId, depth: nat,
                      policy: Policy, w: World) {
    && item.path == member.path && item.depth == depth + 1 && item.parent == parent
    && if member.directory || policy == MetadataOnly then content == None && item.status == Discovered
       else content.Some?
            && if policy in {Preserve, Archival} then
                 content.value.1 == w.sha(content.value.0) && item.status == Preserved(content.value.1)
               else content.value.1 == parent && item.status == Status.Materialized
  }

  ghost predicate ListedAt(items: seq<Item>, at: seq<nat>, c: Container, policy: Policy, w: World) {
    && |at| == |c.members| == |c.contents|
    && (forall i, j :: 0 <= i < j < |at| ==> at[i] < at[j])
    && (forall i :: 0 <= i < |at| ==> 
          c.first <= at[i] < |items| && Describes(items[at[i]], c.members[i], c.contents[i], c.parent, c.depth, policy, w))
  }

  /** Every member of the container has an entry of its own, in the order of the container. */
  ghost predicate Listed(items: seq<Item>, c: Container, policy: Policy, w: World) {
    exists at :: ListedAt(items, at, c, policy, w)
  }

  /** The members are what an analyzer that matched the file answered. */
  ghost predicate Answered(w: World, source: Bytes, name: string, members: seq<Found>) {
    exists t, u :: Answers(w, source, name, members, t, u)
  }

  predicate Answers(w: World, source: Bytes, name: string, members: seq<Found>, t: nat, u: nat) {
    w.Matches(t, source, name)
    && var answer := w.matching(t, source, name).value.value.members(u, source); answer.Ok? && answer.value.0 == members
  }

  /** Every extracted member that is always recognised has been opened in its turn. */
  ghost predicate Descended(containers: seq<Container>, c: Container, w: World) {
    forall i :: 0 <= i < |c.contents| && i < |c.members| ==> MemberOpened(containers, c.members[i], c.contents[i], c.depth, w)
  }

  ghost predicate MemberOpened(containers: seq<Container>, member: Found, content: Option<(Bytes, ObjectId)>, depth: nat,
                               w: World) {
    content.Some? && (forall t :: w.Matches(t, content.value.0, member.path)) ==>
      exists j :: 0 <= j < |containers| && IsFile(containers[j], content.value.0, member.path, content.value.1, depth + 1)
  }

  predicate IsFile(c: Container, source: Bytes, name: string, parent: ObjectId, depth: nat) {
    c.source == source && c.name == name && c.parent == parent && c.depth == depth
  }

  lemma ListedGrows(items: seq<Item>, more: seq<Item>, c: Container, policy: Policy, w: World)
    requires Listed(items, c, policy, w) && items <= more
    ensures Listed(more, c, policy, w)
  {
    var at :| ListedAt(items, at, c, policy, w);
    assert ListedAt(more, at, c, policy, w);
  }

  lemma MemberOpenedGrows(containers: seq<Container>, more: seq<Container>, member: Found,
                          content: Option<(Bytes, ObjectId)>, depth: nat, w: World)
    requires MemberOpened(containers, member, content, depth, w) && containers <= more
    ensures MemberOpened(more, member, content, depth, w)
  {
    if content.Some? && (forall t :: w.Matches(t, content.value.0, member.path)) {
      var j :| 0 <= j < |containers| && IsFile(containers[j], content.value.0, member.path, content.value.1, depth + 1);
      assert more[j] == containers[j];
    }
  }

  /** Everything recorded about an opened container stays true while the lists grow. */
  ghost predicate Handled(items: seq<Item>, containers: seq<Container>, c: Container, policy: Policy, w: World, lim: Limits,
                          recursive: bool) {
    && Listed(items, c, policy, w) && Answered(w, c.source, c.name, c.members)
    && (recursive && c.depth < lim.maxDepth ==> Descended(containers, c, w))
  }

  lemma HandledGrows(items: seq<Item>, more: seq<Item>, containers: seq<Container>, wider: seq<Container>, c: Container,
                     policy: Policy, w: World, lim: Limits, recursive: bool)
    requires Handled(items, containers, c, policy, w, lim, recursive) && items <= more && containers <= wider
    ensures Handled(more, wider, c, policy, w, lim, recursive)
  {
    hide Answered, Listed, MemberOpened;
    ListedGrows(items, more, c, policy, w);
    if recursive && c.depth < lim.maxDepth {
      forall i | 0 <= i < |c.contents| && i < |c.members|
        ensures MemberOpened(wider, c.members[i], c.contents[i], c.depth, w)
      {
        MemberOpenedGrows(containers, wider, c.members[i], c.contents[i], c.depth, w);
      }
    }
  }

  ghost predicate AllHandled(items: seq<Item>, containers: seq<Container>, from: nat, policy: Policy, w: World, lim: Limits,
                             recursive: bool) {
    forall j :: from <= j < |containers| ==> Handled(items, containers, containers[j], policy, w, lim, recursive)
  }

  /** Containers that were handled before and after the lists grew. */
  lemma AllHandledGrows(items: seq<Item>, more: seq<Item>, containers: seq<Container>, wider: seq<Container>, from: nat,
                        policy: Policy, w: World, lim: Limits, recursive: bool)
    requires AllHandled(items, containers, from, policy, w, lim, recursive) && items <= more && containers <= wider
    requires AllHandled(more, wider, |containers|, policy, w, lim, recursive)
    ensures AllHandled(more, wider, from, policy, w, lim, recursive)
  {
    hide Handled;
    forall j | from <= j < |wider|
      ensures Handled(more, wider, wider[j], policy, w, lim, recursive)
    {
      if j < |containers| {
        HandledGrows(items, more, containers, wider, containers[j], policy, w, lim, recursive);
      }
    }
  }

  /** A container whose members are all listed and descended into is handled. */
  lemma AllHandledSnoc(items: seq<Item>, containers: seq<Container>, from: nat, c: Container, at: seq<nat>, policy: Policy,
                       w: World, lim: Limits, recursive: bool)
    requires AllHandled(items, containers, from, policy, w, lim, recursive) && from <= |containers|
    requires ListedAt(items, at, c, policy, w) && Answered(w, c.source, c.name, c.members)
    requires recursive && c.depth < lim.maxDepth ==> Descended(containers, c, w)
    ensures AllHandled(items, containers + [c], from, policy, w, lim, recursive)
  {
    hide Answered, ListedAt, Handled, Descended;
    var wider := containers + [c];
    assert Handled(items, containers, c, policy, w, lim, recursive) by {
      ListedIsHandled(items, containers, c, at, policy, w, lim, recursive);
    }
    forall j | from <= j < |wider|
      ensures Handled(items, wider, wider[j], policy, w, lim, recursive)
    {
      HandledGrows(items, items, containers, wider, wider[j], policy, w, lim, recursive);
    }
  }

  lemma ListedIsHandled(items: seq<Item>, containers: seq<Container>, c: Container, at: seq<nat>, policy: Policy, w: World,
                        lim: Limits, recursive: bool)
    requires ListedAt(items, at, c, policy, w) && Answered(w, c.source, c.name, c.members)
    requires recursive && c.depth < lim.maxDepth ==> Descended(containers, c, w)
    ensures Handled(items, containers, c, policy, w, lim, recursive)
  {
    hide Answered, Descended;
  }

  /** The container with one more member. */
  function WithMember(c: Container, member: Found, content: Option<(Bytes, ObjectId)>): Container {
    c.(members := c.members + [member], contents := c.contents + [content])
  }

  lemma DescendedSnoc(containers: seq<Container>, wider: seq<Container>, c: Container, member: Found,
                      content: Option<(Bytes, ObjectId)>, w: World)
    requires |c.members| == |c.contents| && Descended(containers, c, w) && containers <= wider
    requires MemberOpened(wider, member, content, c.depth, w)
    ensures Descended(wider, WithMember(c, member, content), w)
  {
    hide MemberOpened;
    var d := WithMember(c, member, content);
    forall i | 0 <= i < |d.contents| && i < |d.members|
      ensures MemberOpened(wider, d.members[i], d.contents[i], d.depth, w)
    {
      if i < |c.members| {
        MemberOpenedGrows(containers, wider, c.members[i], c.contents[i], c.depth, w);
      }
    }
  }

  /** One more member of a container has been listed. */
  lemma ListedSnoc(items: seq<Item>, more: seq<Item>, at: seq<nat>, c: Container, member: Found,
                   content: Option<(Bytes, ObjectId)>, policy: Policy, w: World)
    requires ListedAt(items, at, c, policy, w) && |items| < |more| && items == more[..|items|]
    requires c.first <= |items| && Describes(more[|items|], member, content, c.parent, c.depth, policy, w)
    ensures ListedAt(more, at + [|items|], WithMember(c, member, content), policy, w)
  {
    var d, longer := WithMember(c, member, content), at + [|items|];
    forall i | 0 <= i < |longer|
      ensures longer[i] < |more| && Describes(more[longer[i]], d.members[i], d.contents[i], d.parent, d.depth, policy, w)
    {
      if i < |at| {
        assert more[at[i]] == items[at[i]];
      }
    }
  }

  /** One more member of a container has been handled: listed, and opened if it had to be. */
  lemma MemberHandled(items: seq<Item>, more: seq<Item>, containers: seq<Container>, wider: seq<Container>, from: nat,
                      c: Container, at: seq<nat>, member: Found, content: Option<(Bytes, ObjectId)>, policy: Policy,
                      w: World, lim: Limits, recursive: bool)
    requires AllHandled(items, containers, from, policy, w, lim, recursive) && items <= more && containers <= wider
    requires AllHandled(more, wider, |containers|, policy, w, lim, recursive)
    requires ListedAt(items, at, c, policy, w) && c.first <= |items| < |more|
    requires |c.members| == |c.contents| && Describes(more[|items|], member, content, c.parent, c.depth, policy, w)
    requires recursive && c.depth < lim.maxDepth ==>
      Descended(containers, c, w) && MemberOpened(wider, member, content, c.depth, w)
    ensures AllHandled(more, wider, from, policy, w, lim, recursive)
    ensures ListedAt(more, at + [|items|], WithMember(c, member, content), policy, w)
    ensures recursive && c.depth < lim.maxDepth ==> Descended(wider, WithMember(c, member, content), w)
  {
    hide AllHandled, ListedAt, Describes, Descended, MemberOpened;
    AllHandledGrows(items, more, containers, wider, from, policy, w, lim, recursive);
    ListedSnoc(items, more, at, c, member, content, policy, w);
    if recursive && c.depth < lim.maxDepth {
      DescendedSnoc(containers, wider, c, member, content, w);
    }
  }

  lemma MemberDescribed(item: Item, member: Found, content: Option<(Bytes, ObjectId)>, parent: ObjectId, depth: nat,
                        policy: Policy, w: World)
    requires item.path == member.path && item.depth == depth + 1 && item.parent == parent
    requires content == None <==> member.directory || policy == MetadataOnly
    requires content == None ==> item.status == Discovered
    requires content.Some? ==>
      if policy in {Preserve, Archival} then content.value.1 == w.sha(content.value.0) && item.status == Preserved(content.value.1)
      else content.value.1 == parent && item.status == Status.Materialized
    ensures Describes(item, member, content, parent, depth, policy, w)
  {}

  lemma SometimesUnmatched(w: World, t: nat, b: Bytes, name: string)
    requires !w.Matches(t, b, name)
    ensures !forall u :: w.Matches(u, b, name)
  {}

  lemma LastIsOpened(containers: seq<Container>, member: Found, content: Option<(Bytes, ObjectId)>, depth: nat, w: World)
    requires content.Some? && (forall t :: w.Matches(t, content.value.0, member.path)) ==>
      containers != [] && IsFile(containers[|containers| - 1], content.value.0, member.path, content.value.1, depth + 1)
    ensures MemberOpened(containers, member, content, depth, w)
  {}

  lemma NothingListed(items: seq<Item>, containers: seq<Container>, c: Container, policy: Policy, w: World)
    requires c.members == [] && c.contents == []
    ensures ListedAt(items, [], c, policy, w) && Descended(containers, c, w)
  {}

  lemma NothingNew(items: seq<Item>, containers: seq<Container>, policy: Policy, w: World, lim: Limits, recursive: bool)
    ensures AllHandled(items, containers, |containers|, policy, w, lim, recursive)
  {}

  lemma SizeIsKept(a: Analyzer, lim: Limits, now: nat, path: Bytes, member: Found)
    requires a.KeepsSize(lim) && member.SizePasses(lim)
    ensures |a.extract(now, path, member).written| <= lim.maxSingleBytes
  {}

  /** What an analyzer that matches answers, and that it keeps the size limit if all do. */
  lemma IsAnswered(w: World, lim: Limits, path: Bytes, name: string, now: nat, later: nat)
    requires w.Matches(now, path, name)
    ensures w.Bounded(lim) ==> w.matching(now, path, name).value.value.KeepsSize(lim)
    ensures var answer := w.matching(now, path, name).value.value.members(later, path);
      answer.Ok? ==> Answered(w, path, name, answer.value.0)
  {
    hide Analyzer.KeepsSize;
    var answer := w.matching(now, path, name).value.value.members(later, path);
    assert answer.Ok? ==> Answers(w, path, name, answer.value.0, now, later);
  }

  /** A nested visit that found nothing to recognise, `listed` entries having been listed before it. */
  datatype Flicker = Flicker(tick: nat, source: Bytes, name: string, listed: nat)

  /** One of them happened while the list was full. */
  ghost predicate WhileFull(flickers: seq<Flicker>, lim: Limits) {
    exists k :: 0 <= k < |flickers| && flickers[k].listed == lim.maxFiles
  }

  /** The probe of the visit answered differently from the one two questions before, which had led to it. */
  predicate Flickers(w: World, f: Flicker) {
    2 <= f.tick && w.Matches(f.tick - 2, f.source, f.name) && w.matching(f.tick, f.source, f.name) == Ok(None)
  }

  /** The extraction passes every check, and the store and the identity catalogue take the file if they are asked to. */
  ghost predicate Passes(s: Setup, v: Vars, a: Analyzer, path: Bytes, member: Found, parent: ObjectId, depth: nat) {
    var x := a.extract(v.tick, path, member);
    && (member.size.Some? ==> |x.written| == member.size.value <= s.lim.maxSingleBytes)
    && x.failure == None && |x.written| <= Max(|path|, 1) * s.lim.maxRatio
    && !s.world.late(v.tick + 1) && v.expanded + |x.written| <= s.lim.maxBytes
    && (s.policy == Preserve || s.policy == Archival ==>
          && !s.world.refuses(v.tick + 2) && s.world.sha(x.written) != parent
          && Relation(parent, s.world.sha(x.written), a.name, member.path, member.raw, depth) !in v.relations)
  }

  /** The mutable state of one analysis: the `job` lists and the counters that `visit` shares. */
  class Analysis {
    const world: World
    const lim: Limits
    const policy: Policy
    const recursive: bool
    const rootId: ObjectId
    const rootSize: nat
    var tick: nat                  // how many questions the world has been asked
    var discovered: seq<Item>
    var nested: nat
    var expanded: nat
    var files: seq<Bytes>          // member-000000.bin and so on, as accepted into the workspace
    var scratch: Bytes             // the file under the next number, while it is not accepted
    var relations: set<Relation>
    var warnings: nat
    var tooDeep: bool              // the max_depth exception has been raised
    ghost var peak: nat            // largest workspace use so far
    ghost var flickers: seq<Flicker>   // nested visits whose second probe no longer matched
    ghost var containers: seq<Container>   // containers whose members have all been handled

    constructor (world: World, lim: Limits, policy: Policy, recursive: bool, rootId: ObjectId, root: Bytes,
                 relations: set<Relation>)
      requires lim.Valid()
      ensures Valid() && this.world == world && this.lim == lim && this.rootId == rootId
      ensures this.policy == policy && this.recursive == recursive && rootSize == |root|
      ensures Now() == Initial(relations) && flickers == [] && containers == []
    {
      this.world, this.lim, this.policy, this.recursive := world, lim, policy, recursive;
      this.rootId, rootSize := rootId, |root|;
      tick, discovered, nested, expanded, files, scratch := 0, [], 0, 0, [], [];
      this.relations, warnings, tooDeep := relations, 0, false;
      peak, flickers, containers := |root|, [], [];
    }

    function Setting(): Setup { Setup(world, lim, policy, recursive) }

    function Now(): Vars
      reads this
    { Vars(tick, discovered, nested, expanded, files, scratch, relations, warnings, tooDeep) }

    function Used(): nat
      reads this`files, this`scratch
    { rootSize + Total(files) + |scratch| }

    /** Every budget of the analysis, at once. */
    ghost predicate Valid()
      reads this`discovered, this`flickers, this`nested, this`expanded, this`files, this`scratch, this`peak
    { nested <= lim.maxNested + 1 && Sound() }

    /** The budgets of the lists and the workspace. */
    ghost predicate Sound()
      reads this`discovered, this`flickers, this`expanded, this`files, this`scratch, this`peak
    {
      && lim.Valid()
      && |discovered| <= lim.maxFiles + 1
      && (|discovered| > lim.maxFiles <==> WhileFull(flickers, lim))
      && (forall k :: 0 <= k < |flickers| ==> Flickers(world, flickers[k]))
      && (forall k :: 0 <= k < |discovered| ==> discovered[k].depth <= lim.maxDepth + 1)
      && Rooted(discovered, rootId)
      && expanded == Total(files) <= lim.maxBytes
      && |files| <= |discovered|
      && (policy == MetadataOnly ==> files == [])
      && Used() <= peak && (world.Bounded(lim) ==> peak <= rootSize + lim.maxBytes + lim.maxSingleBytes)
    }

    /** Every container opened from the given one on has been handled. */
    ghost predicate HandledSince(from: nat)
      reads this`discovered, this`containers
    { AllHandled(discovered, containers, from, policy, world, lim, recursive) }

    lemma NoneSince()
      ensures HandledSince(|containers|)
    {}

    /** What the invariant says of a finished analysis. */
    lemma Budgets()
      requires Valid()
      ensures |discovered| <= lim.maxFiles + 1
      ensures |discovered| > lim.maxFiles <==> WhileFull(flickers, lim)
      ensures forall k :: 0 <= k < |flickers| ==> Flickers(world, flickers[k])
      ensures world.Steady() ==> flickers == []
      ensures forall k :: 0 <= k < |discovered| ==> discovered[k].depth <= lim.maxDepth + 1
      ensures Rooted(discovered, rootId)
      ensures expanded == Total(files) <= lim.maxBytes && (policy == MetadataOnly ==> files == [])
      ensures world.Bounded(lim) ==> peak <= rootSize + lim.maxBytes + lim.maxSingleBytes
    {
      hide Rooted, Total, World.Bounded;
      if world.Steady() && flickers != [] {
        SteadyNeverFlickers(world, flickers[0]);
      }
    }

    method Ask() returns (now: nat)
      modifies this`tick
      ensures now == old(tick) && Now() == old(Now()).(tick := now + 1)
      ensures old(Valid()) ==> Valid()
    {
      now := tick;
      tick := tick + 1;
    }

    /** Puts the bytes of a member under the next number. */
    method Place(bytes: Bytes)
      requires Valid() && (world.Bounded(lim) ==> |bytes| <= lim.maxSingleBytes)
      modifies this`scratch, this`peak
      ensures Valid() && scratch == bytes && old(peak) <= peak
    {
      scratch := bytes;
      peak := Max(peak, Used());
    }

    method Discard()
      requires Valid()
      modifies this`scratch
      ensures Valid() && scratch == []
    {
      scratch := [];
    }

    /** Accepts the file under the next number into the workspace. */
    method Accept()
      requires Valid() && expanded + |scratch| <= lim.maxBytes && |files| < |discovered| && policy != MetadataOnly
      modifies this`files, this`scratch, this`expanded
      ensures Valid() && files == old(files) + [old(scratch)] && scratch == [] && expanded == old(expanded) + |old(scratch)|
    {
      ghost var before := files;
      files, expanded, scratch := files + [scratch], expanded + |scratch|, [];
      assert files[..|files| - 1] == before;
    }

    /** The checks of an extracted file, in the order of the source. */
    method Check(path: Bytes, member: Found) returns (r: Result<Bytes, Failure>)
      requires Valid() && |files| < |discovered| && policy != MetadataOnly
      modifies this`tick, this`files, this`scratch, this`expanded
      ensures Valid() && (Now(), r) == Checked(Setting(), old(Now()), path, member)
    {
      hide Valid, Max;
      var actual := |scratch|;
      if member.size.Some? && actual != member.size.value {
        return Err(MalformedInput);
      }
      if Max(|path|, 1) * lim.maxRatio < actual {
        Discard();
        return Err(LimitReached(MaxRatio));
      }
      var now := Ask();
      if world.late(now) {
        Discard();
        return Err(Timeout);
      }
      if lim.maxBytes < expanded + actual {
        Discard();
        return Err(LimitReached(MaxBytes));
      }
      var bytes := scratch;
      Accept();
      return Ok(bytes);
    }

    /** Extracts one listed member. */
    method Materialize(a: Analyzer, path: Bytes, member: Found) returns (r: Result<Bytes, Failure>)
      requires Valid() && |files| < |discovered| && policy != MetadataOnly
      requires world.Bounded(lim) ==> a.KeepsSize(lim)
      modifies this`tick, this`files, this`scratch, this`expanded, this`peak
      ensures Valid() && old(peak) <= peak && (Now(), r) == Extracted(Setting(), old(Now()), a, path, member)
      // accepted exactly when every check passes
      ensures var x := a.extract(old(tick), path, member);
        r.Ok? <==>
          && (member.size.Some? ==> |x.written| == member.size.value <= lim.maxSingleBytes)
          && x.failure == None && |x.written| <= Max(|path|, 1) * lim.maxRatio
          && !world.late(old(tick) + 1) && old(expanded) + |x.written| <= lim.maxBytes
      ensures r.Ok? ==> r.value == a.extract(old(tick), path, member).written && files == old(files) + [r.value]
      ensures r.Err? ==> files == old(files) && expanded == old(expanded)
    {
      hide Valid, Max, Analyzer.KeepsSize;
      if !member.SizePasses(lim) {
        return Err(LimitReached(MaxSingleBytes));
      }
      var now := Ask();
      var extraction := a.extract(now, path, member);
      if world.Bounded(lim) {
        SizeIsKept(a, lim, now, path, member);
      }
      Place(extraction.written);
      if extraction.failure.Some? {
        return Err(extraction.failure.value);
      }
      r := Check(path, member);
    }

    /** Ingests an extracted member and relates it to its container. */
    method Keep(a: Analyzer, bytes: Bytes, member: Found, parent: ObjectId, depth: nat) returns (r: Result<ObjectId, Failure>)
      requires Valid() && discovered != []
      modifies this`tick, this`discovered, this`relations
      ensures Valid() && |discovered| == old(|discovered|)
      ensures (Now(), r) == VisitRun.Kept(Setting(), old(Now()), a, bytes, member, parent, depth)
      ensures discovered[..|discovered| - 1] == old(discovered[..|discovered| - 1])
      ensures discovered[|discovered| - 1] == old(discovered[|discovered| - 1]).(status := discovered[|discovered| - 1].status)
      ensures r.Ok? ==> r.value == world.sha(bytes) && r.value != parent
      ensures r.Ok? ==> discovered[|discovered| - 1] == old(discovered[|discovered| - 1]).(status := Preserved(r.value))
      ensures r.Ok? <==>
        !world.refuses(old(tick)) && world.sha(bytes) != parent
        && Contains(a, member, parent, world.sha(bytes), depth) !in old(relations)
      ensures r.Ok? ==> relations == old(relations) + {Contains(a, member, parent, r.value, depth)}
      ensures r.Err? ==> relations == old(relations)
    {
      hide Known, Rooted, Total, Max, Valid;
      var now := Ask();
      if world.refuses(now) {
        return Err(Unexpected);
      }
      var id := world.sha(bytes);
      Mark(Preserved(id));
      var relation := Contains(a, member, parent, id, depth);
      if parent == id || relation in relations {
        // a self relationship, or one recorded before under another time
        return Err(PolicyError);
      }
      relations := relations + {relation};
      return Ok(id);
    }

    /** Adds one entry to the `discovered` list. */
    method List(item: Item)
      requires Valid() && |discovered| < lim.maxFiles && item.depth <= lim.maxDepth + 1
      requires Known(discovered, rootId, item.parent)
      modifies this`discovered
      ensures Valid() && discovered == old(discovered) + [item] && Known(discovered, rootId, item.parent)
      ensures |files| < |discovered| <= lim.maxFiles
    {
      RootedSnoc(discovered, rootId, item);
      ghost var earlier := discovered;
      discovered := discovered + [item];
      KnownGrows(earlier, discovered, rootId, item.parent);
    }

    /** Lists a file that no analyzer recognises, without consulting a limit. Below the root this happens only
        when a probe that matched a moment ago no longer does; the list may then exceed its limit, by one. */
    method ListUnrecognised(path: Bytes, name: string, parent: ObjectId, depth: nat, ghost now: nat)
      requires Valid() && depth <= lim.maxDepth && Known(discovered, rootId, parent) && |discovered| <= lim.maxFiles
      requires if depth == 0 then discovered == [] else Flickers(world, Flicker(now, path, name, |discovered|))
      modifies this`discovered, this`flickers
      ensures Valid() && discovered == old(discovered) + [Item(name, depth, parent, Unrecognised)]
      ensures flickers == old(flickers) + if depth == 0 then [] else [Flicker(now, path, name, old(|discovered|))]
    {
      var item := Item(name, depth, parent, Unrecognised);
      RootedSnoc(discovered, rootId, item);
      ghost var earlier := flickers;
      if 0 < depth {
        flickers := flickers + [Flicker(now, path, name, |discovered|)];
        assert flickers[|earlier|].listed == |discovered|;
        assert forall k :: 0 <= k < |earlier| ==> flickers[k] == earlier[k];
      }
      discovered := discovered + [item];
    }

    method Mark(status: Status)
      requires Valid() && discovered != []
      modifies this`discovered
      ensures Valid() && |discovered| == old(|discovered|)
      ensures discovered[..|discovered| - 1] == old(discovered[..|discovered| - 1])
      ensures discovered == Marked(old(discovered), status)
      ensures discovered[|discovered| - 1] == old(discovered[|discovered| - 1]).(status := status)
    {
      RootedUpdate(discovered, rootId, status);
      discovered := Marked(discovered, status);
    }

    /** One member after it has been listed: extraction and, when the policy preserves, ingest.
        Returns the bytes and the object that nested members will be contained in. */
    method Take(a: Analyzer, path: Bytes, member: Found, parent: ObjectId, depth: nat)
      returns (r: Result<(Bytes, ObjectId), Failure>)
      requires Valid() && |files| < |discovered| && policy != MetadataOnly
      requires world.Bounded(lim) ==> a.KeepsSize(lim)
      requires Known(discovered[..|discovered| - 1], rootId, parent)
      modifies this`tick, this`files, this`scratch, this`expanded, this`peak, this`discovered, this`relations
      ensures Valid() && old(peak) <= peak && old(files) <= files && old(relations) <= relations
      ensures (Now(), r) == Taken(Setting(), old(Now()), a, path, member, parent, depth)
      ensures r.Ok? <==> Passes(Setting(), old(Now()), a, path, member, parent, depth)
      ensures r.Ok? ==> r.value.0 == a.extract(old(tick), path, member).written
      ensures |discovered| == old(|discovered|)
      ensures discovered[..|discovered| - 1] == old(discovered[..|discovered| - 1])
      ensures discovered[|discovered| - 1] == old(discovered[|discovered| - 1]).(status := discovered[|discovered| - 1].status)
      ensures r.Ok? ==> Known(discovered, rootId, parent) && Known(discovered, rootId, r.value.1)
      ensures r.Ok? ==> files == old(files) + [r.value.0]
      ensures r.Ok? ==>
        discovered[|discovered| - 1] == old(discovered[|discovered| - 1])
          .(status := if policy in {Preserve, Archival} then Preserved(r.value.1) else Status.Materialized)
      ensures r.Ok? && policy in {Preserve, Archival} ==>
                r.value.1 == world.sha(r.value.0) != parent
                && Contains(a, member, parent, r.value.1, depth) in relations
      ensures r.Ok? && policy !in {Preserve, Archival} ==> r.value.1 == parent
    {
      hide Known, Max, Valid, Extracted, Settled, Contains, Passes, World.Bounded, Analyzer.KeepsSize;
      TakenIff(Setting(), Now(), a, path, member, parent, depth);
      var extracted := Materialize(a, path, member);
      if extracted.Err? {
        return Err(extracted.error);
      }
      r := Settle(a, extracted.value, member, parent, depth);
    }

    /** The part of it behind the extraction. */
    method Settle(a: Analyzer, bytes: Bytes, member: Found, parent: ObjectId, depth: nat)
      returns (r: Result<(Bytes, ObjectId), Failure>)
      requires Valid() && discovered != [] && Known(discovered[..|discovered| - 1], rootId, parent)
      modifies this`tick, this`discovered, this`relations
      ensures Valid() && old(relations) <= relations
      ensures (Now(), r) == Settled(Setting(), old(Now()), a, bytes, member, parent, depth)
      ensures r.Ok? <==> policy in {Preserve, Archival} ==>
        && !world.refuses(old(tick)) && world.sha(bytes) != parent
        && Contains(a, member, parent, world.sha(bytes), depth) !in old(relations)
      ensures |discovered| == old(|discovered|)
      ensures discovered[..|discovered| - 1] == old(discovered[..|discovered| - 1])
      ensures discovered[|discovered| - 1] == old(discovered[|discovered| - 1]).(status := discovered[|discovered| - 1].status)
      ensures r.Ok? ==> r.value.0 == bytes && Known(discovered, rootId, parent) && Known(discovered, rootId, r.value.1)
      ensures r.Ok? ==>
        discovered[|discovered| - 1] == old(discovered[|discovered| - 1])
          .(status := if policy in {Preserve, Archival} then Preserved(r.value.1) else Status.Materialized)
      ensures r.Ok? ==>
        if policy in {Preserve, Archival} then
          r.value.1 == world.sha(bytes) != parent && Contains(a, member, parent, r.value.1, depth) in relations
        else r.value.1 == parent
    {
      hide Known, Valid, VisitRun.Kept, Marked, Contains;
      Mark(Status.Materialized);
      if policy != Preserve && policy != Archival {
        KnownGrows(discovered[..|discovered| - 1], discovered, rootId, parent);
        return Ok((bytes, parent));
      }
      var kept := Keep(a, bytes, member, parent, depth);
      if kept.Err? {
        return Err(kept.error);
      }
      KnownLast(discovered, rootId, kept.value);
      KnownGrows(discovered[..|discovered| - 1], discovered, rootId, parent);
      return Ok((bytes, kept.value));
    }

    /** The limits that `visit` checks before it looks at a file. */
    method Enter(depth: nat) returns (refusal: Option<Failure>)
      requires Valid() && nested <= lim.maxNested
      modifies this`nested, this`tooDeep, this`tick
      ensures Valid() && (Now(), refusal) == Entered(Setting(), old(Now()), depth)
      ensures refusal == None ==> depth <= lim.maxDepth && nested == old(nested) + (if depth == 0 then 0 else 1) <= lim.maxNested
      ensures refusal == None <==>
        depth <= lim.maxDepth && (depth == 0 || old(nested) < lim.maxNested) && !world.late(old(tick))
      ensures refusal == None ==> tick == old(tick) + 1
      ensures refusal != None ==> refusal.value in {LimitReached(MaxDepth), LimitReached(MaxNested), Timeout}
      ensures depth <= lim.maxDepth ==> tooDeep == old(tooDeep)
    {
      hide Sound;
      if lim.maxDepth < depth {
        tooDeep := true;
        return Some(LimitReached(MaxDepth));
      }
      if 0 < depth {
        nested := nested + 1;
        if lim.maxNested < nested {
          return Some(LimitReached(MaxNested));
        }
      }
      var now := Ask();
      return if world.late(now) then Some(Timeout) else None;
    }

    /** Lists the members of a file that an analyzer recognises. */
    method Inspect(a: Analyzer, path: Bytes) returns (r: Result<seq<Found>, Failure>)
      requires Valid()
      modifies this`tick, this`warnings
      ensures Valid() && (Now(), r) == Inspected(Setting(), old(Now()), a, path)
      ensures r.Ok? <==> a.available && a.members(old(tick), path).Ok? && !world.late(old(tick) + 1)
      ensures r.Ok? ==>
        r.value == a.members(old(tick), path).value.0 && warnings == old(warnings) + a.members(old(tick), path).value.1
      ensures !a.available ==> r == Err(ToolMissing)
    {
      hide Valid;
      if !a.available {
        return Err(ToolMissing);
      }
      var now := Ask();
      var members := a.members(now, path);
      if members.Err? {
        return Err(members.error);
      }
      now := Ask();
      if world.late(now) {
        return Err(Timeout);
      }
      warnings := warnings + members.value.1;
      return Ok(members.value.0);
    }

    /** The nested `visit`: inspects one file and, below the depth limit, everything it contains.
        It terminates for any world, keeps every budget, and started at a permitted depth it never
        raises the max_depth exception. When it ends normally, every container it opened is handled:
        each member is listed under it, and each recognised one above the depth limit was opened too. */
    method Visit(path: Bytes, parent: ObjectId, name: string, depth: nat) returns (r: Result<bool, Failure>)
      requires Valid() && Known(discovered, rootId, parent) && nested <= lim.maxNested && |discovered| <= lim.maxFiles
      requires if depth == 0 then discovered == [] else 1 <= tick && world.Matches(tick - 1, path, name)
      modifies this
      ensures (Now(), r) == Visited(Setting(), old(Now()), path, parent, name, depth)
      ensures Valid() && old(discovered) <= discovered
      ensures r.Ok? ==> nested <= lim.maxNested
      ensures depth <= lim.maxDepth && !old(tooDeep) ==> !tooDeep
      ensures old(containers) <= containers && (r.Ok? ==> HandledSince(old(|containers|)))
      ensures r.Ok? && r.value ==>
        old(|containers|) < |containers| && IsFile(containers[|containers| - 1], path, name, parent, depth)
      ensures r.Ok? && !r.value ==> exists t :: world.matching(t, path, name) == Ok(None)
      decreases if depth <= lim.maxDepth then lim.maxDepth + 1 - depth else 0, 4
    {
      hide Known, HandledSince, Valid, Entered, Probed, IsFile;
      var refusal := Enter(depth);
      if refusal.Some? {
        return Err(refusal.value);
      }
      r := Probe(path, parent, name, depth);
    }

    /** The part of `visit` behind its first checks. */
    method Probe(path: Bytes, parent: ObjectId, name: string, depth: nat) returns (r: Result<bool, Failure>)
      requires Valid() && Known(discovered, rootId, parent) && nested <= lim.maxNested && |discovered| <= lim.maxFiles
      requires depth <= lim.maxDepth
      requires if depth == 0 then discovered == [] else 2 <= tick && world.Matches(tick - 2, path, name)
      modifies this
      ensures (Now(), r) == Probed(Setting(), old(Now()), path, parent, name, depth)
      ensures Valid() && old(discovered) <= discovered
      ensures r.Ok? ==> nested <= lim.maxNested
      ensures !old(tooDeep) ==> !tooDeep
      ensures old(containers) <= containers && (r.Ok? ==> HandledSince(old(|containers|)))
      ensures r.Ok? && r.value ==>
        old(|containers|) < |containers| && IsFile(containers[|containers| - 1], path, name, parent, depth)
      ensures r.Ok? && !r.value ==> exists t :: world.matching(t, path, name) == Ok(None)
      decreases lim.maxDepth + 1 - depth, 3
    {
      hide Known, HandledSince, Valid, Answered, Inspected, MembersVisited, IsFile, World.Bounded, Analyzer.KeepsSize;
      var now := Ask();
      var matched := world.matching(now, path, name);
      if matched.Err? {
        return Err(matched.error);
      }
      if matched.value.None? {
        ListUnrecognised(path, name, parent, depth, now);
        NoneSince();
        return Ok(false);
      }
      var members := Inspect(matched.value.value, path);
      if members.Err? {
        return Err(members.error);
      }
      IsAnswered(world, lim, path, name, now, now + 1);
      r := Members(matched.value.value, path, name, members.value, parent, depth);
    }

    /** Lists a member and, unless it is a directory or only its metadata is wanted, takes it. */
    method Admit(a: Analyzer, path: Bytes, member: Found, parent: ObjectId, depth: nat)
      returns (r: Result<Option<(Bytes, ObjectId)>, Failure>)
      requires Valid() && depth <= lim.maxDepth && (world.Bounded(lim) ==> a.KeepsSize(lim))
      requires Known(discovered, rootId, parent)
      modifies this`tick, this`files, this`scratch, this`expanded, this`peak, this`discovered, this`relations
      ensures (Now(), r) == Admitted(Setting(), old(Now()), a, path, member, parent, depth)
      // listed exactly while there is room, and admitted exactly when it is listed and passes
      ensures lim.maxFiles <= old(|discovered|) ==> r == Err(LimitReached(MaxFiles)) && Now() == old(Now())
      ensures old(|discovered|) < lim.maxFiles ==>
        |discovered| == old(|discovered|) + 1 && discovered[old(|discovered|)].path == member.path
      ensures r.Ok? <==>
        && old(|discovered|) < lim.maxFiles
        && (member.directory || policy == MetadataOnly || Passes(Setting(), old(Now()), a, path, member, parent, depth + 1))
      ensures Valid() && old(discovered) <= discovered && Known(discovered, rootId, parent)
      ensures r.Ok? ==>
        && old(|discovered|) < |discovered| <= lim.maxFiles
        && Describes(discovered[old(|discovered|)], member, r.value, parent, depth, policy, world)
        && (r.value.Some? ==> Known(discovered, rootId, r.value.value.1))
    {
      hide Rooted, Known, Total, Valid, Describes, Max, Taken, Passes, World.Bounded, Analyzer.KeepsSize;
      if lim.maxFiles <= |discovered| {
        return Err(LimitReached(MaxFiles));
      }
      ghost var earlier := discovered;
      List(Item(member.path, depth + 1, parent, Discovered));
      KnownGrows(earlier, discovered, rootId, parent);
      if member.directory || policy == MetadataOnly {
        MemberDescribed(discovered[|earlier|], member, None, parent, depth, policy, world);
        return Ok(None);
      }
      PassesIgnores(Setting(), old(Now()), discovered, a, path, member, parent, depth + 1);
      var taken := Take(a, path, member, parent, depth + 1);
      assert discovered[..|discovered| - 1] == earlier;
      KnownGrows(earlier, discovered, rootId, parent);
      if taken.Err? {
        return Err(taken.error);
      }
      MemberDescribed(discovered[|earlier|], member, Some(taken.value), parent, depth, policy, world);
      return Ok(Some(taken.value));
    }

    /** One round of the loop of `visit`: lists the member, extracts it, and visits what is in it. */
    method Member(a: Analyzer, path: Bytes, member: Found, parent: ObjectId, depth: nat)
      returns (r: Result<(), Failure>, ghost content: Option<(Bytes, ObjectId)>)
      requires Valid() && depth <= lim.maxDepth && (world.Bounded(lim) ==> a.KeepsSize(lim))
      requires Known(discovered, rootId, parent) && nested <= lim.maxNested
      modifies this
      ensures (Now(), r) == MemberVisited(Setting(), old(Now()), a, path, member, parent, depth)
      ensures Valid() && old(discovered) <= discovered && Known(discovered, rootId, parent)
      ensures r.Ok? ==> nested <= lim.maxNested
      ensures !old(tooDeep) ==> !tooDeep
      ensures old(containers) <= containers && (r.Ok? ==> HandledSince(old(|containers|)))
      ensures r.Ok? ==>
        old(|discovered|) < |discovered| && Describes(discovered[old(|discovered|)], member, content, parent, depth, policy, world)
      ensures r.Ok? && recursive && depth < lim.maxDepth ==> MemberOpened(containers, member, content, depth, world)
      decreases lim.maxDepth + 1 - depth, 1
    {
      hide Known, HandledSince, MemberOpened, Valid, Describes, Admitted, Opened, World.Bounded, Analyzer.KeepsSize;
      content := None;
      var admitted := Admit(a, path, member, parent, depth);
      if admitted.Err? {
        return Err(admitted.error), content;
      }
      content := admitted.value;
      if admitted.value.Some? {
        ghost var before := discovered;
        r := Open(admitted.value.value.0, admitted.value.value.1, member, depth);
        KnownGrows(before, discovered, rootId, parent);
      } else {
        NothingOpened(member, depth);
        r := Ok(());
      }
    }

    lemma NothingOpened(member: Found, depth: nat)
      ensures HandledSince(|containers|) && MemberOpened(containers, member, None, depth, world)
    {}

    /** Visits what was extracted from a member, if an analyzer matches it. */
    method Open(bytes: Bytes, child: ObjectId, member: Found, depth: nat) returns (r: Result<(), Failure>)
      requires Valid() && depth <= lim.maxDepth && nested <= lim.maxNested && |discovered| <= lim.maxFiles
      requires Known(discovered, rootId, child)
      modifies this
      ensures (Now(), r) == Opened(Setting(), old(Now()), bytes, child, member.path, depth)
      ensures Valid() && old(discovered) <= discovered
      ensures r.Ok? ==> nested <= lim.maxNested
      ensures !old(tooDeep) ==> !tooDeep
      ensures old(containers) <= containers && (r.Ok? ==> HandledSince(old(|containers|)))
      ensures r.Ok? && recursive && depth < lim.maxDepth ==>
        MemberOpened(containers, member, Some((bytes, child)), depth, world)
      decreases lim.maxDepth + 1 - depth, 0
    {
      hide Known, HandledSince, MemberOpened, IsFile, Valid, Visited;
      NothingOpened(member, depth);
      if !recursive || depth == lim.maxDepth {
        return Ok(());
      }
      var now := Ask();
      var matched := world.matching(now, bytes, member.path);
      if matched.Err? {
        return Err(matched.error);
      }
      if matched.value.None? {
        SometimesUnmatched(world, now, bytes, member.path);
      } else {
        var below := Visit(bytes, child, member.path, depth + 1);
        if below.Err? {
          return Err(below.error);
        }
        if !below.value {
          ghost var t :| world.matching(t, bytes, member.path) == Ok(None);
          SometimesUnmatched(world, t, bytes, member.path);
        }
      }
      LastIsOpened(containers, member, Some((bytes, child)), depth, world);
      return Ok(());
    }

    /** The loop of `visit` over the members of one container. */
    method Members(a: Analyzer, path: Bytes, ghost name: string, members: seq<Found>, parent: ObjectId, depth: nat)
      returns (r: Result<bool, Failure>)
      requires Answered(world, path, name, members)
      requires Valid() && depth <= lim.maxDepth && (world.Bounded(lim) ==> a.KeepsSize(lim))
      requires Known(discovered, rootId, parent) && nested <= lim.maxNested
      modifies this
      ensures (Now(), r) == MembersVisited(Setting(), old(Now()), a, path, members, parent, depth)
      ensures Valid() && old(discovered) <= discovered
      ensures r.Ok? ==> nested <= lim.maxNested
      ensures !old(tooDeep) ==> !tooDeep
      ensures r.Ok? ==> r.value
      ensures old(containers) <= containers && (r.Ok? ==> HandledSince(old(|containers|)))
      ensures r.Ok? ==> old(|containers|) < |containers| && IsFile(containers[|containers| - 1], path, name, parent, depth)
      decreases lim.maxDepth + 1 - depth, 2
    {
      hide Rooted, Known, Total, AllHandled, ListedAt, Answered, Descended, MemberOpened, Describes, Valid, MembersVisited,
           MemberVisited, World.Bounded, Analyzer.KeepsSize;
      ghost var whole := MembersVisited(Setting(), Now(), a, path, members, parent, depth);
      ghost var c, at: seq<nat> := Container(path, name, parent, depth, |discovered|, [], []), [];
      NothingListed(discovered, containers, c, policy, world);
      NothingNew(discovered, containers, policy, world, lim, recursive);
      assert members[0..] == members;
      for i := 0 to |members|
        invariant whole == MembersVisited(Setting(), Now(), a, path, members[i..], parent, depth)
        invariant Valid() && old(discovered) <= discovered
        invariant Known(discovered, rootId, parent) && nested <= lim.maxNested
        invariant !old(tooDeep) ==> !tooDeep
        invariant old(containers) <= containers && HandledSince(old(|containers|))
        invariant c == Container(path, name, parent, depth, old(|discovered|), members[..i], c.contents) && |c.contents| == i
        invariant ListedAt(discovered, at, c, policy, world)
        invariant recursive && depth < lim.maxDepth ==> Descended(containers, c, world)
      {
        ghost var earlier, before := discovered, containers;
        MembersStep(Setting(), Now(), a, path, members[i..], parent, depth);
        assert members[i..][0] == members[i] && members[i..][1..] == members[i + 1..];
        var handled, content := Member(a, path, members[i], parent, depth);
        if handled.Err? {
          return Err(handled.error);
        }
        MemberHandled(earlier, discovered, before, containers, old(|containers|), c, at, members[i], content, policy, world,
                      lim, recursive);
        c, at := WithMember(c, members[i], content), at + [|earlier|];
      }
      assert members[..|members|] == members && members[|members|..] == [];
      NoMembers(Setting(), Now(), a, path, parent, depth);
      AllHandledSnoc(discovered, containers, old(|containers|), c, at, policy, world, lim, recursive);
      containers := containers + [c];
      return Ok(true);
    }

    /** The body of `analyze` around the first visit. Its budgets hold for any world; only the use of the
        workspace depends on analyzers that keep the size limit of a member. The list of entries exceeds its
        limit, by one, exactly when a nested visit found nothing to recognise while the list was full. An
        analysis that ends complete has listed every member of every container it opened, beginning with the
        root, and has opened every recognised member above the depth limit. An analysis that ends early does so
        for a real cause, which decides the state; in a quiet world it ends normally exactly when all there is in
        the container fits the limits. */
    method Analyze(root: Bytes, name: string) returns (state: State, ghost why: Option<Cause>)
      requires Valid() && rootSize == |root|
      requires Now() == Initial(relations) && flickers == [] && containers == []
      modifies this
      ensures (Now(), state) == Analyzed(Setting(), old(Now()), root, rootId, name)
      ensures |discovered| <= lim.maxFiles + 1
      ensures |discovered| > lim.maxFiles <==> WhileFull(flickers, lim)
      ensures forall k :: 0 <= k < |flickers| ==> Flickers(world, flickers[k])
      ensures world.Steady() ==> flickers == []
      ensures forall k :: 0 <= k < |discovered| ==> discovered[k].depth <= lim.maxDepth + 1
      ensures Rooted(discovered, rootId)
      ensures expanded == Total(files) <= lim.maxBytes && (policy == MetadataOnly ==> files == [])
      ensures world.Bounded(lim) ==> peak <= |root| + lim.maxBytes + lim.maxSingleBytes
      ensures !tooDeep
      ensures state == Complete ==> warnings == 0
      ensures state in {Complete, CompleteWithWarnings} ==>
        |containers| > 0 && IsFile(containers[|containers| - 1], root, name, rootId, 0) && HandledSince(0)
      ensures state == Unsupported ==> exists t :: world.matching(t, root, name) == Ok(None)
      ensures Accounts(Setting(), Now(), state, why)
      ensures VisitInventory.Quiet(world) ==>
        VisitInventory.Completes(Setting(), old(relations), root, rootId, name, Now(), state)
    {
      assert 0 < lim.maxFiles;
      hide Valid, HandledSince, IsFile, Visited, Rooted, Total, Flickers, WhileFull, World.Bounded, World.Steady, Accounts,
           Analyzed, VisitInventory.Quiet, VisitInventory.Completes;
      assert Valid() && Known(discovered, rootId, rootId) && nested <= lim.maxNested && |discovered| <= lim.maxFiles;
      why := WhyAnalyzed(Setting(), Now(), root, rootId, name);
      if VisitInventory.Quiet(world) {
        VisitInventory.AnalysisIsInventory(Setting(), relations, root, rootId, name);
      }
      state := Run(root, name);
      hide Known;
      Budgets();
    }

    /** The first visit, and the end of `analyze`: the identity catalogue and the state. */
    method Run(root: Bytes, name: string) returns (state: State)
      requires Valid() && Known(discovered, rootId, rootId) && nested <= lim.maxNested && |discovered| <= lim.maxFiles
      requires discovered == [] && !tooDeep && containers == []
      modifies this
      ensures Valid() && (Now(), state) == Analyzed(Setting(), old(Now()), root, rootId, name)
      ensures !tooDeep && (state == Complete ==> warnings == 0)
      ensures state in {Complete, CompleteWithWarnings} ==>
        |containers| > 0 && IsFile(containers[|containers| - 1], root, name, rootId, 0) && HandledSince(0)
      ensures state == Unsupported ==> exists t :: world.matching(t, root, name) == Ok(None)
    {
      hide Valid, Known, HandledSince, IsFile, Visited;
      var supported := Visit(root, rootId, name, 0);
      var now := Ask();
      if supported.Err? {
        return Outcome(supported.error);
      }
      if world.refuses(now) {
        // the identity catalogue could not be rebuilt
        Warn();
      }
      return if !supported.value then Unsupported else if warnings > 0 then CompleteWithWarnings else Complete;
    }

    method Warn()
      modifies this`warnings
      ensures warnings == old(warnings) + 1 && (old(Valid()) ==> Valid())
    {
      warnings := warnings + 1;
    }
  }

  lemma PassesIgnores(s: Setup, v: Vars, items: seq<Item>, a: Analyzer, path: Bytes, member: Found, parent: ObjectId, depth: nat)
    ensures Passes(s, v.(discovered := items), a, path, member, parent, depth) == Passes(s, v, a, path, member, parent, depth)
  {}

  lemma TakenIff(s: Setup, v: Vars, a: Analyzer, path: Bytes, member: Found, parent: ObjectId, depth: nat)
    requires v.discovered != []
    ensures var (w, r) := Taken(s, v, a, path, member, parent, depth);
      (r.Ok? <==> Passes(s, v, a, path, member, parent, depth))
      && (r.Ok? ==> r.value.0 == a.extract(v.tick, path, member).written)
  {}

  lemma SteadyNeverFlickers(w: World, f: Flicker)
    requires w.Steady()
    ensures !Flickers(w, f)
  {
    if 2 <= f.tick {
      assert w.Matches(f.tick - 2, f.source, f.name) == w.Matches(f.tick, f.source, f.name);
    }
  }

  lemma NoMembers(s: Setup, v: Vars, a: Analyzer, path: Bytes, parent: ObjectId, depth: nat)
    requires depth <= s.lim.maxDepth
    ensures MembersVisited(s, v, a, path, [], parent, depth) == (v, Ok(true))
  {}

  lemma MembersStep(s: Setup, v: Vars, a: Analyzer, path: Bytes, members: seq<Found>, parent: ObjectId, depth: nat)
    requires members != [] && depth <= s.lim.maxDepth
    ensures MembersVisited(s, v, a, path, members, parent, depth)
            == var (w, handled) := MemberVisited(s, v, a, path, members[0], parent, depth);
               match handled
               case Err(failure) => (w, Err(failure))
               case Ok(_) => MembersVisited(s, w, a, path, members[1..], parent, depth)
  {}
}
