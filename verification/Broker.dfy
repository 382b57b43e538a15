/** The dependency guard of the resource broker (src/rab/broker.py, `_check_cycles` and `register`). */
module Broker {
  import opened Common
  import opened Graphs

  /** A stored definition, without its creation time. */
  datatype Definition = Definition(resource: Node, dependencies: set<Node>, body: string)

  datatype Refusal = Cycle | Immutable

  /** Each node of `order` comes after all its successors. */
  ghost predicate Topological(g: Graph, order: seq<Node>) {
    forall i, m :: 0 <= i < |order| && m in Successors(g, order[i]) ==> m in order[..i]
  }

  /** From a node of a topological order no path visits a node twice. */
  lemma {:induction false} OrderedHasNoLoop(g: Graph, order: seq<Node>, k: nat, p: seq<Node>)
    requires Topological(g, order) && k < |order| && IsPath(g, p) && p[0] == order[k]
    requires forall i, j :: 0 <= i < j < |order| ==> order[i] != order[j]
    ensures !Repeats(p) && forall i :: 0 <= i < |p| ==> p[i] in order[..k + 1]
    decreases |p|
  {
    if 1 < |p| {
      assert Edge(g, p[0], p[1]);
      var m :| 0 <= m < k && order[..k][m] == p[1];
      SubPath(g, p, 1, |p|);
      OrderedHasNoLoop(g, order, m, p[1..]);
      forall i | 0 <= i < |p|
        ensures p[i] in order[..k + 1] && (0 < i ==> p[i] != p[0])
      {
        if 0 < i {
          assert p[i] == p[1..][i - 1];
          var n :| 0 <= n < m + 1 && order[..m + 1][n] == p[i];
          assert order[..k + 1][n] == order[n] == p[i];
        } else {
          assert order[..k + 1][k] == p[0];
        }
      }
      if Repeats(p) {
        TailRepeats(p);
      }
    } else {
      assert order[..k + 1][k] == p[0];
    }
  }

  lemma TailRepeats(p: seq<Node>)
    requires Repeats(p) && forall i :: 0 < i < |p| ==> p[i] != p[0]
    ensures Repeats(p[1..])
  {
    var i, j :| 0 <= i < j < |p| && p[i] == p[j];
    assert p[1..][i - 1] == p[1..][j - 1];
  }

  /** The mutable sets of one search. `stack` lists the active nodes from the start of the search,
      `order` the finished ones in the order they were finished. */
  class Search {
    const g: Graph
    const start: Node
    var active: set<Node>
    var done: set<Node>
    ghost var stack: seq<Node>
    ghost var order: seq<Node>

    constructor (g: Graph, start: Node)
      ensures this.g == g && this.start == start && Valid() && active == {} && stack == []
    {
      this.g, this.start := g, start;
      active, done, stack, order := {}, {}, [], [];
    }

    ghost predicate Valid()
      reads this
    { Descends() && Ordered() }

    /** The active nodes are a path from the start. */
    ghost predicate Descends()
      reads this`stack, this`active
    {
      && (forall n :: n in stack <==> n in active)
      && (stack != [] ==> IsPath(g, stack) && stack[0] == start)
      && active <= Nodes(g) + {start}
    }

    /** The finished nodes are in topological order. */
    ghost predicate Ordered()
      reads this`order, this`done
    {
      && (forall n :: n in order <==> n in done)
      && (forall i, j :: 0 <= i < j < |order| ==> order[i] != order[j])
      && Topological(g, order)
    }

    /** The nested `visit`. It either finishes the node, or has found a cycle that the start reaches. */
    method Visit(node: Node) returns (cycle: bool)
      requires Valid()
      requires if stack == [] then node == start else Edge(g, stack[|stack| - 1], node)
      modifies this`active, this`done, this`stack, this`order
      ensures cycle ==> Loops(g, start)
      ensures !cycle ==> Valid() && active == old(active) && stack == old(stack)
      ensures !cycle ==> node in done && old(done) <= done
      decreases Nodes(g) + {start} - active
    {
      ghost var path := stack + [node];
      assert IsPath(g, path) && path[0] == start by {
        ExtendPath(g, stack, node);
      }
      if node in active {
        ghost var i :| 0 <= i < |stack| && stack[i] == node;
        assert path[i] == path[|stack|] && Repeats(path);
        return true;
      }
      if node in done {
        return false;
      }
      active, stack := active + {node}, path;
      var children := InSomeOrder(Successors(g, node));
      for i := 0 to |children|
        invariant Valid() && active == old(active) + {node} && stack == path && old(done) <= done
        invariant forall k :: 0 <= k < i ==> children[k] in done
      {
        assert Edge(g, node, children[i]);
        var below := Visit(children[i]);
        if below {
          return true;
        }
      }
      Leave(node);
      return false;
    }

    /** The end of a visit: the node is no longer active, and done. */
    method Leave(node: Node)
      requires Valid() && stack != [] && stack[|stack| - 1] == node && node !in stack[..|stack| - 1]
      requires forall m :: m in Successors(g, node) ==> m in done
      modifies this`active, this`done, this`stack, this`order
      ensures Valid() && active == old(active) - {node} && stack == old(stack)[..|old(stack)| - 1]
      ensures done == old(done) + {node}
    {
      hide IsPath, Topological, Nodes, Successors;
      ghost var path := stack;
      assert path == path[..|path| - 1] + [node];
      if 1 < |path| {
        SubPath(g, path, 0, |path| - 1);
      }
      active, stack := active - {node}, path[..|path| - 1];
      assert Descends() by {
        assert forall n :: n in path <==> n in stack || n == node;
      }
      if node !in done {
        order := Finish(node);
        done := done + {node};
      }
    }

    /** The finishing order with the node added at its end. */
    ghost method Finish(node: Node) returns (longer: seq<Node>)
      requires Topological(g, order) && node !in order
      requires forall m :: m in Successors(g, node) ==> m in order
      ensures longer == order + [node] && Topological(g, longer)
    {
      longer := order + [node];
      forall i, m | 0 <= i < |longer| && m in Successors(g, longer[i])
        ensures m in longer[..i]
      {
        assert longer[..i] == if i < |order| then order[..i] else order;
      }
    }
  }

  lemma ExtendPath(g: Graph, stack: seq<Node>, node: Node)
    requires stack != [] ==> IsPath(g, stack) && Edge(g, stack[|stack| - 1], node)
    ensures IsPath(g, stack + [node])
  {}

  /** `_check_cycles`: searching from one node alone raises exactly when that node reaches a cycle. */
  method ReachesCycle(g: Graph, start: Node) returns (cycle: bool)
    ensures cycle <==> Loops(g, start)
  {
    var search := new Search(g, start);
    cycle := search.Visit(start);
    if !cycle {
      ghost var k :| 0 <= k < |search.order| && search.order[k] == start;
      forall p | IsPath(g, p) && p[0] == start
        ensures !Repeats(p)
      {
        OrderedHasNoLoop(g, search.order, k, p);
      }
    }
  }

  // ---------------------------------------------------------------- registration

  predicate IsPlain(c: char) {
    'A' <= c <= 'Z' || 'a' <= c <= 'z' || '0' <= c <= '9' || c == '_' || c == '.' || c == '-'
  }

  /** The file a definition is stored in: other characters than letters, digits, '_', '.', '-' become '_'. */
  function FileName(resource: Node): string {
    if resource == "" then "" else [if IsPlain(resource[0]) then resource[0] else '_'] + FileName(resource[1..])
  }

  function Resources(files: map<string, Definition>): set<Node> { set f | f in files :: files[f].resource }

  /** The dependency graph of the stored definitions. */
  function GraphOf(files: map<string, Definition>): Graph {
    map r | r in Resources(files) :: Dependencies(files, r)
  }

  function Dependencies(files: map<string, Definition>, resource: Node): set<Node> {
    var f := FileName(resource);
    if f in files && files[f].resource == resource then files[f].dependencies else {}
  }

  /** The graph that the guard searches: without a database it knows of no stored definition. */
  function Searched(files: map<string, Definition>, database: bool, d: Definition): Graph {
    (if database then GraphOf(files) else map[])[d.resource := d.dependencies]
  }

  /** The definition reaches a cycle once it is stored beside the others. */
  ghost predicate Closes(files: map<string, Definition>, d: Definition) {
    Loops(GraphOf(files)[d.resource := d.dependencies], d.resource)
  }

  class ResourceBroker {
    var files: map<string, Definition>
    var database: bool          // the archive's database file exists
    ghost var slipped: bool     // a definition was stored although it closes a cycle

    constructor ()
      ensures Valid() && files == map[] && !database && !slipped
    {
      files, database, slipped := map[], false, false;
      new;
      forall p | IsPath(GraphOf(map[]), p)
        ensures !Repeats(p)
      {
        if 1 < |p| {
          NoEdges(p[0], p[1]);
        }
      }
    }

    /** The stored definitions form no cycle, unless one slipped in. */
    ghost predicate Valid()
      reads this`files, this`slipped
    {
      && (forall f :: f in files ==> f == FileName(files[f].resource))
      && (Acyclic(GraphOf(files)) <==> !slipped)
    }

    /** `rebuild`, and whatever else creates the database, which is disposable. */
    method Rebuild()
      modifies this`database
      ensures database
    {
      database := true;
    }

    method LoseDatabase()
      modifies this`database
      ensures !database
    {
      database := false;
    }

    /** `register`; a crash leaves out the final `rebuild`. A definition that is stored never changes, a refused one
        leaves no trace, and a cycle slips in exactly when a new definition closes one of several definitions while
        there is no database. */
    method Register(d: Definition, crash: bool) returns (refusal: Option<Refusal>)
      requires Valid()
      modifies this
      ensures Valid() && forall f :: f in old(files) ==> f in files && files[f] == old(files)[f]
      ensures refusal == Some(Cycle) <==> if old(database) then Closes(old(files), d) else d.resource in d.dependencies
      ensures refusal == Some(Immutable) <==>
        refusal != Some(Cycle) && FileName(d.resource) in old(files) && old(files)[FileName(d.resource)] != d
      ensures refusal in {None, Some(Cycle), Some(Immutable)}
      ensures refusal == None ==> files == old(files)[FileName(d.resource) := d]
      ensures refusal != None ==> files == old(files)
      ensures database == (old(database) || (refusal == None && !crash))
      ensures slipped <==> (
        || old(slipped)
        || (!old(database) && FileName(d.resource) !in old(files) && d.resource !in d.dependencies && Closes(old(files), d)))
    {
      hide FileName, GraphOf, Loops, Acyclic;
      if !database {
        SoleLoop(d.resource, d.dependencies);
      }
      var cycle := ReachesCycle(Searched(files, database, d), d.resource);
      if cycle {
        return Some(Cycle);
      }
      var target := FileName(d.resource);
      if target in files {
        if files[target] != d {
          return Some(Immutable);
        }
        assert files == files[target := d];
      } else {
        StoredIsAcyclicIff(files, d);
        slipped := slipped || Closes(files, d);
        files := files[target := d];
      }
      if !crash {
        Rebuild();
      }
      return None;
    }
  }

  /** Alone, a node reaches a cycle exactly when it is its own successor. */
  lemma SoleLoop(n: Node, targets: set<Node>)
    ensures Loops(map[][n := targets], n) <==> n in targets
  {
    var g: Graph := map[][n := targets];
    if n in targets {
      EndsRepeat([n, n]);
      assert IsPath(g, [n, n]) && [n, n][0] == n;
    }
    forall p | IsPath(g, p) && p[0] == n && Repeats(p)
      ensures n in targets
    {
      var i, j :| 0 <= i < j < |p| && p[i] == p[j];
      assert Edge(g, p[i], p[i + 1]) && Edge(g, p[j - 1], p[j]);
    }
  }

  /** A new definition leaves the graph acyclic exactly when it was and the definition closes no cycle. */
  lemma StoredIsAcyclicIff(files: map<string, Definition>, d: Definition)
    requires (forall f :: f in files ==> f == FileName(files[f].resource)) && FileName(d.resource) !in files
    ensures Acyclic(GraphOf(files[FileName(d.resource) := d])) <==> Acyclic(GraphOf(files)) && !Closes(files, d)
  {
    var g, h := GraphOf(files), GraphOf(files)[d.resource := d.dependencies];
    GraphAfter(files, d);
    if Acyclic(g) {
      RedefinitionKeepsAcyclic(g, d.resource, d.dependencies);
    } else {
      var p :| IsPath(g, p) && Repeats(p);
      assert d.resource !in g;
      assert forall a, b :: Edge(g, a, b) ==> Edge(h, a, b);
      assert IsPath(h, p);
    }
  }

  /** On a fresh archive a crash of one registration hides it from the next: two resources come to depend on
      each other. */
  method CycleSlipsIn(a: Definition, b: Definition) returns (broker: ResourceBroker)
    requires a.dependencies == {b.resource} && b.dependencies == {a.resource}
    requires FileName(a.resource) != FileName(b.resource)
    ensures broker.Valid() && !Acyclic(GraphOf(broker.files))
    ensures broker.files == map[FileName(a.resource) := a, FileName(b.resource) := b]
  {
    hide FileName, GraphOf, Acyclic, Closes;
    broker := new ResourceBroker();
    var first := broker.Register(a, true);
    assert broker.files == map[FileName(a.resource) := a];
    EachOther(a, b);
    var second := broker.Register(b, false);
  }

  lemma EachOther(a: Definition, b: Definition)
    requires a.dependencies == {b.resource} && b.dependencies == {a.resource} && a.resource != b.resource
    ensures Closes(map[FileName(a.resource) := a], b)
  {
    var files := map[FileName(a.resource) := a];
    var g := GraphOf(files)[b.resource := b.dependencies];
    var loop := [b.resource, a.resource, b.resource];
    assert files[FileName(a.resource)].resource == a.resource;
    assert Edge(g, b.resource, a.resource) && Edge(g, a.resource, b.resource);
    EndsRepeat(loop);
    assert IsPath(g, loop);
  }

  lemma NoEdges(a: Node, b: Node)
    ensures !Edge(GraphOf(map[]), a, b)
  {}

  /** Storing a new definition redefines one node of the graph. */
  lemma GraphAfter(files: map<string, Definition>, d: Definition)
    requires forall f :: f in files ==> f == FileName(files[f].resource)
    requires FileName(d.resource) !in files
    ensures GraphOf(files[FileName(d.resource) := d]) == GraphOf(files)[d.resource := d.dependencies]
  {
    var after := files[FileName(d.resource) := d];
    var g, h := GraphOf(after), GraphOf(files)[d.resource := d.dependencies];
    assert after[FileName(d.resource)].resource == d.resource;
    forall r
      ensures r in g <==> r in h
    {
      if r in h && r != d.resource {
        var f :| f in files && files[f].resource == r;
        assert f in after && after[f].resource == r;
      }
    }
    forall r | r in g
      ensures g[r] == h[r]
    {}
  }
}
