/** Finite directed graphs, their paths and their cycles, for the two acyclicity guards. */
module Graphs {
  type Node = string

  type Graph = map<Node, set<Node>>

  function Successors(g: Graph, n: Node): set<Node> { if n in g then g[n] else {} }

  predicate Edge(g: Graph, a: Node, b: Node) { b in Successors(g, a) }

  function Nodes(g: Graph): set<Node> { g.Keys + set a, b | a in g && b in g[a] :: b }

  function AddEdge(g: Graph, a: Node, b: Node): Graph { g[a := Successors(g, a) + {b}] }

  ghost predicate IsPath(g: Graph, p: seq<Node>) {
    p != [] && forall i, j :: 0 <= i && j == i + 1 < |p| ==> Edge(g, p[i], p[j])
  }

  ghost predicate PathFromTo(g: Graph, p: seq<Node>, a: Node, b: Node) {
    IsPath(g, p) && p[0] == a && p[|p| - 1] == b
  }

  ghost predicate Reaches(g: Graph, a: Node, b: Node) { exists p :: PathFromTo(g, p, a, b) }

  ghost predicate Repeats(p: seq<Node>) { exists i, j :: 0 <= i < j < |p| && p[i] == p[j] }

  /** A cycle is reachable from `a`: some path from it visits a node twice. */
  ghost predicate Loops(g: Graph, a: Node) { exists p :: IsPath(g, p) && p[0] == a && Repeats(p) }

  ghost predicate Acyclic(g: Graph) { forall p :: IsPath(g, p) ==> !Repeats(p) }

  ghost predicate SubGraph(g: Graph, h: Graph) { forall a, b :: Edge(g, a, b) ==> Edge(h, a, b) }

  lemma ReachesSelf(g: Graph, a: Node)
    ensures Reaches(g, a, a)
  {
    assert PathFromTo(g, [a], a, a);
  }

  lemma ReachesStep(g: Graph, a: Node, b: Node, c: Node)
    requires Reaches(g, a, b) && Edge(g, b, c)
    ensures Reaches(g, a, c)
  {
    var p :| PathFromTo(g, p, a, b);
    assert PathFromTo(g, p + [c], a, c);
  }

  lemma ReachesTrans(g: Graph, a: Node, b: Node, c: Node)
    requires Reaches(g, a, b) && Reaches(g, b, c)
    ensures Reaches(g, a, c)
  {
    var p :| PathFromTo(g, p, a, b);
    var q :| PathFromTo(g, q, b, c);
    var r := p + q[1..];
    forall i, j | 0 <= i && j == i + 1 < |r|
      ensures Edge(g, r[i], r[j])
    {
      if i == |p| - 1 {
        assert r[i] == q[0] && r[j] == q[1];
      } else if |p| <= i {
        assert r[i] == q[i - |p| + 1] && r[j] == q[j - |p| + 1];
      }
    }
    assert PathFromTo(g, r, a, c);
  }

  lemma ReachesMore(g: Graph, h: Graph, a: Node, b: Node)
    requires SubGraph(g, h) && Reaches(g, a, b)
    ensures Reaches(h, a, b)
  {
    var p :| PathFromTo(g, p, a, b);
    assert PathFromTo(h, p, a, b);
  }

  lemma SubPath(g: Graph, p: seq<Node>, lo: nat, hi: nat)
    requires IsPath(g, p) && lo < hi <= |p|
    ensures IsPath(g, p[lo..hi])
  {
    var q := p[lo..hi];
    forall i, j | 0 <= i && j == i + 1 < |q|
      ensures Edge(g, q[i], q[j])
    {
      assert q[i] == p[lo + i] && q[j] == p[lo + j];
    }
  }

  /** A closed set without the target cannot reach it. */
  lemma {:induction false} ClosedCannotReach(g: Graph, closed: set<Node>, p: seq<Node>)
    requires IsPath(g, p) && p[0] in closed
    requires forall n :: n in closed ==> Successors(g, n) <= closed
    ensures p[|p| - 1] in closed
    decreases |p|
  {
    if 1 < |p| {
      assert Edge(g, p[0], p[1]);
      SubPath(g, p, 1, |p|);
      ClosedCannotReach(g, closed, p[1..]);
    }
  }

  /** A path in a graph with one more edge either avoids the edge, or enters and leaves it by paths of
      the old graph. */
  lemma {:induction false} PathWithEdge(g: Graph, s: Node, o: Node, p: seq<Node>)
    requires IsPath(AddEdge(g, s, o), p)
    ensures IsPath(g, p) || (Reaches(g, p[0], s) && Reaches(g, o, p[|p| - 1]))
    decreases |p|
  {
    if 1 < |p| {
      var h := AddEdge(g, s, o);
      assert Edge(h, p[0], p[1]);
      SubPath(h, p, 1, |p|);
      PathWithEdge(g, s, o, p[1..]);
      var last := p[|p| - 1];
      if Edge(g, p[0], p[1]) {
        if IsPath(g, p[1..]) {
          Prepend(g, p);
        } else {
          assert PathFromTo(g, [p[0], p[1]], p[0], p[1]);
          ReachesTrans(g, p[0], p[1], s);
        }
      } else {
        assert p[0] == s && p[1] == o;
        ReachesSelf(g, s);
        if IsPath(g, p[1..]) {
          assert PathFromTo(g, p[1..], o, last);
        }
      }
    }
  }

  lemma Prepend(g: Graph, p: seq<Node>)
    requires 1 < |p| && Edge(g, p[0], p[1]) && IsPath(g, p[1..])
    ensures IsPath(g, p)
  {
    forall i, j | 0 <= i && j == i + 1 < |p|
      ensures Edge(g, p[i], p[j])
    {
      if 0 < i {
        assert p[i] == p[1..][i - 1] && p[j] == p[1..][j - 1];
      }
    }
  }

  /** Adding an edge keeps a graph acyclic exactly when its target does not reach its source. */
  lemma EdgeKeepsAcyclic(g: Graph, s: Node, o: Node)
    requires Acyclic(g)
    ensures Acyclic(AddEdge(g, s, o)) <==> !Reaches(g, o, s)
  {
    var h := AddEdge(g, s, o);
    if !Reaches(g, o, s) {
      forall p | IsPath(h, p)
        ensures !Repeats(p)
      {
        if Repeats(p) {
          var i, j :| 0 <= i < j < |p| && p[i] == p[j];
          SubPath(h, p, i, j + 1);
          var loop := p[i..j + 1];
          EndsRepeat(loop);
          PathWithEdge(g, s, o, loop);
          ReachesTrans(g, o, p[i], s);
        }
      }
    } else {
      var p :| PathFromTo(g, p, o, s);
      var loop := [s] + p;
      assert Edge(h, s, o);
      forall i, j | 0 <= i && j == i + 1 < |loop|
        ensures Edge(h, loop[i], loop[j])
      {
        if 0 < i {
          assert loop[i] == p[i - 1] && loop[j] == p[j - 1] && Edge(g, p[i - 1], p[j - 1]);
        }
      }
      EndsRepeat(loop);
      assert IsPath(h, loop);
    }
  }

  lemma EndsRepeat(p: seq<Node>)
    requires 1 < |p| && p[0] == p[|p| - 1]
    ensures Repeats(p)
  {}

  /** A path that avoids a node does not depend on that node's successors. */
  lemma AvoidsNode(g: Graph, n: Node, targets: set<Node>, p: seq<Node>)
    requires IsPath(g[n := targets], p) && n !in p
    ensures IsPath(g, p)
  {
    forall i, j | 0 <= i && j == i + 1 < |p|
      ensures Edge(g, p[i], p[j])
    {
      assert Edge(g[n := targets], p[i], p[j]);
    }
  }

  /** Redefining the successors of one node keeps a graph acyclic exactly when the node reaches no
      cycle afterwards. */
  lemma RedefinitionKeepsAcyclic(g: Graph, n: Node, targets: set<Node>)
    requires Acyclic(g)
    ensures Acyclic(g[n := targets]) <==> !Loops(g[n := targets], n)
  {
    var h := g[n := targets];
    if !Loops(h, n) {
      forall p | IsPath(h, p)
        ensures !Repeats(p)
      {
        if Repeats(p) {
          var i, j :| 0 <= i < j < |p| && p[i] == p[j];
          SubPath(h, p, i, j + 1);
          ClosedPathThrough(g, n, targets, p[i..j + 1]);
        }
      }
    }
  }

  lemma ClosedPathThrough(g: Graph, n: Node, targets: set<Node>, loop: seq<Node>)
    requires Acyclic(g) && IsPath(g[n := targets], loop) && 1 < |loop| && loop[0] == loop[|loop| - 1]
    ensures Loops(g[n := targets], n)
  {
    var h := g[n := targets];
    EndsRepeat(loop);
    if n !in loop {
      AvoidsNode(g, n, targets, loop);
    } else {
      var k :| 0 <= k < |loop| && loop[k] == n;
      RoundFrom(h, loop, k);
    }
  }

  /** A closed path can be entered at any of its nodes. */
  lemma RoundFrom(h: Graph, loop: seq<Node>, k: nat)
    requires IsPath(h, loop) && 1 < |loop| && loop[0] == loop[|loop| - 1] && k < |loop|
    ensures Loops(h, loop[k])
  {
    hide Edge, Repeats;
    var round := loop[k..] + loop[1..k + 1];
    forall i, j | 0 <= i && j == i + 1 < |round|
      ensures Edge(h, round[i], round[j])
    {
      var m := |loop| - k;
      if j < m {
        var a, b := k + i, k + j;
        assert round[i] == loop[a] && round[j] == loop[b] && Edge(h, loop[a], loop[b]);
      } else {
        var a, b := i - m + 1, j - m + 1;
        assert round[j] == loop[b] && round[i] == loop[a] && Edge(h, loop[a], loop[b]);
      }
    }
    assert IsPath(h, round) && round[0] == loop[k];
    assert round[|round| - 1] == loop[k];
    EndsRepeat(round);
    assert Repeats(round);
  }

  /** The elements of a set in some order. */
  method InSomeOrder(s: set<Node>) returns (nodes: seq<Node>)
    ensures forall n :: n in nodes <==> n in s
  {
    nodes := [];
    var rest := s;
    while rest != {}
      invariant rest <= s && forall n :: n in nodes <==> n in s - rest
      decreases rest
    {
      var n :| n in rest;
      nodes, rest := nodes + [n], rest - {n};
    }
  }
}
