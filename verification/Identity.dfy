/** The relationship guard of the identity catalogue (src/rab/identity.py, `add_relationship`). */
module Identity {
  import opened Common
  import opened Graphs

  datatype Kind =
    | EXACT_COPY_OF | DERIVED_FROM | CONTAINS | EXTRACTED_FROM | REPRESENTATION_OF
    | MEMBER_OF_RELEASE | RELEASE_OF_WORK | AUTHORITY_MATCH | CAPTURED_AS | EVIDENCE_FOR

  predicate Guarded(kind: Kind) { kind in {DERIVED_FROM, REPRESENTATION_OF, RELEASE_OF_WORK} }

  /** What the relationship identifier is a digest of; the digest is taken to be injective. */
  datatype Key = Key(subject: Node, kind: Kind, object_id: Node, evidence: string)

  datatype Refusal = SelfRelationship | Cycle | Immutable

  function Subjects(keys: set<Key>): set<Node> { set k | k in keys :: k.subject }

  function Objects(keys: set<Key>, subject: Node, all: bool): set<Node> {
    set k | k in keys && k.subject == subject && (all || Guarded(k.kind)) :: k.object_id
  }

  /** The stored relationships, or only the guarded ones, as a graph. */
  function GraphOf(keys: set<Key>, all: bool): Graph {
    map s | s in Subjects(keys) :: Objects(keys, s, all)
  }

  lemma EdgesOf(keys: set<Key>, all: bool, a: Node, b: Node)
    ensures Edge(GraphOf(keys, all), a, b) <==>
      exists k :: k in keys && k.subject == a && k.object_id == b && (all || Guarded(k.kind))
  {
    if k :| k in keys && k.subject == a && k.object_id == b && (all || Guarded(k.kind)) {
      assert a in Subjects(keys) && b in Objects(keys, a, all);
    }
  }

  lemma GuardedIsPart(keys: set<Key>)
    ensures SubGraph(GraphOf(keys, false), GraphOf(keys, true))
  {
    forall a, b | Edge(GraphOf(keys, false), a, b)
      ensures Edge(GraphOf(keys, true), a, b)
    {
      EdgesOf(keys, false, a, b);
      EdgesOf(keys, true, a, b);
    }
  }

  /** The worklist search: whether the object reaches the subject already. It terminates on every
      graph, cyclic ones included. */
  method FindsCycle(graph: Graph, subject: Node, object_id: Node) returns (cycle: bool)
    ensures cycle <==> Reaches(graph, object_id, subject)
  {
    var pending, seen := [object_id], {};
    ghost var universe := Nodes(graph) + {object_id};
    ReachesSelf(graph, object_id);
    while pending != []
      invariant object_id in seen || object_id in pending
      invariant forall n :: n in pending || n in seen ==> n in universe && Reaches(graph, object_id, n)
      invariant forall n, m :: n in seen && m in Successors(graph, n) ==> m in seen || m in pending
      invariant subject !in seen && seen <= universe
      decreases universe - seen, |pending|
    {
      var node := pending[|pending| - 1];
      ghost var before := pending;
      pending := pending[..|pending| - 1];
      assert before == pending + [node];
      if node == subject {
        return true;
      }
      if node in seen {
        continue;
      }
      seen := seen + {node};
      var next := InSomeOrder(Successors(graph, node));
      forall m | m in next
        ensures m in universe && Reaches(graph, object_id, m)
      {
        assert Edge(graph, node, m);
        ReachesStep(graph, object_id, node, m);
      }
      pending := pending + next;
    }
    if Reaches(graph, object_id, subject) {
      var p :| PathFromTo(graph, p, object_id, subject);
      ClosedCannotReach(graph, seen, p);
    }
    return false;
  }

  class IdentityCatalogue {
    /** The relationship sidecars, each with the time it was recorded. */
    var relationships: map<Key, nat>

    constructor ()
      ensures Valid() && relationships == map[]
    {
      relationships := map[];
      new;
      EmptyIsAcyclic();
    }

    /** The guarded relationships, of all three kinds together, form no cycle. */
    ghost predicate Valid()
      reads this
    { Acyclic(GraphOf(relationships.Keys, false)) }

    /** `add_relationship`, at the time `now`. The guard follows stored relationships of every kind. */
    method Add(key: Key, now: nat) returns (refusal: Option<Refusal>)
      requires Valid()
      modifies this
      ensures Valid()
      ensures refusal == None ==> relationships == old(relationships)[key := now]
      ensures refusal != None ==> relationships == old(relationships)
      ensures refusal == Some(SelfRelationship) <==> key.subject == key.object_id && key.kind != EXACT_COPY_OF
      ensures refusal == Some(Cycle) <==>
        key.subject != key.object_id && Guarded(key.kind)
        && Reaches(GraphOf(old(relationships.Keys), true), key.object_id, key.subject)
      ensures refusal == Some(Immutable) <==>
        key in old(relationships) && old(relationships)[key] != now && refusal !in {Some(SelfRelationship), Some(Cycle)}
    {
      if key.subject == key.object_id && key.kind != EXACT_COPY_OF {
        return Some(SelfRelationship);
      }
      if Guarded(key.kind) {
        var graph := GraphOf(relationships.Keys, true);
        SearchWithNewEdge(graph, key.subject, key.object_id);
        var cycle := FindsCycle(AddEdge(graph, key.subject, key.object_id), key.subject, key.object_id);
        if cycle {
          return Some(Cycle);
        }
      }
      if key in relationships && relationships[key] != now {
        return Some(Immutable);
      }
      AddedIsAcyclic(relationships.Keys, key);
      relationships := relationships[key := now];
      return None;
    }
  }

  lemma EmptyIsAcyclic()
    ensures Acyclic(GraphOf({}, false))
  {
    forall p | IsPath(GraphOf({}, false), p)
      ensures !Repeats(p)
    {
      if 1 < |p| {
        assert Edge(GraphOf({}, false), p[0], p[1]);
        EdgesOf({}, false, p[0], p[1]);
      }
    }
  }

  /** The search is made with the new edge in place; that makes no difference to its answer. */
  lemma SearchWithNewEdge(g: Graph, s: Node, o: Node)
    ensures Reaches(AddEdge(g, s, o), o, s) <==> Reaches(g, o, s)
  {
    if Reaches(AddEdge(g, s, o), o, s) {
      var p :| PathFromTo(AddEdge(g, s, o), p, o, s);
      PathWithEdge(g, s, o, p);
      if IsPath(g, p) {
        assert PathFromTo(g, p, o, s);
      }
    }
    if Reaches(g, o, s) {
      ReachesMore(g, AddEdge(g, s, o), o, s);
    }
  }

  /** A relationship that is not guarded, or whose object does not reach its subject, may be added. */
  lemma AddedIsAcyclic(keys: set<Key>, key: Key)
    requires Acyclic(GraphOf(keys, false))
    requires Guarded(key.kind) ==> !Reaches(GraphOf(keys, true), key.object_id, key.subject)
    ensures Acyclic(GraphOf(keys + {key}, false))
  {
    var g, h := GraphOf(keys, false), GraphOf(keys + {key}, false);
    var bigger := if Guarded(key.kind) then AddEdge(g, key.subject, key.object_id) else g;
    if Guarded(key.kind) {
      GuardedIsPart(keys);
      if Reaches(g, key.object_id, key.subject) {
        ReachesMore(g, GraphOf(keys, true), key.object_id, key.subject);
      }
      EdgeKeepsAcyclic(g, key.subject, key.object_id);
    }
    forall a, b | Edge(h, a, b)
      ensures Edge(bigger, a, b)
    {
      EdgesOf(keys + {key}, false, a, b);
      EdgesOf(keys, false, a, b);
    }
    forall p | IsPath(h, p)
      ensures !Repeats(p)
    {
      assert IsPath(bigger, p);
    }
  }
}
