/**
 * The adjacency builder: the edge list indexed into parents-of,
 * children-of and spouses-of. Both engines rebuild it on every call.
 */
module Adjacency {
  import opened Family
  import opened Lists

  datatype Adjacency = Adjacency(
    parentsByChild: map<Id, seq<Id>>,
    childrenByParent: map<Id, seq<Id>>,
    spousesById: map<Id, seq<Id>>)

  /** The list stored under `id`, or the empty list. */
  function Get(m: map<Id, seq<Id>>, id: Id): seq<Id>
  {
    if id in m then m[id] else []
  }

  // Reference definitions: what each list holds, one edge at a time, in edge order.

  /** The sources of the lineage edges that end at `child`. */
  function ParentsOf(edges: seq<FamilyEdge>, child: Id): seq<Id>
  {
    if edges == [] then []
    else
      var e := edges[|edges| - 1];
      ParentsOf(edges[..|edges| - 1], child) + (if e.kind == Lineage && e.target == child then [e.source] else [])
  }

  /** The targets of the lineage edges that start at `parent`. */
  function ChildrenOf(edges: seq<FamilyEdge>, parent: Id): seq<Id>
  {
    if edges == [] then []
    else
      var e := edges[|edges| - 1];
      ChildrenOf(edges[..|edges| - 1], parent) + (if e.kind == Lineage && e.source == parent then [e.target] else [])
  }

  /** The other ends of the spouse edges touching `id`, read in both directions. */
  function SpousesOf(edges: seq<FamilyEdge>, id: Id): seq<Id>
  {
    if edges == [] then []
    else
      var e := edges[|edges| - 1];
      SpousesOf(edges[..|edges| - 1], id)
        + (if e.kind == Spouse && e.source == id then [e.target] else [])
        + (if e.kind == Spouse && e.target == id then [e.source] else [])
  }

  predicate IsLineage(edges: seq<FamilyEdge>, parent: Id, child: Id)
  {
    exists k :: 0 <= k < |edges| && edges[k].kind == Lineage && edges[k].source == parent && edges[k].target == child
  }

  predicate IsSpouseEdge(edges: seq<FamilyEdge>, a: Id, b: Id)
  {
    exists k :: 0 <= k < |edges| && edges[k].kind == Spouse && edges[k].source == a && edges[k].target == b
  }

  /** Parents-of and children-of index the same lineage edges, from the two ends. */
  lemma {:induction false} ParentChildDuality(edges: seq<FamilyEdge>, parent: Id, child: Id)
    ensures parent in ParentsOf(edges, child) <==> IsLineage(edges, parent, child)
    ensures child in ChildrenOf(edges, parent) <==> IsLineage(edges, parent, child)
  {
    if edges != [] {
      var init, last := edges[..|edges| - 1], edges[|edges| - 1];
      ParentChildDuality(init, parent, child);
      if IsLineage(init, parent, child) {
        var k :| 0 <= k < |init| && init[k].kind == Lineage && init[k].source == parent && init[k].target == child;
        assert edges[k] == init[k];
      }
      if IsLineage(edges, parent, child) {
        var k :| 0 <= k < |edges| && edges[k].kind == Lineage && edges[k].source == parent && edges[k].target == child;
        if k < |edges| - 1 {
          assert init[k] == edges[k];
          assert IsLineage(init, parent, child);
        } else {
          assert last.kind == Lineage && last.source == parent && last.target == child;
        }
      }
    }
  }

  /** Spouses-of is symmetric: a spouse edge stored once is read from both ends. */
  lemma {:induction false} SpouseSymmetry(edges: seq<FamilyEdge>, a: Id, b: Id)
    ensures b in SpousesOf(edges, a) <==> IsSpouseEdge(edges, a, b) || IsSpouseEdge(edges, b, a)
    ensures b in SpousesOf(edges, a) <==> a in SpousesOf(edges, b)
  {
    if edges != [] {
      var init, last := edges[..|edges| - 1], edges[|edges| - 1];
      SpouseSymmetry(init, a, b);
      forall x, y | IsSpouseEdge(init, x, y) ensures IsSpouseEdge(edges, x, y) {
        var k :| 0 <= k < |init| && init[k].kind == Spouse && init[k].source == x && init[k].target == y;
        assert edges[k] == init[k];
      }
      forall x, y | IsSpouseEdge(edges, x, y)
        ensures IsSpouseEdge(init, x, y) || (last.kind == Spouse && last.source == x && last.target == y)
      {
        var k :| 0 <= k < |edges| && edges[k].kind == Spouse && edges[k].source == x && edges[k].target == y;
        if k < |edges| - 1 {
          assert init[k] == edges[k];
        }
      }
    }
  }

  /** Every id in an adjacency list is an endpoint of some edge. */
  function Endpoints(edges: seq<FamilyEdge>): (r: set<Id>)
    ensures forall k :: 0 <= k < |edges| ==> edges[k].source in r && edges[k].target in r
  {
    (set k | 0 <= k < |edges| :: edges[k].source) + (set k | 0 <= k < |edges| :: edges[k].target)
  }

  lemma {:induction false} NeighboursAreEndpoints(edges: seq<FamilyEdge>, id: Id)
    ensures forall n :: n in ParentsOf(edges, id) ==> n in Endpoints(edges)
    ensures forall n :: n in ChildrenOf(edges, id) ==> n in Endpoints(edges)
    ensures forall n :: n in SpousesOf(edges, id) ==> n in Endpoints(edges)
  {
    forall n | n in ParentsOf(edges, id) ensures n in Endpoints(edges) {
      ParentChildDuality(edges, n, id);
    }
    forall n | n in ChildrenOf(edges, id) ensures n in Endpoints(edges) {
      ParentChildDuality(edges, id, n);
    }
    forall n | n in SpousesOf(edges, id) ensures n in Endpoints(edges) {
      SpouseSymmetry(edges, id, n);
    }
  }

  /** The adjacency index holds exactly the neighbour lists of `edges`. */
  ghost predicate Indexes(adj: Adjacency, edges: seq<FamilyEdge>)
  {
    (forall id :: Get(adj.parentsByChild, id) == ParentsOf(edges, id)) &&
    (forall id :: Get(adj.childrenByParent, id) == ChildrenOf(edges, id)) &&
    (forall id :: Get(adj.spousesById, id) == SpousesOf(edges, id))
  }

  /** `get(key) || []`, then push: the shape of each update in `buildAdjacency`. */
  function Push(m: map<Id, seq<Id>>, key: Id, v: Id): map<Id, seq<Id>>
  {
    m[key := Get(m, key) + [v]]
  }

  ghost predicate IndexesParents(m: map<Id, seq<Id>>, edges: seq<FamilyEdge>)
  {
    forall id :: Get(m, id) == ParentsOf(edges, id) && (id in m <==> ParentsOf(edges, id) != [])
  }

  ghost predicate IndexesChildren(m: map<Id, seq<Id>>, edges: seq<FamilyEdge>)
  {
    forall id :: Get(m, id) == ChildrenOf(edges, id) && (id in m <==> ChildrenOf(edges, id) != [])
  }

  ghost predicate IndexesSpouses(m: map<Id, seq<Id>>, edges: seq<FamilyEdge>)
  {
    forall id :: Get(m, id) == SpousesOf(edges, id) && (id in m <==> SpousesOf(edges, id) != [])
  }

  lemma ParentsStep(m: map<Id, seq<Id>>, edges: seq<FamilyEdge>, e: FamilyEdge)
    requires IndexesParents(m, edges)
    ensures IndexesParents(if e.kind == Lineage then Push(m, e.target, e.source) else m, edges + [e])
  {
    assert (edges + [e])[..|edges|] == edges;
  }

  lemma ChildrenStep(m: map<Id, seq<Id>>, edges: seq<FamilyEdge>, e: FamilyEdge)
    requires IndexesChildren(m, edges)
    ensures IndexesChildren(if e.kind == Lineage then Push(m, e.source, e.target) else m, edges + [e])
  {
    assert (edges + [e])[..|edges|] == edges;
  }

  lemma SpousesStep(m: map<Id, seq<Id>>, edges: seq<FamilyEdge>, e: FamilyEdge)
    requires IndexesSpouses(m, edges)
    ensures IndexesSpouses(if e.kind == Spouse then Push(Push(m, e.source, e.target), e.target, e.source) else m,
                           edges + [e])
  {
    assert (edges + [e])[..|edges|] == edges;
  }

  /**
   * `buildAdjacency`: one pass over the edges, pushing onto per-person lists.
   * `nodes` is never read, so edges whose endpoints are not persons are indexed too.
   */
  method BuildAdjacency(nodes: seq<FamilyNode>, edges: seq<FamilyEdge>) returns (adj: Adjacency)
    ensures forall id :: Get(adj.parentsByChild, id) == ParentsOf(edges, id)
    ensures forall id :: Get(adj.childrenByParent, id) == ChildrenOf(edges, id)
    ensures forall id :: Get(adj.spousesById, id) == SpousesOf(edges, id)
    ensures forall id :: id in adj.parentsByChild <==> ParentsOf(edges, id) != []
    ensures forall id :: id in adj.childrenByParent <==> ChildrenOf(edges, id) != []
    ensures forall id :: id in adj.spousesById <==> SpousesOf(edges, id) != []
  {
    var parents: map<Id, seq<Id>> := map[];
    var children: map<Id, seq<Id>> := map[];
    var spouses: map<Id, seq<Id>> := map[];
    for i := 0 to |edges|
      invariant IndexesParents(parents, edges[..i])
      invariant IndexesChildren(children, edges[..i])
      invariant IndexesSpouses(spouses, edges[..i])
    {
      var e := edges[i];
      TakeSnoc(edges, i);
      ParentsStep(parents, edges[..i], e);
      ChildrenStep(children, edges[..i], e);
      SpousesStep(spouses, edges[..i], e);
      if e.kind == Lineage {
        parents := Push(parents, e.target, e.source);
        children := Push(children, e.source, e.target);
      } else {
        spouses := Push(spouses, e.source, e.target);
        spouses := Push(spouses, e.target, e.source);
      }
    }
    TakeAll(edges);
    adj := Adjacency(parents, children, spouses);
  }
}
