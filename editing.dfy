/**
 * The graph-editing handlers of the tree editor: deleting and updating
 * persons, deleting relations, creating a person from a port, and
 * connecting two persons by dragging from port to port, with the
 * automatic spouse link between the parents of a shared child.
 *
 * Ids the editor draws from the clock or a random source are parameters:
 * `newId` for a created person or connection, `autoId(k)` for the `k`-th
 * automatically added spouse edge.
 */
module Editing {
  import opened Wrappers
  import opened Family
  import opened Lists
  import Adjacency

  datatype Port = Top | Bottom | Left | Right

  /** The port a connection drag started from. */
  datatype Anchor = Anchor(nodeId: Id, port: Port)

  /**
   * The state the handlers read and write: the persons, the relations, the
   * root (which cannot be deleted), the selected person and the drag in
   * progress (`isConnecting && connStart`).
   */
  datatype Editor = Editor(nodes: seq<FamilyNode>, edges: seq<FamilyEdge>, rootId: Id,
                           selected: Option<Id>, connStart: Option<Anchor>)

  /** Every relation joins two persons of the tree. */
  predicate Consistent(nodes: seq<FamilyNode>, edges: seq<FamilyEdge>)
  {
    forall e :: e in edges ==> e.source in NodeIds(nodes) && e.target in NodeIds(nodes)
  }

  lemma InNodeIds(nodes: seq<FamilyNode>, x: Id)
    ensures x in NodeIds(nodes) <==> exists n :: n in nodes && n.id == x
  {
    if x in NodeIds(nodes) {
      var k :| 0 <= k < |nodes| && NodeIds(nodes)[k] == x;
      assert nodes[k] in nodes;
    }
    if exists n :: n in nodes && n.id == x {
      var n :| n in nodes && n.id == x;
      var k :| 0 <= k < |nodes| && nodes[k] == n;
      assert NodeIds(nodes)[k] == x;
    }
  }

  // ---------------------------------------------------------------------
  // Filtering

  /** `s.filter(keep)`: the elements `keep` accepts, each as often as in `s`, in order. */
  function Filter<T(==,!new)>(s: seq<T>, keep: T -> bool): (r: seq<T>)
    ensures forall x :: multiset(r)[x] == if keep(x) then multiset(s)[x] else 0
    ensures forall x :: x in r <==> x in s && keep(x)
  {
    if s == [] then []
    else
      var init, last := s[..|s| - 1], s[|s| - 1];
      assert s == init + [last];
      Filter(init, keep) + (if keep(last) then [last] else [])
  }

  /** A filter that keeps every element returns the list unchanged. */
  lemma {:induction false} FilterAll<T(!new)>(s: seq<T>, keep: T -> bool)
    requires forall x :: x in s ==> keep(x)
    ensures Filter(s, keep) == s
  {
    if s != [] {
      var init, last := s[..|s| - 1], s[|s| - 1];
      assert s == init + [last];
      assert keep(last);
      forall x | x in init ensures keep(x) {
        assert x in s;
      }
      FilterAll(init, keep);
    }
  }

  /**
   * Filtering keeps order: filtering a concatenation filters each part and
   * concatenates the results, and a single element stays exactly when
   * `keep` accepts it. Together these fix the result element by element.
   */
  lemma FilterInOrder<T(!new)>(a: seq<T>, b: seq<T>, keep: T -> bool)
    ensures Filter(a + b, keep) == Filter(a, keep) + Filter(b, keep)
    ensures forall x :: Filter([x], keep) == if keep(x) then [x] else []
  {
    FilterAppend(a, b, keep);
    forall x ensures Filter([x], keep) == if keep(x) then [x] else [] {
      FilterOne(x, keep);
    }
  }

  lemma FilterOne<T(!new)>(x: T, keep: T -> bool)
    ensures Filter([x], keep) == if keep(x) then [x] else []
  {
    assert [x][..0] == [];
  }

  lemma {:induction false} FilterAppend<T(!new)>(a: seq<T>, b: seq<T>, keep: T -> bool)
    ensures Filter(a + b, keep) == Filter(a, keep) + Filter(b, keep)
    decreases |b|
  {
    if b == [] {
      assert a + b == a;
      assert Filter(b, keep) == [];
    } else {
      var init, last := b[..|b| - 1], b[|b| - 1];
      var tail := if keep(last) then [last] else [];
      assert (a + b)[..|a + b| - 1] == a + init;
      assert (a + b)[|a + b| - 1] == last;
      assert Filter(a + b, keep) == Filter(a + init, keep) + tail;
      assert Filter(b, keep) == Filter(init, keep) + tail;
      FilterAppend(a, init, keep);
      AppendAssoc(Filter(a, keep), Filter(init, keep), tail);
    }
  }

  /** Filtering twice by the same test changes nothing the second time. */
  lemma FilterIdempotent<T(!new)>(s: seq<T>, keep: T -> bool)
    ensures Filter(Filter(s, keep), keep) == Filter(s, keep)
  {
    FilterAll(Filter(s, keep), keep);
  }

  // ---------------------------------------------------------------------
  // Deleting and updating

  /**
   * `deleteNode`: the root cannot be deleted. Any other person is removed
   * together with every relation it takes part in, and is unselected.
   */
  function DeleteNode(s: Editor, id: Id): (r: Editor)
    ensures id == s.rootId ==> r == s
    ensures id != s.rootId ==>
              r.rootId == s.rootId && r.connStart == s.connStart &&
              (forall n :: multiset(r.nodes)[n] == if n.id == id then 0 else multiset(s.nodes)[n]) &&
              (forall e :: multiset(r.edges)[e] == if e.source == id || e.target == id then 0 else multiset(s.edges)[e]) &&
              (s.selected == Some(id) ==> r.selected == None) &&
              (s.selected != Some(id) ==> r.selected == s.selected)
  {
    if id == s.rootId then s
    else
      s.(nodes := Filter(s.nodes, (n: FamilyNode) => n.id != id),
         edges := Filter(s.edges, (e: FamilyEdge) => e.source != id && e.target != id),
         selected := if s.selected == Some(id) then None else s.selected)
  }

  /**
   * After deleting a person other than the root, nobody carries its id and
   * no relation mentions it; a tree whose relations join present persons
   * keeps that property, and the root stays.
   */
  lemma DeleteNodeKeepsConsistent(s: Editor, id: Id)
    requires Consistent(s.nodes, s.edges)
    ensures var r := DeleteNode(s, id);
            Consistent(r.nodes, r.edges) &&
            (id != s.rootId ==> id !in NodeIds(r.nodes) && forall e :: e in r.edges ==> e.source != id && e.target != id) &&
            (s.rootId in NodeIds(s.nodes) ==> s.rootId in NodeIds(r.nodes))
  {
    var r := DeleteNode(s, id);
    if id != s.rootId {
      forall x | x in NodeIds(s.nodes) && x != id ensures x in NodeIds(r.nodes) {
        InNodeIds(s.nodes, x);
        var n :| n in s.nodes && n.id == x;
        InNodeIds(r.nodes, x);
      }
      if id in NodeIds(r.nodes) {
        InNodeIds(r.nodes, id);
        assert false;
      }
    }
  }

  /** Deleting the same person twice is deleting it once. */
  lemma DeleteNodeIdempotent(s: Editor, id: Id)
    ensures DeleteNode(DeleteNode(s, id), id) == DeleteNode(s, id)
  {
    if id != s.rootId {
      FilterIdempotent(s.nodes, (n: FamilyNode) => n.id != id);
      FilterIdempotent(s.edges, (e: FamilyEdge) => e.source != id && e.target != id);
    }
  }

  /**
   * Deleting keeps order: the survivors of the first part of either list
   * come before the survivors of the rest, as they stood.
   */
  lemma DeleteNodeInOrder(s: Editor, id: Id, a: seq<FamilyNode>, b: seq<FamilyNode>, c: seq<FamilyEdge>, d: seq<FamilyEdge>)
    requires id != s.rootId && s.nodes == a + b && s.edges == c + d
    ensures DeleteNode(s, id).nodes == DeleteNode(s.(nodes := a), id).nodes + DeleteNode(s.(nodes := b), id).nodes
    ensures DeleteNode(s, id).edges == DeleteNode(s.(edges := c), id).edges + DeleteNode(s.(edges := d), id).edges
  {
    FilterInOrder(a, b, (n: FamilyNode) => n.id != id);
    FilterInOrder(c, d, (e: FamilyEdge) => e.source != id && e.target != id);
  }

  /** `deleteEdge`: exactly the relations carrying `edgeId` are removed. */
  function DeleteEdge(edges: seq<FamilyEdge>, edgeId: Id): (r: seq<FamilyEdge>)
    ensures forall e :: multiset(r)[e] == if e.id == edgeId then 0 else multiset(edges)[e]
  {
    Filter(edges, (e: FamilyEdge) => e.id != edgeId)
  }

  /** Deleting a relation keeps the others joining present persons, and a second deletion does nothing. */
  lemma DeleteEdgeProperties(nodes: seq<FamilyNode>, edges: seq<FamilyEdge>, edgeId: Id)
    ensures Consistent(nodes, edges) ==> Consistent(nodes, DeleteEdge(edges, edgeId))
    ensures DeleteEdge(DeleteEdge(edges, edgeId), edgeId) == DeleteEdge(edges, edgeId)
  {
    FilterIdempotent(edges, (e: FamilyEdge) => e.id != edgeId);
  }

  /** Deleting a relation keeps the order of the others: it works on each part of the list alone. */
  lemma DeleteEdgeInOrder(a: seq<FamilyEdge>, b: seq<FamilyEdge>, edgeId: Id)
    ensures DeleteEdge(a + b, edgeId) == DeleteEdge(a, edgeId) + DeleteEdge(b, edgeId)
    ensures forall e :: DeleteEdge([e], edgeId) == if e.id == edgeId then [] else [e]
  {
    var keep := (e: FamilyEdge) => e.id != edgeId;
    FilterAppend(a, b, keep);
    forall e ensures DeleteEdge([e], edgeId) == if e.id == edgeId then [] else [e] {
      FilterOne(e, keep);
    }
  }

  /** `Partial<FamilyNode>`: the fields an update overwrites. */
  datatype NodePatch = NodePatch(id: Option<Id>, name: Option<string>, gender: Option<Gender>,
                                 x: Option<real>, y: Option<real>)

  function Or<T>(o: Option<T>, default: T): T
  {
    if o.Some? then o.value else default
  }

  /** `{ ...n, ...updates }`. */
  function Patch(n: FamilyNode, p: NodePatch): FamilyNode
  {
    FamilyNode(Or(p.id, n.id), Or(p.name, n.name), Or(p.gender, n.gender), Or(p.x, n.x), Or(p.y, n.y))
  }

  /** `updateNode`: the persons carrying `id` are patched, every other person is left as it was. */
  function UpdateNode(nodes: seq<FamilyNode>, id: Id, patch: NodePatch): (r: seq<FamilyNode>)
    ensures |r| == |nodes|
    ensures forall k :: 0 <= k < |nodes| && nodes[k].id != id ==> r[k] == nodes[k]
    ensures forall k :: 0 <= k < |nodes| && nodes[k].id == id ==> r[k] == Patch(nodes[k], patch)
  {
    seq(|nodes|, k requires 0 <= k < |nodes| => if nodes[k].id == id then Patch(nodes[k], patch) else nodes[k])
  }

  /**
   * An update that does not rename keeps every id in place, so relations
   * still join present persons, and applying it twice is applying it once.
   */
  lemma UpdateNodeProperties(nodes: seq<FamilyNode>, edges: seq<FamilyEdge>, id: Id, patch: NodePatch)
    requires patch.id.None? || patch.id == Some(id)
    ensures NodeIds(UpdateNode(nodes, id, patch)) == NodeIds(nodes)
    ensures Consistent(nodes, edges) ==> Consistent(UpdateNode(nodes, id, patch), edges)
    ensures UpdateNode(UpdateNode(nodes, id, patch), id, patch) == UpdateNode(nodes, id, patch)
  {
    assert NodeIds(UpdateNode(nodes, id, patch)) == NodeIds(nodes);
  }

  // ---------------------------------------------------------------------
  // Relations between two persons

  /**
   * The edge is of `kind` and runs from `src` to `tgt`; a spouse edge
   * also counts when it runs the other way.
   */
  predicate Joins(e: FamilyEdge, kind: EdgeType, src: Id, tgt: Id)
  {
    e.kind == kind && ((e.source == src && e.target == tgt) || (kind == Spouse && e.source == tgt && e.target == src))
  }

  predicate EdgeExists(edges: seq<FamilyEdge>, kind: EdgeType, src: Id, tgt: Id)
  {
    exists e :: e in edges && Joins(e, kind, src, tgt)
  }

  /** A spouse edge joins `a` and `b`, in either direction. */
  predicate AreSpouses(edges: seq<FamilyEdge>, a: Id, b: Id)
  {
    EdgeExists(edges, Spouse, a, b)
  }

  /** The editor's spouse test agrees with the spouse lists of the relationship engine. */
  lemma AreSpousesAdjacency(edges: seq<FamilyEdge>, a: Id, b: Id)
    ensures AreSpouses(edges, a, b) <==> b in Adjacency.SpousesOf(edges, a)
  {
    Adjacency.SpouseSymmetry(edges, a, b);
    if AreSpouses(edges, a, b) {
      var e :| e in edges && Joins(e, Spouse, a, b);
      var k :| 0 <= k < |edges| && edges[k] == e;
    }
    if Adjacency.IsSpouseEdge(edges, a, b) {
      var k :| 0 <= k < |edges| && edges[k].kind == Spouse && edges[k].source == a && edges[k].target == b;
      assert Joins(edges[k], Spouse, a, b);
    }
    if Adjacency.IsSpouseEdge(edges, b, a) {
      var k :| 0 <= k < |edges| && edges[k].kind == Spouse && edges[k].source == b && edges[k].target == a;
      assert Joins(edges[k], Spouse, a, b);
    }
  }

  /**
   * The sources of the lineage edges into `child`, except `newParent`:
   * the other parents of the child, once per lineage edge.
   */
  function ExistingParents(edges: seq<FamilyEdge>, child: Id, newParent: Id): (r: seq<Id>)
    ensures forall q :: q in r <==> q != newParent && Adjacency.IsLineage(edges, q, child)
  {
    var r := Filter(Adjacency.ParentsOf(edges, child), q => q != newParent);
    assert forall q :: q in r <==> q != newParent && Adjacency.IsLineage(edges, q, child) by {
      forall q ensures q in r <==> q != newParent && Adjacency.IsLineage(edges, q, child) {
        Adjacency.ParentChildDuality(edges, q, child);
      }
    }
    r
  }

  /** The persons of `qs` that `p` is not yet spouse-linked to. */
  function NotSpouses(edges: seq<FamilyEdge>, p: Id, qs: seq<Id>): (r: seq<Id>)
    ensures forall q :: q in r <==> q in qs && !AreSpouses(edges, p, q)
  {
    Filter(qs, q => !AreSpouses(edges, p, q))
  }

  function Targets(edges: seq<FamilyEdge>): (r: seq<Id>)
    ensures |r| == |edges| && forall k :: 0 <= k < |edges| ==> r[k] == edges[k].target
  {
    seq(|edges|, k requires 0 <= k < |edges| => edges[k].target)
  }

  // ---------------------------------------------------------------------
  // Auto-spouse

  /** The spouse edges appended after position `n` all run from `p` to one of `parents`. */
  ghost predicate SpouseLinks(edges: seq<FamilyEdge>, n: nat, p: Id, parents: seq<Id>)
    requires n <= |edges|
  {
    forall k :: n <= k < |edges| ==> edges[k].kind == Spouse && edges[k].source == p && edges[k].target in parents
  }

  /**
   * The `forEach` that follows a new lineage connection:
   * for each other parent, in turn, a spouse edge from the new parent is
   * appended unless the growing list already links the two. Each appended
   * edge was needed when it was added, and afterwards every listed parent
   * is linked to `p`. The appended edges go, in order, to the parents that
   * `edges` did not link to `p`, each once, at its first occurrence.
   */
  method LinkCoParents(edges: seq<FamilyEdge>, p: Id, parents: seq<Id>, autoId: nat -> Id)
    returns (edges': seq<FamilyEdge>)
    ensures |edges'| >= |edges| && edges'[..|edges|] == edges
    ensures SpouseLinks(edges', |edges|, p, parents)
    ensures forall k :: |edges| <= k < |edges'| ==> !AreSpouses(edges'[..k], p, edges'[k].target)
    ensures forall q :: q in parents ==> AreSpouses(edges', p, q)
    ensures Targets(edges'[|edges|..]) == Distinct(NotSpouses(edges, p, parents))
  {
    edges' := edges;
    for i := 0 to |parents|
      invariant |edges'| >= |edges| && edges'[..|edges|] == edges
      invariant SpouseLinks(edges', |edges|, p, parents[..i])
      invariant forall k :: |edges| <= k < |edges'| ==> !AreSpouses(edges'[..k], p, edges'[k].target)
      invariant forall q :: q in parents[..i] ==> AreSpouses(edges', p, q)
      invariant Targets(edges'[|edges|..]) == Distinct(NotSpouses(edges, p, parents[..i]))
    {
      var q := parents[i];
      var areSpouses := exists e :: e in edges' && e.kind == Spouse &&
                                    ((e.source == p && e.target == q) || (e.source == q && e.target == p));
      assert areSpouses == AreSpouses(edges', p, q);
      LinkOrder(edges, edges', p, parents, i);
      if !areSpouses {
        var e := FamilyEdge(autoId(|edges'| - |edges|), p, q, Spouse);
        LinkAppend(edges, edges', e, p, parents, i);
        AppendedTargets(edges, edges', e);
        edges' := edges' + [e];
      } else {
        LinkSkip(edges, edges', p, parents, i);
      }
    }
    TakeAll(parents);
  }

  /**
   * The next parent is already linked in the growing list exactly when the
   * old list links it or the pass has linked it; so the targets grow by
   * that parent exactly when the growing list does not link it.
   */
  lemma LinkOrder(edges: seq<FamilyEdge>, before: seq<FamilyEdge>, p: Id, parents: seq<Id>, i: nat)
    requires i < |parents|
    requires |before| >= |edges| && before[..|edges|] == edges
    requires SpouseLinks(before, |edges|, p, parents[..i])
    requires Targets(before[|edges|..]) == Distinct(NotSpouses(edges, p, parents[..i]))
    ensures AreSpouses(before, p, parents[i]) ==>
              Distinct(NotSpouses(edges, p, parents[..i + 1])) == Distinct(NotSpouses(edges, p, parents[..i]))
    ensures !AreSpouses(before, p, parents[i]) ==>
              Distinct(NotSpouses(edges, p, parents[..i + 1])) == Distinct(NotSpouses(edges, p, parents[..i])) + [parents[i]]
  {
    var q := parents[i];
    var ns := NotSpouses(edges, p, parents[..i]);
    assert parents[..i + 1] == parents[..i] + [q];
    NotSpousesSnoc(edges, p, parents[..i], q);
    GrownSpouses(edges, before, p, parents[..i], q);
    if AreSpouses(edges, p, q) {
      assert NotSpouses(edges, p, parents[..i + 1]) == ns;
    } else {
      assert NotSpouses(edges, p, parents[..i + 1]) == ns + [q];
      DistinctSnoc(ns, q);
    }
  }

  /** Beyond the old list, the growing list only links `p` to the targets it appended. */
  lemma GrownSpouses(edges: seq<FamilyEdge>, before: seq<FamilyEdge>, p: Id, ps: seq<Id>, q: Id)
    requires |before| >= |edges| && before[..|edges|] == edges
    requires SpouseLinks(before, |edges|, p, ps)
    ensures AreSpouses(before, p, q) <==> AreSpouses(edges, p, q) || q in Targets(before[|edges|..])
  {
    var ts := Targets(before[|edges|..]);
    if AreSpouses(before, p, q) && !AreSpouses(edges, p, q) {
      var e :| e in before && Joins(e, Spouse, p, q);
      var k :| 0 <= k < |before| && before[k] == e;
      assert ts[k - |edges|] == q;
    }
    if AreSpouses(edges, p, q) {
      var e :| e in edges && Joins(e, Spouse, p, q);
      var k :| 0 <= k < |edges| && edges[k] == e;
      assert before[k] == before[..|edges|][k];
    }
    if q in ts {
      var j :| 0 <= j < |ts| && ts[j] == q;
      assert Joins(before[|edges| + j], Spouse, p, q);
    }
  }

  /** A parent the growing list already links to `p` adds nothing. */
  lemma LinkSkip(edges: seq<FamilyEdge>, before: seq<FamilyEdge>, p: Id, parents: seq<Id>, i: nat)
    requires i < |parents| && AreSpouses(before, p, parents[i])
    requires |before| >= |edges|
    requires SpouseLinks(before, |edges|, p, parents[..i])
    requires forall q :: q in parents[..i] ==> AreSpouses(before, p, q)
    ensures SpouseLinks(before, |edges|, p, parents[..i + 1])
    ensures forall q :: q in parents[..i + 1] ==> AreSpouses(before, p, q)
  {
    assert parents[..i + 1] == parents[..i] + [parents[i]];
  }

  /** A parent the growing list does not link to `p` gets one spouse edge, which was needed. */
  lemma LinkAppend(edges: seq<FamilyEdge>, before: seq<FamilyEdge>, e: FamilyEdge, p: Id, parents: seq<Id>, i: nat)
    requires i < |parents| && !AreSpouses(before, p, parents[i])
    requires |before| >= |edges| && before[..|edges|] == edges
    requires SpouseLinks(before, |edges|, p, parents[..i])
    requires forall k :: |edges| <= k < |before| ==> !AreSpouses(before[..k], p, before[k].target)
    requires forall q :: q in parents[..i] ==> AreSpouses(before, p, q)
    requires e.kind == Spouse && e.source == p && e.target == parents[i]
    ensures (before + [e])[..|edges|] == edges
    ensures SpouseLinks(before + [e], |edges|, p, parents[..i + 1])
    ensures forall k :: |edges| <= k < |before + [e]| ==> !AreSpouses((before + [e])[..k], p, (before + [e])[k].target)
    ensures forall q :: q in parents[..i + 1] ==> AreSpouses(before + [e], p, q)
  {
    var after := before + [e];
    assert parents[..i + 1] == parents[..i] + [parents[i]];
    SpouseLinksSnoc(before, |edges|, p, parents[..i], e);
    forall q | q in parents[..i + 1] ensures AreSpouses(after, p, q) {
      if q == parents[i] {
        assert Joins(after[|before|], Spouse, p, q);
      } else {
        SpousesGrow(before, e, p, q);
      }
    }
    forall k | |edges| <= k < |after| ensures !AreSpouses(after[..k], p, after[k].target) {
      if k < |before| {
        assert after[..k] == before[..k];
      } else {
        assert after[..k] == before;
      }
    }
  }

  /** Appending an edge keeps every spouse pair. */
  lemma SpousesGrow(before: seq<FamilyEdge>, e: FamilyEdge, p: Id, q: Id)
    requires AreSpouses(before, p, q)
    ensures AreSpouses(before + [e], p, q)
  {
    var d :| d in before && Joins(d, Spouse, p, q);
    assert d in before + [e];
  }

  /**
   * The `forEach` that follows a top-port creation: the new parent is linked to each other
   * parent, in turn, unless the list as it was before the creation already
   * links the two. The appended targets are exactly those parents.
   */
  method LinkNewParent(prev: seq<FamilyEdge>, edges: seq<FamilyEdge>, p: Id, parents: seq<Id>, autoId: nat -> Id)
    returns (edges': seq<FamilyEdge>)
    ensures |edges'| >= |edges| && edges'[..|edges|] == edges
    ensures SpouseLinks(edges', |edges|, p, parents)
    ensures Targets(edges'[|edges|..]) == NotSpouses(prev, p, parents)
  {
    edges' := edges;
    for i := 0 to |parents|
      invariant |edges'| >= |edges| && edges'[..|edges|] == edges
      invariant SpouseLinks(edges', |edges|, p, parents[..i])
      invariant Targets(edges'[|edges|..]) == NotSpouses(prev, p, parents[..i])
    {
      var q := parents[i];
      var areSpouses := exists e :: e in prev && e.kind == Spouse &&
                                    ((e.source == p && e.target == q) || (e.source == q && e.target == p));
      assert areSpouses == AreSpouses(prev, p, q);
      if !areSpouses {
        var e := FamilyEdge(autoId(|edges'| - |edges|), p, q, Spouse);
        NewParentAppend(prev, edges, edges', e, p, parents, i);
        edges' := edges' + [e];
      } else {
        NewParentSkip(prev, edges, edges', p, parents, i);
      }
    }
    TakeAll(parents);
  }

  /** A parent the old list already links to `p` adds nothing. */
  lemma NewParentSkip(prev: seq<FamilyEdge>, edges: seq<FamilyEdge>, before: seq<FamilyEdge>,
                      p: Id, parents: seq<Id>, i: nat)
    requires i < |parents| && AreSpouses(prev, p, parents[i])
    requires |before| >= |edges|
    requires SpouseLinks(before, |edges|, p, parents[..i])
    requires Targets(before[|edges|..]) == NotSpouses(prev, p, parents[..i])
    ensures SpouseLinks(before, |edges|, p, parents[..i + 1])
    ensures Targets(before[|edges|..]) == NotSpouses(prev, p, parents[..i + 1])
  {
    assert parents[..i + 1] == parents[..i] + [parents[i]];
    NotSpousesSnoc(prev, p, parents[..i], parents[i]);
  }

  /** A parent the old list does not link to `p` gets one spouse edge. */
  lemma NewParentAppend(prev: seq<FamilyEdge>, edges: seq<FamilyEdge>, before: seq<FamilyEdge>, e: FamilyEdge,
                        p: Id, parents: seq<Id>, i: nat)
    requires i < |parents| && !AreSpouses(prev, p, parents[i])
    requires |before| >= |edges| && before[..|edges|] == edges
    requires SpouseLinks(before, |edges|, p, parents[..i])
    requires Targets(before[|edges|..]) == NotSpouses(prev, p, parents[..i])
    requires e.kind == Spouse && e.source == p && e.target == parents[i]
    ensures (before + [e])[..|edges|] == edges
    ensures SpouseLinks(before + [e], |edges|, p, parents[..i + 1])
    ensures Targets((before + [e])[|edges|..]) == NotSpouses(prev, p, parents[..i + 1])
  {
    assert parents[..i + 1] == parents[..i] + [parents[i]];
    NotSpousesSnoc(prev, p, parents[..i], parents[i]);
    AppendedTargets(edges, before, e);
    SpouseLinksSnoc(before, |edges|, p, parents[..i], e);
  }

  lemma AppendedTargets(edges: seq<FamilyEdge>, before: seq<FamilyEdge>, e: FamilyEdge)
    requires |before| >= |edges| && before[..|edges|] == edges
    ensures (before + [e])[..|edges|] == edges
    ensures Targets((before + [e])[|edges|..]) == Targets(before[|edges|..]) + [e.target]
  {
    assert (before + [e])[|edges|..] == before[|edges|..] + [e];
    TargetsSnoc(before[|edges|..], e);
  }

  lemma SpouseLinksSnoc(before: seq<FamilyEdge>, n: nat, p: Id, parents: seq<Id>, e: FamilyEdge)
    requires n <= |before| && SpouseLinks(before, n, p, parents)
    requires e.kind == Spouse && e.source == p
    ensures SpouseLinks(before + [e], n, p, parents + [e.target])
  {
  }

  lemma NotSpousesSnoc(edges: seq<FamilyEdge>, p: Id, qs: seq<Id>, q: Id)
    ensures NotSpouses(edges, p, qs + [q]) == NotSpouses(edges, p, qs) + (if AreSpouses(edges, p, q) then [] else [q])
  {
    assert (qs + [q])[..|qs|] == qs;
  }

  lemma TargetsSnoc(es: seq<FamilyEdge>, e: FamilyEdge)
    ensures Targets(es + [e]) == Targets(es) + [e.target]
  {
  }

  // ---------------------------------------------------------------------
  // Creating a person from a port

  /** Where the created person goes: above, below, left of or right of the source. */
  function NewNodePosition(n: FamilyNode, port: Port): Point
  {
    match port
    case Top => Point(n.x, n.y - LEVEL_HEIGHT)
    case Bottom => Point(n.x, n.y + LEVEL_HEIGHT)
    case Left => Point(n.x - SIBLING_GAP, n.y)
    case Right => Point(n.x + SIBLING_GAP, n.y)
  }

  /** The relation to the created person: its parent (top), child (bottom) or spouse (sides). */
  function ConnectingEdge(port: Port, sourceId: Id, newId: Id): FamilyEdge
  {
    var id := "e-" + newId;
    match port
    case Top => FamilyEdge(id, newId, sourceId, Lineage)
    case Bottom => FamilyEdge(id, sourceId, newId, Lineage)
    case Left => FamilyEdge(id, newId, sourceId, Spouse)
    case Right => FamilyEdge(id, sourceId, newId, Spouse)
  }

  /**
   * Once the connecting edge is in the tree, the created person is a
   * parent of the source (top), a child of it (bottom) or a spouse of it
   * (left, right), in the relationship engine's own terms.
   */
  lemma ConnectingEdgeRelates(edges: seq<FamilyEdge>, port: Port, sourceId: Id, newId: Id)
    requires ConnectingEdge(port, sourceId, newId) in edges
    ensures port == Top ==> newId in Adjacency.ParentsOf(edges, sourceId)
    ensures port == Bottom ==> newId in Adjacency.ChildrenOf(edges, sourceId)
    ensures port == Left || port == Right ==> newId in Adjacency.SpousesOf(edges, sourceId)
  {
    var e := ConnectingEdge(port, sourceId, newId);
    var k :| 0 <= k < |edges| && edges[k] == e;
    match port {
      case Top => Adjacency.ParentChildDuality(edges, newId, sourceId);
      case Bottom => Adjacency.ParentChildDuality(edges, sourceId, newId);
      case Left => Adjacency.SpouseSymmetry(edges, newId, sourceId);
      case Right => Adjacency.SpouseSymmetry(edges, sourceId, newId);
    }
  }

  /**
   * The relations after creating person `newId` from `port` of `sourceId`:
   * the connecting edge is appended, and for the top port a spouse edge
   * follows to each other parent of the source that the old list did not
   * already link, in the order of those parents.
   */
  ghost predicate CreatedEdges(prev: seq<FamilyEdge>, port: Port, sourceId: Id, newId: Id, edges': seq<FamilyEdge>)
  {
    var n := |prev| + 1;
    |edges'| >= n && edges'[..n] == prev + [ConnectingEdge(port, sourceId, newId)] &&
    (port != Top ==> |edges'| == n) &&
    (port == Top ==>
       SpouseLinks(edges', n, newId, ExistingParents(prev, sourceId, newId)) &&
       Targets(edges'[n..]) == NotSpouses(prev, newId, ExistingParents(prev, sourceId, newId)))
  }

  /**
   * What `autoCreateNode(sourceId, port)` does: nothing when
   * the source is not in the tree; otherwise the new person is appended at
   * its position, the relations grow as `CreatedEdges` says, and the new
   * person is selected.
   */
  ghost predicate AutoCreated(s: Editor, sourceId: Id, port: Port, newId: Id, s': Editor)
  {
    match FindNode(s.nodes, sourceId)
    case None => s' == s
    case Some(src) =>
      var pos := NewNodePosition(src, port);
      s'.nodes == s.nodes + [FamilyNode(newId, "New Person", Neutral, pos.x, pos.y)] &&
      s'.rootId == s.rootId && s'.selected == Some(newId) && s'.connStart == s.connStart &&
      CreatedEdges(s.edges, port, sourceId, newId, s'.edges)
  }

  /**
   * `autoCreateNode`. A top-port creation leaves the new parent linked as
   * spouse to every other parent of the source, and a tree whose relations
   * join present persons keeps that property.
   */
  method AutoCreateNode(s: Editor, sourceId: Id, port: Port, newId: Id, autoId: nat -> Id) returns (s': Editor)
    ensures AutoCreated(s, sourceId, port, newId, s')
    ensures FindNode(s.nodes, sourceId).Some? && port == Top ==>
              forall q :: q != newId && Adjacency.IsLineage(s.edges, q, sourceId) ==> AreSpouses(s'.edges, newId, q)
    ensures Consistent(s.nodes, s.edges) ==> Consistent(s'.nodes, s'.edges)
  {
    var found := FindNode(s.nodes, sourceId);
    if found.None? {
      return s;
    }
    var sourceNode := found.value;
    var pos := NewNodePosition(sourceNode, port);
    var nodes' := s.nodes + [FamilyNode(newId, "New Person", Neutral, pos.x, pos.y)];
    var edges := AddCreatedEdges(s.edges, port, sourceId, newId, autoId);
    s' := s.(nodes := nodes', edges := edges, selected := Some(newId));
    if Consistent(s.nodes, s.edges) {
      assert sourceId in NodeIds(s.nodes) by {
        var k :| 0 <= k < |s.nodes| && s.nodes[k] == sourceNode && sourceNode.id == sourceId;
        assert NodeIds(s.nodes)[k] == sourceId;
      }
      CreatedConsistent(s.nodes, s.edges, nodes'[|s.nodes|], nodes', edges, port, sourceId, newId);
    }
  }

  /** The `setEdges` updater of `autoCreateNode`. */
  method AddCreatedEdges(prev: seq<FamilyEdge>, port: Port, sourceId: Id, newId: Id, autoId: nat -> Id)
    returns (edges': seq<FamilyEdge>)
    ensures CreatedEdges(prev, port, sourceId, newId, edges')
    ensures port == Top ==>
              forall q :: q != newId && Adjacency.IsLineage(prev, q, sourceId) ==> AreSpouses(edges', newId, q)
  {
    edges' := prev + [ConnectingEdge(port, sourceId, newId)];
    if port == Top {
      var parents := ExistingParents(prev, sourceId, newId);
      var edges := edges';
      edges' := LinkNewParent(prev, edges, newId, parents, autoId);
      assert edges'[..|prev| + 1][..|prev|] == prev;
      NewParentLinked(prev, edges', newId, sourceId, parents);
    }
  }

  /** The new parent ends up spouse-linked to every other parent of the child. */
  lemma NewParentLinked(prev: seq<FamilyEdge>, edges': seq<FamilyEdge>, newId: Id, sourceId: Id, parents: seq<Id>)
    requires |edges'| > |prev| && edges'[..|prev|] == prev
    requires parents == ExistingParents(prev, sourceId, newId)
    requires Targets(edges'[|prev| + 1..]) == NotSpouses(prev, newId, parents)
    requires SpouseLinks(edges', |prev| + 1, newId, parents)
    ensures forall q :: q != newId && Adjacency.IsLineage(prev, q, sourceId) ==> AreSpouses(edges', newId, q)
  {
    forall q | q != newId && Adjacency.IsLineage(prev, q, sourceId) ensures AreSpouses(edges', newId, q) {
      if AreSpouses(prev, newId, q) {
        SpousesKept(prev, edges', newId, q);
      } else {
        assert q in NotSpouses(prev, newId, parents);
        AddedSpouse(edges', |prev| + 1, newId, parents, q);
      }
    }
  }

  /** Extending a list of relations keeps every marriage it records. */
  lemma SpousesKept(prev: seq<FamilyEdge>, edges': seq<FamilyEdge>, p: Id, q: Id)
    requires |edges'| >= |prev| && edges'[..|prev|] == prev && AreSpouses(prev, p, q)
    ensures AreSpouses(edges', p, q)
  {
    var e :| e in prev && Joins(e, Spouse, p, q);
    var k :| 0 <= k < |prev| && prev[k] == e;
    assert edges'[k] == e;
  }

  /** A parent among the appended targets is spouse-linked by the appended edge. */
  lemma AddedSpouse(edges': seq<FamilyEdge>, n: nat, p: Id, parents: seq<Id>, q: Id)
    requires n <= |edges'| && SpouseLinks(edges', n, p, parents)
    requires q in Targets(edges'[n..])
    ensures AreSpouses(edges', p, q)
  {
    var j :| 0 <= j < |edges'[n..]| && Targets(edges'[n..])[j] == q;
    assert edges'[n + j] == edges'[n..][j];
    assert Joins(edges'[n + j], Spouse, p, q);
  }

  /** Creating a person keeps every relation joining two persons of the tree. */
  lemma CreatedConsistent(nodes: seq<FamilyNode>, prev: seq<FamilyEdge>, m: FamilyNode, nodes': seq<FamilyNode>,
                          edges': seq<FamilyEdge>, port: Port, sourceId: Id, newId: Id)
    requires Consistent(nodes, prev) && sourceId in NodeIds(nodes)
    requires nodes' == nodes + [m] && m.id == newId
    requires CreatedEdges(prev, port, sourceId, newId, edges')
    ensures Consistent(nodes', edges')
  {
    assert NodeIds(nodes') == NodeIds(nodes) + [newId];
    forall e | e in edges' ensures e.source in NodeIds(nodes') && e.target in NodeIds(nodes') {
      var k :| 0 <= k < |edges'| && edges'[k] == e;
      CreatedEdgeEnds(nodes, prev, edges', port, sourceId, newId, k);
    }
  }

  lemma CreatedEdgeEnds(nodes: seq<FamilyNode>, prev: seq<FamilyEdge>, edges': seq<FamilyEdge>,
                        port: Port, sourceId: Id, newId: Id, k: nat)
    requires Consistent(nodes, prev) && sourceId in NodeIds(nodes)
    requires CreatedEdges(prev, port, sourceId, newId, edges')
    requires k < |edges'|
    ensures var ids := NodeIds(nodes) + [newId];
            edges'[k].source in ids && edges'[k].target in ids
  {
    var e := edges'[k];
    if k <= |prev| {
      assert e == (prev + [ConnectingEdge(port, sourceId, newId)])[k];
      if k < |prev| {
        assert e in prev;
      }
    } else {
      AddedEdgeFromParent(prev, port, sourceId, newId, edges', k);
      var j :| 0 <= j < |prev| && prev[j].kind == Lineage && prev[j].source == e.target && prev[j].target == sourceId;
      assert prev[j] in prev;
    }
  }

  /** Each spouse edge added after the connecting edge runs from the new person to a parent of the source. */
  lemma AddedEdgeFromParent(prev: seq<FamilyEdge>, port: Port, sourceId: Id, newId: Id, edges': seq<FamilyEdge>, k: nat)
    requires CreatedEdges(prev, port, sourceId, newId, edges')
    requires |prev| + 1 <= k < |edges'|
    ensures edges'[k].source == newId && Adjacency.IsLineage(prev, edges'[k].target, sourceId)
  {
    assert edges'[k].target in ExistingParents(prev, sourceId, newId);
  }

  /**
   * The creation tests spouse links against the list as it was before, not
   * the growing one: a parent recorded by two lineage edges to the child is
   * linked to the new parent twice.
   */
  lemma CreationLinksRepeatedParentTwice(prev: seq<FamilyEdge>, q: Id, child: Id, newParent: Id)
    requires |prev| == 2 && q != newParent
    requires forall k :: 0 <= k < 2 ==> prev[k].kind == Lineage && prev[k].source == q && prev[k].target == child
    ensures NotSpouses(prev, newParent, ExistingParents(prev, child, newParent)) == [q, q]
  {
    ParentRecordedTwice(prev, q, child);
    NewParentNotRecorded(prev, child, newParent);
    NoSpouseEdges(prev, newParent, [q, q]);
  }

  /** Two lineage edges from the same parent list that parent twice. */
  lemma ParentRecordedTwice(prev: seq<FamilyEdge>, q: Id, child: Id)
    requires |prev| == 2
    requires forall k :: 0 <= k < 2 ==> prev[k].kind == Lineage && prev[k].source == q && prev[k].target == child
    ensures Adjacency.ParentsOf(prev, child) == [q, q]
    ensures forall e :: e in prev ==> e.kind == Lineage
  {
    assert prev[..1][..0] == [];
    assert Adjacency.ParentsOf(prev[..1], child) == [q];
    forall e | e in prev ensures e.kind == Lineage {
      assert e == prev[0] || e == prev[1];
    }
  }

  /** When the new parent is not among the recorded ones, every recorded parent is kept, in order. */
  lemma NewParentNotRecorded(edges: seq<FamilyEdge>, child: Id, newParent: Id)
    requires newParent !in Adjacency.ParentsOf(edges, child)
    ensures ExistingParents(edges, child, newParent) == Adjacency.ParentsOf(edges, child)
  {
    FilterAll(Adjacency.ParentsOf(edges, child), q => q != newParent);
  }

  /** Without spouse edges no candidate is filtered out. */
  lemma NoSpouseEdges(edges: seq<FamilyEdge>, p: Id, qs: seq<Id>)
    requires forall e :: e in edges ==> e.kind == Lineage
    ensures NotSpouses(edges, p, qs) == qs
  {
    FilterAll(qs, q => !AreSpouses(edges, p, q));
  }

  // ---------------------------------------------------------------------
  // Connecting two persons

  /** The relation a drag between two ports asks for. */
  datatype Connection = Connection(kind: EdgeType, src: Id, tgt: Id)

  predicate IsSide(p: Port)
  {
    p == Left || p == Right
  }

  /**
   * Side to side makes a spouse edge from the start; bottom
   * to top a lineage edge from the start; top to bottom a lineage edge from
   * the target; any other pair of ports makes nothing.
   */
  function ConnectionFor(start: Anchor, targetId: Id, targetPort: Port): Option<Connection>
  {
    if IsSide(start.port) && IsSide(targetPort) then Some(Connection(Spouse, start.nodeId, targetId))
    else if start.port == Bottom && targetPort == Top then Some(Connection(Lineage, start.nodeId, targetId))
    else if start.port == Top && targetPort == Bottom then Some(Connection(Lineage, targetId, start.nodeId))
    else None
  }

  /**
   * The parent of a lineage connection is always the person whose bottom
   * port was used, and the child the one whose top port was used; which end
   * the drag started from does not matter. A spouse connection dragged the
   * other way joins the same pair, reversed.
   */
  lemma ConnectionDirection(a: Id, pa: Port, b: Id, pb: Port)
    ensures var c := ConnectionFor(Anchor(a, pa), b, pb);
            c.Some? && c.value.kind == Lineage ==>
              (c.value.src == a && pa == Bottom && c.value.tgt == b && pb == Top) ||
              (c.value.src == b && pb == Bottom && c.value.tgt == a && pa == Top)
    ensures var c, c' := ConnectionFor(Anchor(a, pa), b, pb), ConnectionFor(Anchor(b, pb), a, pa);
            (c.Some? <==> c'.Some?) &&
            (c.Some? && c.value.kind == Lineage ==> c' == c) &&
            (c.Some? && c.value.kind == Spouse ==> c' == Some(Connection(Spouse, c.value.tgt, c.value.src)))
  {
  }

  /** A spouse pair is the same pair whichever way round it is asked about. */
  lemma SpouseExistsEitherWay(edges: seq<FamilyEdge>, a: Id, b: Id)
    ensures EdgeExists(edges, Spouse, a, b) <==> EdgeExists(edges, Spouse, b, a)
  {
    if EdgeExists(edges, Spouse, a, b) {
      var e :| e in edges && Joins(e, Spouse, a, b);
      assert Joins(e, Spouse, b, a);
    }
    if EdgeExists(edges, Spouse, b, a) {
      var e :| e in edges && Joins(e, Spouse, b, a);
      assert Joins(e, Spouse, a, b);
    }
  }

  /**
   * What adding the connection `c` does to the relations (in the editor and
   * in the stand-alone copy alike): nothing when an edge of the
   * same kind already joins the pair (either way round for spouses).
   * Otherwise the new edge is appended, once; for a lineage edge it is
   * followed by spouse edges from the parent, each to another parent of
   * the child, each needed when it was added, so that afterwards the new
   * parent is spouse-linked to every other parent of the child.
   */
  ghost predicate Connected(edges: seq<FamilyEdge>, c: Connection, newId: Id, edges': seq<FamilyEdge>)
  {
    (EdgeExists(edges, c.kind, c.src, c.tgt) ==> edges' == edges) &&
    (!EdgeExists(edges, c.kind, c.src, c.tgt) ==>
       |edges'| > |edges| && edges'[..|edges| + 1] == edges + [FamilyEdge(newId, c.src, c.tgt, c.kind)] &&
       (c.kind == Spouse ==> |edges'| == |edges| + 1) &&
       (forall k :: |edges| < k < |edges'| ==>
          edges'[k].kind == Spouse && edges'[k].source == c.src &&
          edges'[k].target != c.src && Adjacency.IsLineage(edges, edges'[k].target, c.tgt) &&
          !AreSpouses(edges'[..k], c.src, edges'[k].target)) &&
       (c.kind == Lineage ==>
          forall q :: q != c.src && Adjacency.IsLineage(edges, q, c.tgt) ==> AreSpouses(edges', c.src, q)) &&
       (c.kind == Lineage ==>
          var newEdges := edges + [FamilyEdge(newId, c.src, c.tgt, c.kind)];
          Targets(edges'[|newEdges|..]) == Distinct(NotSpouses(newEdges, c.src, ExistingParents(newEdges, c.tgt, c.src)))))
  }

  /** After a connection, an edge of the asked-for kind joins the pair. */
  lemma ConnectedJoins(edges: seq<FamilyEdge>, c: Connection, newId: Id, edges': seq<FamilyEdge>)
    requires Connected(edges, c, newId, edges')
    ensures EdgeExists(edges', c.kind, c.src, c.tgt)
  {
    if !EdgeExists(edges, c.kind, c.src, c.tgt) {
      assert edges'[|edges|] == edges'[..|edges| + 1][|edges|];
      assert Joins(edges'[|edges|], c.kind, c.src, c.tgt);
    }
  }

  /** Adds the connection `c` to the relations, as the `setEdges` updater of `handlePortMouseUp` does. */
  method ConnectEdges(edges: seq<FamilyEdge>, c: Connection, newId: Id, autoId: nat -> Id)
    returns (edges': seq<FamilyEdge>)
    ensures Connected(edges, c, newId, edges')
  {
    var exists_ := exists e :: e in edges && e.kind == c.kind &&
                               ((e.source == c.src && e.target == c.tgt) ||
                                (c.kind == Spouse && e.source == c.tgt && e.target == c.src));
    assert exists_ == EdgeExists(edges, c.kind, c.src, c.tgt);
    if exists_ {
      return edges;
    }
    var newEdges := edges + [FamilyEdge(newId, c.src, c.tgt, c.kind)];
    edges' := newEdges;
    if c.kind == Lineage {
      var parents := ExistingParents(newEdges, c.tgt, c.src);
      edges' := LinkCoParents(newEdges, c.src, parents, autoId);
      LineageFacts(edges, c, newId, parents, edges');
    }
  }

  lemma LineageFacts(edges: seq<FamilyEdge>, c: Connection, newId: Id, parents: seq<Id>, edges': seq<FamilyEdge>)
    requires c.kind == Lineage
    requires var newEdges := edges + [FamilyEdge(newId, c.src, c.tgt, c.kind)];
             parents == ExistingParents(newEdges, c.tgt, c.src) &&
             |edges'| >= |newEdges| && edges'[..|newEdges|] == newEdges &&
             SpouseLinks(edges', |newEdges|, c.src, parents) &&
             (forall k :: |newEdges| <= k < |edges'| ==> !AreSpouses(edges'[..k], c.src, edges'[k].target)) &&
             (forall q :: q in parents ==> AreSpouses(edges', c.src, q))
    ensures forall k :: |edges| < k < |edges'| ==>
              edges'[k].kind == Spouse && edges'[k].source == c.src &&
              edges'[k].target != c.src && Adjacency.IsLineage(edges, edges'[k].target, c.tgt) &&
              !AreSpouses(edges'[..k], c.src, edges'[k].target)
    ensures forall q :: q != c.src && Adjacency.IsLineage(edges, q, c.tgt) ==> AreSpouses(edges', c.src, q)
  {
    var e := FamilyEdge(newId, c.src, c.tgt, c.kind);
    var newEdges := edges + [e];
    assert edges'[..|edges| + 1] == newEdges;
    OtherParentsKept(edges, e, c.tgt);
  }

  /** Appending an edge from `e.source` leaves the lineage edges of every other parent as they were. */
  lemma OtherParentsKept(edges: seq<FamilyEdge>, e: FamilyEdge, child: Id)
    ensures forall q :: q != e.source ==> (Adjacency.IsLineage(edges + [e], q, child) <==> Adjacency.IsLineage(edges, q, child))
  {
    var newEdges := edges + [e];
    forall q | q != e.source ensures Adjacency.IsLineage(newEdges, q, child) <==> Adjacency.IsLineage(edges, q, child) {
      if Adjacency.IsLineage(newEdges, q, child) {
        var k :| 0 <= k < |newEdges| && newEdges[k].kind == Lineage && newEdges[k].source == q && newEdges[k].target == child;
        assert k < |edges| && edges[k] == newEdges[k];
      }
      if Adjacency.IsLineage(edges, q, child) {
        var k :| 0 <= k < |edges| && edges[k].kind == Lineage && edges[k].source == q && edges[k].target == child;
        assert newEdges[k] == edges[k];
      }
    }
  }

  /**
   * `handlePortMouseUp`: releasing a drag on a port. Not dragging: nothing.
   * The same port of the same person: a person is created from that port.
   * Another port of the same person: nothing. A port of another person:
   * the connection the two ports ask for, if any, is added. In every case
   * the drag ends.
   */
  method HandlePortMouseUp(s: Editor, targetId: Id, targetPort: Port, newId: Id, autoId: nat -> Id)
    returns (s': Editor)
    ensures s'.connStart.None?
    ensures s.connStart.None? ==> s' == s
    ensures s.connStart == Some(Anchor(targetId, targetPort)) ==>
              AutoCreated(s.(connStart := None), targetId, targetPort, newId, s')
    ensures s.connStart.Some? && s.connStart.value.nodeId == targetId && s.connStart.value.port != targetPort ==>
              s' == s.(connStart := None)
    ensures s.connStart.Some? && s.connStart.value.nodeId != targetId ==>
              s'.nodes == s.nodes && s'.rootId == s.rootId && s'.selected == s.selected &&
              match ConnectionFor(s.connStart.value, targetId, targetPort)
              case None => s'.edges == s.edges
              case Some(c) => Connected(s.edges, c, newId, s'.edges)
  {
    if s.connStart.None? {
      return s;
    }
    var start := s.connStart.value;
    var idle := s.(connStart := None);
    if start.nodeId == targetId && start.port == targetPort {
      s' := AutoCreateNode(idle, targetId, targetPort, newId, autoId);
    } else if start.nodeId != targetId {
      var c := ConnectionFor(start, targetId, targetPort);
      if c.Some? {
        var edges' := ConnectEdges(s.edges, c.value, newId, autoId);
        s' := idle.(edges := edges');
      } else {
        s' := idle;
      }
    } else {
      s' := idle;
    }
  }
}
