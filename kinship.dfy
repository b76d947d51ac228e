/**
 * The relationship engine: a breadth-first traversal from the root person
 * over parents, children and spouses (in that order), in which the first
 * discovery of a person fixes the path that person is labelled by.
 */
module Kinship {
  import opened Family
  import opened Lists
  import opened KinshipLabels
  import Adjacency

  /** `labelForPath` with the caller's custom map fixed: the label of a walk for a person of a gender. */
  type Labeller = (seq<Step>, seq<Id>, Gender) -> string

  /** A queue entry: the person reached, the steps taken and the persons passed, root first. */
  datatype Visit = Visit(id: Id, steps: seq<Step>, path: seq<Id>)

  /** The traversal's mutable state: `relationships`, `visited` and `queue`. */
  datatype Traversal = Traversal(relationships: map<Id, string>, visited: set<Id>, queue: seq<Visit>)

  /** One step of a walk: `U` to a parent, `D` to a child, `H` to a spouse; `S` never occurs on a raw walk. */
  predicate Link(edges: seq<FamilyEdge>, a: Id, st: Step, b: Id)
  {
    match st
    case U => b in Adjacency.ParentsOf(edges, a)
    case D => b in Adjacency.ChildrenOf(edges, a)
    case H => b in Adjacency.SpousesOf(edges, a)
    case S => false
  }

  /** `path` starts at `root` and each of `steps` links consecutive persons of it. */
  ghost predicate IsWalk(edges: seq<FamilyEdge>, root: Id, steps: seq<Step>, path: seq<Id>)
  {
    |path| == |steps| + 1 && path[0] == root &&
    forall k :: 0 <= k < |steps| ==> Link(edges, path[k], steps[k], path[k + 1])
  }

  /** `w` records a walk from `root` that ends at `w.id`. */
  ghost predicate WalkTo(edges: seq<FamilyEdge>, root: Id, w: Visit)
  {
    IsWalk(edges, root, w.steps, w.path) && w.path[|w.path| - 1] == w.id
  }

  ghost predicate Reachable(edges: seq<FamilyEdge>, root: Id, v: Id)
  {
    exists w: Visit :: w.id == v && WalkTo(edges, root, w)
  }

  /** Each found person carries a walk from the root to it through distinct, found persons. */
  ghost predicate Walks(edges: seq<FamilyEdge>, root: Id, found: map<Id, Visit>)
  {
    forall v :: v in found ==>
      found[v].id == v && WalkTo(edges, root, found[v]) && NoDup(found[v].path) &&
      forall k :: 0 <= k < |found[v].path| ==> found[v].path[k] in found
  }

  /** Each found person is labelled by the walk it was found along. */
  ghost predicate Labels(nodes: seq<FamilyNode>, labelOf: Labeller,
                         relationships: map<Id, string>, found: map<Id, Visit>)
  {
    relationships.Keys == found.Keys &&
    forall v :: v in found ==>
      relationships[v] == labelOf(found[v].steps, found[v].path, GenderOf(nodes, v))
  }

  /** Each queue entry is the walk recorded for its person. */
  ghost predicate Queued(queue: seq<Visit>, found: map<Id, Visit>)
  {
    forall i :: 0 <= i < |queue| ==> queue[i].id in found && queue[i] == found[queue[i].id]
  }

  /** The traversal invariant shared by the outer loop and each `tryVisit` loop. */
  ghost predicate Recorded(nodes: seq<FamilyNode>, edges: seq<FamilyEdge>, root: Id, labelOf: Labeller,
                           t: Traversal, found: map<Id, Visit>)
  {
    t.visited == found.Keys && root in found && found[root] == Visit(root, [], [root]) &&
    Walks(edges, root, found) && Labels(nodes, labelOf, t.relationships, found) && Queued(t.queue, found)
  }

  /**
   * The breadth-first layering: processed persons lie at most `level` steps
   * out, found ones at most one more, and the queue runs in order of length
   * from `level` on.
   */
  ghost predicate Layered(t: Traversal, found: map<Id, Visit>, done: set<Id>, level: nat)
  {
    done <= found.Keys &&
    (forall v :: v in done ==> |found[v].steps| <= level) &&
    (forall v :: v in found ==> |found[v].steps| <= level + 1) &&
    (forall i :: 0 <= i < |t.queue| ==> level <= |t.queue[i].steps|) &&
    (forall i, j :: 0 <= i < j < |t.queue| ==> |t.queue[i].steps| <= |t.queue[j].steps|)
  }

  /** Every neighbour of a processed person is found, at most one step further out. */
  ghost predicate Closed(edges: seq<FamilyEdge>, found: map<Id, Visit>, done: set<Id>)
    requires done <= found.Keys
  {
    forall u, st, w :: u in done && Link(edges, u, st, w) ==>
      w in found && |found[w].steps| <= |found[u].steps| + 1
  }

  /** The persons waiting in a queue. */
  function Ids(queue: seq<Visit>): set<Id>
  {
    set v | v in queue :: v.id
  }

  lemma IdsAppend(queue: seq<Visit>, v: Visit)
    ensures Ids(queue + [v]) == Ids(queue) + {v.id}
  {
    assert forall x :: x in queue + [v] <==> x in queue || x == v;
  }

  /** Each found person is processed or still waiting in the queue. */
  ghost predicate Pending(t: Traversal, done: set<Id>)
  {
    t.visited <= done + Ids(t.queue)
  }

  /** The persons a traversal can reach: the root and every endpoint of an edge. */
  function Universe(edges: seq<FamilyEdge>, root: Id): set<Id>
  {
    {root} + Adjacency.Endpoints(edges)
  }

  /** The queue entry for `w` reached from `cur` by one more step `st`. */
  function Next(cur: Visit, st: Step, w: Id): (r: Visit)
    ensures r.id == w && |r.steps| == |cur.steps| + 1
  {
    Visit(w, cur.steps + [st], cur.path + [w])
  }

  /** `tryVisit` for one neighbour `w` of `cur`: unless visited, `w` is marked, labelled by the walk through `cur` and queued. */
  function TryVisit(nodes: seq<FamilyNode>, labelOf: Labeller, cur: Visit, st: Step, t: Traversal, w: Id): Traversal
  {
    if w in t.visited then t
    else
      var next := Next(cur, st, w);
      Traversal(t.relationships[w := labelOf(next.steps, next.path, GenderOf(nodes, w))], t.visited + {w}, t.queue + [next])
  }

  /**
   * `tryVisit` over one neighbour list, in list order: the visited set
   * grows by the list, the old queue stays in front, and nothing is queued
   * when nobody new is visited.
   */
  function VisitAll(nodes: seq<FamilyNode>, labelOf: Labeller, cur: Visit, st: Step, nbrs: seq<Id>, t: Traversal)
    : (r: Traversal)
    ensures forall v :: v in r.visited <==> v in t.visited || v in nbrs
    ensures |r.queue| >= |t.queue| && r.queue[..|t.queue|] == t.queue
    ensures r.visited == t.visited ==> r.queue == t.queue
    decreases |nbrs|
  {
    if nbrs == [] then t
    else
      var t1 := TryVisit(nodes, labelOf, cur, st, t, nbrs[0]);
      var r := VisitAll(nodes, labelOf, cur, st, nbrs[1..], t1);
      assert r.queue[..|t.queue|] == r.queue[..|t1.queue|][..|t.queue|];
      assert forall v :: v in nbrs <==> v == nbrs[0] || v in nbrs[1..];
      r
  }

  /** One round of the outer loop for `cur`, taken off the queue: its parents, then its children, then its spouses. */
  function Expand(nodes: seq<FamilyNode>, edges: seq<FamilyEdge>, labelOf: Labeller, cur: Visit, tail: Traversal)
    : Traversal
  {
    var t1 := VisitAll(nodes, labelOf, cur, U, Neighbours(edges, cur.id, U), tail);
    var t2 := VisitAll(nodes, labelOf, cur, D, Neighbours(edges, cur.id, D), t1);
    VisitAll(nodes, labelOf, cur, H, Neighbours(edges, cur.id, H), t2)
  }

  /** The outer loop from the state `t` on, one round per queue entry, until the queue is empty. */
  function Run(nodes: seq<FamilyNode>, edges: seq<FamilyEdge>, root: Id, labelOf: Labeller, t: Traversal): (r: Traversal)
    requires t.visited <= Universe(edges, root)
    ensures |r.queue| == 0
    decreases Universe(edges, root) - t.visited, |t.queue|
  {
    if |t.queue| == 0 then t
    else
      var r := Expand(nodes, edges, labelOf, t.queue[0], t.(queue := t.queue[1..]));
      ExpandProgress(nodes, edges, root, labelOf, t);
      Run(nodes, edges, root, labelOf, r)
  }

  /** One round of the outer loop leaves the rest of the traversal unchanged. */
  lemma RunRound(nodes: seq<FamilyNode>, edges: seq<FamilyEdge>, root: Id, labelOf: Labeller, t: Traversal)
    requires t.visited <= Universe(edges, root) && |t.queue| > 0
    ensures Expand(nodes, edges, labelOf, t.queue[0], t.(queue := t.queue[1..])).visited <= Universe(edges, root)
    ensures Run(nodes, edges, root, labelOf, t) ==
            Run(nodes, edges, root, labelOf, Expand(nodes, edges, labelOf, t.queue[0], t.(queue := t.queue[1..])))
  {
    ExpandProgress(nodes, edges, root, labelOf, t);
  }

  /** A round only visits endpoints of edges, and one that visits nobody new shortens the queue. */
  lemma ExpandProgress(nodes: seq<FamilyNode>, edges: seq<FamilyEdge>, root: Id, labelOf: Labeller, t: Traversal)
    requires t.visited <= Universe(edges, root) && |t.queue| > 0
    ensures var r := Expand(nodes, edges, labelOf, t.queue[0], t.(queue := t.queue[1..]));
            r.visited <= Universe(edges, root) &&
            (Universe(edges, root) - r.visited < Universe(edges, root) - t.visited ||
             (Universe(edges, root) - r.visited == Universe(edges, root) - t.visited && |r.queue| < |t.queue|))
  {
    var cur := t.queue[0];
    var universe := Universe(edges, root);
    var r := Expand(nodes, edges, labelOf, cur, t.(queue := t.queue[1..]));
    Adjacency.NeighboursAreEndpoints(edges, cur.id);
    assert forall v :: v in r.visited ==>
      (v in t.visited || v in Neighbours(edges, cur.id, U) || v in Neighbours(edges, cur.id, D) ||
       v in Neighbours(edges, cur.id, H));
    if r.visited != t.visited {
      var v :| v in r.visited && v !in t.visited;
      assert v in universe - t.visited && v !in universe - r.visited;
    }
  }

  /** `labelForPath` with the caller's custom map. */
  function PathLabeller(customMap: map<string, string>): Labeller
  {
    (steps, path, g) => LabelForPath(steps, path, g, customMap)
  }

  /** The state before the first round: only the root is visited, labelled and queued. */
  function Initial(rootId: Id, customMap: map<string, string>): Traversal
  {
    Traversal(map[rootId := RootLabel(customMap)], {rootId}, [Visit(rootId, [], [rootId])])
  }

  /** The relationships the traversal computes from `rootId`, round by round in queue order. */
  function Bfs(nodes: seq<FamilyNode>, edges: seq<FamilyEdge>, rootId: Id, customMap: map<string, string>)
    : map<Id, string>
  {
    Run(nodes, edges, rootId, PathLabeller(customMap), Initial(rootId, customMap)).relationships
  }

  /**
   * What one `tryVisit` loop adds to the state `t0`, `found0`: entries
   * found earlier are untouched, and each person newly found is one of
   * `nbrs`, reached from `cur` by `st`, labelled by that walk and queued
   * behind the old queue.
   */
  ghost predicate Grown(nodes: seq<FamilyNode>, labelOf: Labeller, cur: Visit, st: Step, nbrs: seq<Id>,
                        t0: Traversal, found0: map<Id, Visit>, t: Traversal, found: map<Id, Visit>)
  {
    GrownMaps(nodes, labelOf, cur, st, nbrs, t0, found0, t, found) && GrownQueue(t0, found0, t, found)
  }

  /** The visited set, the labels and the walks of a `tryVisit` loop. */
  ghost predicate GrownMaps(nodes: seq<FamilyNode>, labelOf: Labeller, cur: Visit, st: Step, nbrs: seq<Id>,
                            t0: Traversal, found0: map<Id, Visit>, t: Traversal, found: map<Id, Visit>)
  {
    t.visited == found.Keys && t.relationships.Keys == found.Keys && found0.Keys <= found.Keys &&
    t0.relationships.Keys == found0.Keys &&
    (forall v :: v in found0 ==> found[v] == found0[v] && t.relationships[v] == t0.relationships[v]) &&
    (forall v :: v in found && v !in found0 ==>
       v in nbrs && found[v] == Next(cur, st, v) &&
       t.relationships[v] == labelOf(found[v].steps, found[v].path, GenderOf(nodes, v)))
  }

  /** The queue of a `tryVisit` loop: the old queue, then the persons newly found. */
  ghost predicate GrownQueue(t0: Traversal, found0: map<Id, Visit>, t: Traversal, found: map<Id, Visit>)
  {
    |t.queue| >= |t0.queue| && t.queue[..|t0.queue|] == t0.queue &&
    (forall i :: |t0.queue| <= i < |t.queue| ==> t.queue[i].id in found && t.queue[i].id !in found0 &&
                                                 t.queue[i] == found[t.queue[i].id]) &&
    Ids(t.queue) == Ids(t0.queue) + (found.Keys - found0.Keys) &&
    (found.Keys == found0.Keys ==> t.queue == t0.queue)
  }

  /**
   * `tryVisit` applied to each person of one neighbour list of `cur`:
   * each person not yet visited is marked, labelled by the walk through
   * `cur` and queued.
   */
  method TryVisitAll(nodes: seq<FamilyNode>, labelOf: Labeller,
                     cur: Visit, nbrs: seq<Id>, st: Step, t0: Traversal, ghost found0: map<Id, Visit>)
    returns (t: Traversal, ghost found: map<Id, Visit>)
    requires t0.visited == found0.Keys && t0.relationships.Keys == found0.Keys
    ensures t == VisitAll(nodes, labelOf, cur, st, nbrs, t0)
    ensures Grown(nodes, labelOf, cur, st, nbrs, t0, found0, t, found)
    ensures forall j :: 0 <= j < |nbrs| ==> nbrs[j] in found
  {
    t, found := t0, found0;
    for j := 0 to |nbrs|
      invariant VisitAll(nodes, labelOf, cur, st, nbrs[j..], t) == VisitAll(nodes, labelOf, cur, st, nbrs, t0)
      invariant Grown(nodes, labelOf, cur, st, nbrs, t0, found0, t, found)
      invariant forall v :: v in nbrs[..j] ==> v in found
    {
      var w := nbrs[j];
      ghost var before := t;
      if w !in t.visited {
        var next := Next(cur, st, w);
        var term := labelOf(next.steps, next.path, GenderOf(nodes, w));
        GrowOne(nodes, labelOf, cur, st, nbrs, t0, found0, t, found, w, term);
        t := Traversal(t.relationships[w := term], t.visited + {w}, t.queue + [next]);
        found := found[w := next];
      }
      assert t == TryVisit(nodes, labelOf, cur, st, before, w);
      assert nbrs[j..][1..] == nbrs[j + 1..];
      TakeSnoc(nbrs, j);
    }
    assert nbrs[|nbrs|..] == [];
    TakeAll(nbrs);
  }

  /** A `tryVisit` loop over neighbours of `cur` keeps the traversal invariants. */
  lemma GrownKeeps(nodes: seq<FamilyNode>, edges: seq<FamilyEdge>, root: Id, labelOf: Labeller,
                   cur: Visit, nbrs: seq<Id>, st: Step, t0: Traversal, found0: map<Id, Visit>,
                   t: Traversal, found: map<Id, Visit>, done: set<Id>, level: nat)
    requires Recorded(nodes, edges, root, labelOf, t0, found0) && Layered(t0, found0, done, level)
    requires cur.id in found0 && cur == found0[cur.id] && |cur.steps| == level
    requires forall j :: 0 <= j < |nbrs| ==> Link(edges, cur.id, st, nbrs[j])
    requires Grown(nodes, labelOf, cur, st, nbrs, t0, found0, t, found)
    ensures Recorded(nodes, edges, root, labelOf, t, found) && Layered(t, found, done, level)
  {
    GrownWalks(edges, root, cur, st, nbrs, found0, found);
    GrownLabels(nodes, labelOf, cur, st, nbrs, t0, found0, t, found);
    GrownQueued(nodes, labelOf, cur, st, nbrs, t0, found0, t, found);
    GrownLayered(nodes, labelOf, cur, st, nbrs, t0, found0, t, found, done, level);
  }

  /** Discovering one more neighbour `w` keeps `Grown`. */
  lemma GrowOne(nodes: seq<FamilyNode>, labelOf: Labeller, cur: Visit, st: Step, nbrs: seq<Id>,
                t0: Traversal, found0: map<Id, Visit>, t: Traversal, found: map<Id, Visit>, w: Id, term: string)
    requires Grown(nodes, labelOf, cur, st, nbrs, t0, found0, t, found)
    requires w in nbrs && w !in t.visited
    requires term == labelOf(Next(cur, st, w).steps, Next(cur, st, w).path, GenderOf(nodes, w))
    ensures Grown(nodes, labelOf, cur, st, nbrs, t0, found0,
                  Traversal(t.relationships[w := term], t.visited + {w}, t.queue + [Next(cur, st, w)]),
                  found[w := Next(cur, st, w)])
  {
    var t' := Traversal(t.relationships[w := term], t.visited + {w}, t.queue + [Next(cur, st, w)]);
    GrowOneMaps(nodes, labelOf, cur, st, nbrs, t0, found0, t, found, w, term);
    GrowOneQueue(t0, found0, t, found, w, Next(cur, st, w), t');
  }

  lemma GrowOneMaps(nodes: seq<FamilyNode>, labelOf: Labeller, cur: Visit, st: Step, nbrs: seq<Id>,
                    t0: Traversal, found0: map<Id, Visit>, t: Traversal, found: map<Id, Visit>, w: Id, term: string)
    requires GrownMaps(nodes, labelOf, cur, st, nbrs, t0, found0, t, found)
    requires w in nbrs && w !in t.visited
    requires term == labelOf(Next(cur, st, w).steps, Next(cur, st, w).path, GenderOf(nodes, w))
    ensures GrownMaps(nodes, labelOf, cur, st, nbrs, t0, found0,
                      Traversal(t.relationships[w := term], t.visited + {w}, t.queue + [Next(cur, st, w)]),
                      found[w := Next(cur, st, w)])
  {
  }

  lemma GrowOneQueue(t0: Traversal, found0: map<Id, Visit>, t: Traversal, found: map<Id, Visit>, w: Id, next: Visit,
                     t': Traversal)
    requires GrownQueue(t0, found0, t, found) && t.visited == found.Keys && found0.Keys <= found.Keys
    requires w !in found && next.id == w && t'.queue == t.queue + [next]
    ensures GrownQueue(t0, found0, t', found[w := next])
  {
    IdsAppend(t.queue, next);
    assert t'.queue[..|t0.queue|] == t.queue[..|t0.queue|];
  }

  /** The walks of the persons found by one `tryVisit` loop. */
  lemma GrownWalks(edges: seq<FamilyEdge>, root: Id, cur: Visit, st: Step, nbrs: seq<Id>,
                   found0: map<Id, Visit>, found: map<Id, Visit>)
    requires Walks(edges, root, found0) && cur.id in found0 && cur == found0[cur.id]
    requires forall j :: 0 <= j < |nbrs| ==> Link(edges, cur.id, st, nbrs[j])
    requires found0.Keys <= found.Keys && forall v :: v in found0 ==> found[v] == found0[v]
    requires forall v :: v in found && v !in found0 ==> v in nbrs && found[v] == Next(cur, st, v)
    ensures Walks(edges, root, found)
  {
    forall v | v in found ensures found[v].id == v && WalkTo(edges, root, found[v]) && NoDup(found[v].path) &&
      forall k :: 0 <= k < |found[v].path| ==> found[v].path[k] in found
    {
      if v in found0 {
        assert found[v] == found0[v];
      } else {
        NextWalk(edges, root, found0, cur, st, v);
      }
    }
  }

  /** A step from a found person to one not yet found extends its walk. */
  lemma NextWalk(edges: seq<FamilyEdge>, root: Id, found: map<Id, Visit>, cur: Visit, st: Step, w: Id)
    requires Walks(edges, root, found) && cur.id in found && cur == found[cur.id]
    requires Link(edges, cur.id, st, w) && w !in found
    ensures WalkTo(edges, root, Next(cur, st, w)) && NoDup(Next(cur, st, w).path)
    ensures forall k :: 0 <= k < |Next(cur, st, w).path| ==> Next(cur, st, w).path[k] in found || Next(cur, st, w).path[k] == w
  {
    var next := Next(cur, st, w);
    assert IsWalk(edges, root, next.steps, next.path) by {
      forall k | 0 <= k < |next.steps| ensures Link(edges, next.path[k], next.steps[k], next.path[k + 1]) {
        if k < |cur.steps| {
          assert next.path[k] == cur.path[k] && next.path[k + 1] == cur.path[k + 1] && next.steps[k] == cur.steps[k];
        }
      }
    }
    forall k | 0 <= k < |next.path| ensures next.path[k] in found || next.path[k] == w {
      if k < |cur.path| {
        assert next.path[k] == cur.path[k];
      }
    }
    assert NoDup(next.path) by {
      forall k | 0 <= k < |cur.path| ensures cur.path[k] != w {
        assert cur.path[k] in found;
      }
    }
  }

  lemma GrownLabels(nodes: seq<FamilyNode>, labelOf: Labeller, cur: Visit, st: Step, nbrs: seq<Id>,
                    t0: Traversal, found0: map<Id, Visit>, t: Traversal, found: map<Id, Visit>)
    requires Labels(nodes, labelOf, t0.relationships, found0)
    requires Grown(nodes, labelOf, cur, st, nbrs, t0, found0, t, found)
    ensures Labels(nodes, labelOf, t.relationships, found)
  {
    forall v | v in found
      ensures t.relationships[v] == labelOf(found[v].steps, found[v].path, GenderOf(nodes, v))
    {
      if v in found0 {
        assert found[v] == found0[v] && t.relationships[v] == t0.relationships[v];
      }
    }
  }

  lemma GrownQueued(nodes: seq<FamilyNode>, labelOf: Labeller, cur: Visit, st: Step, nbrs: seq<Id>,
                    t0: Traversal, found0: map<Id, Visit>, t: Traversal, found: map<Id, Visit>)
    requires Queued(t0.queue, found0)
    requires Grown(nodes, labelOf, cur, st, nbrs, t0, found0, t, found)
    ensures Queued(t.queue, found)
  {
    forall i | 0 <= i < |t.queue| ensures t.queue[i].id in found && t.queue[i] == found[t.queue[i].id] {
      if i < |t0.queue| {
        assert t.queue[i] == t.queue[..|t0.queue|][i] == t0.queue[i];
      }
    }
  }

  lemma GrownLayered(nodes: seq<FamilyNode>, labelOf: Labeller, cur: Visit, st: Step, nbrs: seq<Id>,
                     t0: Traversal, found0: map<Id, Visit>, t: Traversal, found: map<Id, Visit>,
                     done: set<Id>, level: nat)
    requires Layered(t0, found0, done, level) && Queued(t0.queue, found0) && |cur.steps| == level
    requires Grown(nodes, labelOf, cur, st, nbrs, t0, found0, t, found)
    ensures Layered(t, found, done, level)
  {
    forall i | 0 <= i < |t.queue| ensures level <= |t.queue[i].steps| <= level + 1 {
      if i < |t0.queue| {
        assert t.queue[i] == t.queue[..|t0.queue|][i] == t0.queue[i];
      }
    }
    forall i, j | 0 <= i < j < |t.queue| ensures |t.queue[i].steps| <= |t.queue[j].steps| {
      if j < |t0.queue| {
        assert t.queue[i] == t.queue[..|t0.queue|][i] == t0.queue[i];
        assert t.queue[j] == t.queue[..|t0.queue|][j] == t0.queue[j];
      }
    }
  }

  /** With every found person processed and closed, each walk from the root ends at a found person no nearer than it. */
  lemma {:induction false} ClosedContainsWalk(edges: seq<FamilyEdge>, root: Id, found: map<Id, Visit>,
                                              steps: seq<Step>, path: seq<Id>)
    requires root in found && found[root].steps == []
    requires Closed(edges, found, found.Keys)
    requires IsWalk(edges, root, steps, path)
    ensures path[|steps|] in found && |found[path[|steps|]].steps| <= |steps|
    decreases |steps|
  {
    if steps != [] {
      var k := |steps| - 1;
      assert IsWalk(edges, root, steps[..k], path[..k + 1]) by {
        forall i | 0 <= i < k ensures Link(edges, path[..k + 1][i], steps[..k][i], path[..k + 1][i + 1]) {
          assert Link(edges, path[i], steps[i], path[i + 1]);
        }
      }
      ClosedContainsWalk(edges, root, found, steps[..k], path[..k + 1]);
      assert path[..k + 1][k] == path[k];
      assert Link(edges, path[k], steps[k], path[k + 1]);
    }
  }

  /** The bookkeeping part of `Grown`: what the outer loop needs to know about one `tryVisit` loop. */
  ghost predicate Extends(t0: Traversal, found0: map<Id, Visit>, t: Traversal, found: map<Id, Visit>, nbrs: seq<Id>)
  {
    t.visited == found.Keys && found0.Keys <= found.Keys &&
    (forall v :: v in found0 ==> found[v] == found0[v]) &&
    (forall v :: v in found && v !in found0 ==> v in nbrs) &&
    Ids(t.queue) == Ids(t0.queue) + (found.Keys - found0.Keys) &&
    (found.Keys == found0.Keys ==> t.queue == t0.queue)
  }

  lemma GrownExtends(nodes: seq<FamilyNode>, labelOf: Labeller, cur: Visit, st: Step, nbrs: seq<Id>,
                     t0: Traversal, found0: map<Id, Visit>, t: Traversal, found: map<Id, Visit>)
    requires t0.visited == found0.Keys
    requires Grown(nodes, labelOf, cur, st, nbrs, t0, found0, t, found)
    ensures Extends(t0, found0, t, found, nbrs)
  {
  }

  lemma ExtendsChain(t0: Traversal, f0: map<Id, Visit>, t1: Traversal, f1: map<Id, Visit>,
                     t2: Traversal, f2: map<Id, Visit>, t3: Traversal, f3: map<Id, Visit>,
                     a: seq<Id>, b: seq<Id>, c: seq<Id>)
    requires Extends(t0, f0, t1, f1, a) && Extends(t1, f1, t2, f2, b) && Extends(t2, f2, t3, f3, c)
    ensures Extends(t0, f0, t3, f3, a + b + c)
  {
  }

  /** Taking the head of the queue for processing keeps the invariant, one level on. */
  lemma Shift(nodes: seq<FamilyNode>, edges: seq<FamilyEdge>, root: Id, labelOf: Labeller,
              t: Traversal, found: map<Id, Visit>, done: set<Id>, level: nat)
    requires Recorded(nodes, edges, root, labelOf, t, found) && Layered(t, found, done, level) && |t.queue| > 0
    ensures t.queue[0].id in found && t.queue[0] == found[t.queue[0].id]
    ensures Recorded(nodes, edges, root, labelOf, t.(queue := t.queue[1..]), found)
    ensures Layered(t.(queue := t.queue[1..]), found, done, |t.queue[0].steps|)
    ensures Ids(t.queue) == {t.queue[0].id} + Ids(t.queue[1..])
  {
    var q := t.queue;
    assert q == [q[0]] + q[1..];
    forall i | 0 <= i < |q[1..]| ensures q[1..][i] == q[i + 1] { }
    assert forall x :: x in q <==> x == q[0] || x in q[1..];
  }

  /** After the three `tryVisit` loops of `cur`, the processed persons stay closed, and each found person is processed or queued. */
  lemma Process(edges: seq<FamilyEdge>, t0: Traversal, found0: map<Id, Visit>, tail: Traversal,
                t: Traversal, found: map<Id, Visit>, done: set<Id>, level: nat, cur: Visit,
                parents: seq<Id>, children: seq<Id>, spouses: seq<Id>)
    requires done <= found0.Keys && Closed(edges, found0, done) && Pending(t0, done)
    requires t0.visited == found0.Keys && tail.visited == found0.Keys && cur.id in found0 && |found0[cur.id].steps| == level
    requires Ids(t0.queue) == {cur.id} + Ids(tail.queue)
    requires Extends(tail, found0, t, found, parents + children + spouses)
    requires forall v :: v in found ==> |found[v].steps| <= level + 1
    requires parents == Neighbours(edges, cur.id, U) && children == Neighbours(edges, cur.id, D)
    requires spouses == Neighbours(edges, cur.id, H)
    requires forall v :: v in parents + children + spouses ==> v in found
    ensures done + {cur.id} <= found.Keys && Closed(edges, found, done + {cur.id}) && Pending(t, done + {cur.id})
  {
    forall u, st, w | u in done + {cur.id} && Link(edges, u, st, w)
      ensures w in found && |found[w].steps| <= |found[u].steps| + 1
    {
      if u == cur.id {
        assert w in parents + children + spouses;
      } else {
        assert w in found0;
      }
    }
  }

  /**
   * The three `forEach` lines of the loop body: the parents of `cur`, then
   * its children, then its spouses, each read from the adjacency index
   * with `get(id) || []`.
   */
  method VisitNeighbours(nodes: seq<FamilyNode>, edges: seq<FamilyEdge>, labelOf: Labeller, adj: Adjacency.Adjacency,
                         cur: Visit, tail: Traversal, ghost found: map<Id, Visit>)
    returns (t3: Traversal, ghost found3: map<Id, Visit>,
             ghost parents: seq<Id>, ghost children: seq<Id>, ghost spouses: seq<Id>,
             ghost t1: Traversal, ghost found1: map<Id, Visit>, ghost t2: Traversal, ghost found2: map<Id, Visit>)
    requires tail.visited == found.Keys && tail.relationships.Keys == found.Keys
    requires forall id :: Adjacency.Get(adj.parentsByChild, id) == Adjacency.ParentsOf(edges, id)
    requires forall id :: Adjacency.Get(adj.childrenByParent, id) == Adjacency.ChildrenOf(edges, id)
    requires forall id :: Adjacency.Get(adj.spousesById, id) == Adjacency.SpousesOf(edges, id)
    ensures t3 == Expand(nodes, edges, labelOf, cur, tail)
    ensures RoundGrown(nodes, edges, labelOf, cur, parents, children, spouses, tail, found, t1, found1, t2, found2, t3, found3)
  {
    var ps := Adjacency.Get(adj.parentsByChild, cur.id);
    var cs := Adjacency.Get(adj.childrenByParent, cur.id);
    var ss := Adjacency.Get(adj.spousesById, cur.id);
    parents, children, spouses := ps, cs, ss;
    var u1, u2;
    u1, found1 := TryVisitAll(nodes, labelOf, cur, ps, U, tail, found);
    u2, found2 := TryVisitAll(nodes, labelOf, cur, cs, D, u1, found1);
    t3, found3 := TryVisitAll(nodes, labelOf, cur, ss, H, u2, found2);
    t1, t2 := u1, u2;
  }

  /** The invariant of the traversal's outer loop. */
  ghost predicate Inv(nodes: seq<FamilyNode>, edges: seq<FamilyEdge>, root: Id, labelOf: Labeller, universe: set<Id>,
                      t: Traversal, found: map<Id, Visit>, done: set<Id>, level: nat)
  {
    Recorded(nodes, edges, root, labelOf, t, found) && Layered(t, found, done, level) &&
    Closed(edges, found, done) && Pending(t, done) && t.visited <= universe
  }

  /** What the three `tryVisit` loops of one round produce, from the state `tail`. */
  ghost predicate RoundGrown(nodes: seq<FamilyNode>, edges: seq<FamilyEdge>, labelOf: Labeller, cur: Visit,
                             parents: seq<Id>, children: seq<Id>, spouses: seq<Id>, tail: Traversal, found: map<Id, Visit>,
                             t1: Traversal, found1: map<Id, Visit>, t2: Traversal, found2: map<Id, Visit>,
                             t3: Traversal, found3: map<Id, Visit>)
  {
    parents == Neighbours(edges, cur.id, U) && children == Neighbours(edges, cur.id, D) &&
    spouses == Neighbours(edges, cur.id, H) &&
    Grown(nodes, labelOf, cur, U, parents, tail, found, t1, found1) && (forall v :: v in parents ==> v in found1) &&
    Grown(nodes, labelOf, cur, D, children, t1, found1, t2, found2) && (forall v :: v in children ==> v in found2) &&
    Grown(nodes, labelOf, cur, H, spouses, t2, found2, t3, found3) && (forall v :: v in spouses ==> v in found3)
  }

  /** One round of the outer loop (the head of the queue and its three `tryVisit` loops) keeps the invariant and makes progress. */
  lemma Round(nodes: seq<FamilyNode>, edges: seq<FamilyEdge>, root: Id, labelOf: Labeller, universe: set<Id>,
              t: Traversal, found: map<Id, Visit>, done: set<Id>, level: nat, cur: Visit,
              parents: seq<Id>, children: seq<Id>, spouses: seq<Id>, tail: Traversal,
              t1: Traversal, found1: map<Id, Visit>, t2: Traversal, found2: map<Id, Visit>,
              t3: Traversal, found3: map<Id, Visit>)
    requires Inv(nodes, edges, root, labelOf, universe, t, found, done, level) && universe == Universe(edges, root)
    requires |t.queue| > 0 && cur == t.queue[0] && tail == t.(queue := t.queue[1..])
    requires RoundGrown(nodes, edges, labelOf, cur, parents, children, spouses, tail, found, t1, found1, t2, found2, t3, found3)
    ensures Inv(nodes, edges, root, labelOf, universe, t3, found3, done + {cur.id}, |cur.steps|)
    ensures universe - t3.visited < universe - t.visited ||
            (universe - t3.visited == universe - t.visited && |t3.queue| < |t.queue|)
  {
    var lvl := |cur.steps|;
    assert Recorded(nodes, edges, root, labelOf, tail, found) && Layered(tail, found, done, lvl) &&
           cur.id in found && cur == found[cur.id] && Ids(t.queue) == {cur.id} + Ids(tail.queue) by {
      Shift(nodes, edges, root, labelOf, t, found, done, level);
    }
    assert Recorded(nodes, edges, root, labelOf, t3, found3) && Layered(t3, found3, done, lvl) by {
      RoundRecorded(nodes, edges, root, labelOf, found, done, lvl, cur, parents, children, spouses,
                    tail, t1, found1, t2, found2, t3, found3);
    }
    var nbrs := parents + children + spouses;
    assert Extends(tail, found, t3, found3, nbrs) && forall v :: v in nbrs ==> v in found3 by {
      RoundExtends(nodes, edges, labelOf, cur, parents, children, spouses, tail, found, t1, found1, t2, found2, t3, found3);
    }
    assert Layered(t3, found3, done + {cur.id}, lvl) && forall v :: v in found3 ==> |found3[v].steps| <= lvl + 1 by {
      LayeredAddHead(t3, found3, found, done, lvl, cur);
    }
    assert Closed(edges, found3, done + {cur.id}) && Pending(t3, done + {cur.id}) by {
      Process(edges, t, found, tail, t3, found3, done, lvl, cur, parents, children, spouses);
    }
    RoundProgress(edges, root, universe, t, found, cur, parents, children, spouses, tail, t3, found3);
  }

  /** The neighbour list of `id` that a step `st` reads. */
  function Neighbours(edges: seq<FamilyEdge>, id: Id, st: Step): seq<Id>
  {
    match st
    case U => Adjacency.ParentsOf(edges, id)
    case D => Adjacency.ChildrenOf(edges, id)
    case H => Adjacency.SpousesOf(edges, id)
    case S => []
  }

  lemma NeighboursLink(edges: seq<FamilyEdge>, id: Id, st: Step, nbrs: seq<Id>)
    requires nbrs == Neighbours(edges, id, st)
    ensures forall j :: 0 <= j < |nbrs| ==> Link(edges, id, st, nbrs[j])
  {
  }

  lemma RoundRecorded(nodes: seq<FamilyNode>, edges: seq<FamilyEdge>, root: Id, labelOf: Labeller,
                      found: map<Id, Visit>, done: set<Id>, lvl: nat, cur: Visit,
                      parents: seq<Id>, children: seq<Id>, spouses: seq<Id>, tail: Traversal,
                      t1: Traversal, found1: map<Id, Visit>, t2: Traversal, found2: map<Id, Visit>,
                      t3: Traversal, found3: map<Id, Visit>)
    requires Recorded(nodes, edges, root, labelOf, tail, found) && Layered(tail, found, done, lvl)
    requires cur.id in found && cur == found[cur.id] && |cur.steps| == lvl
    requires RoundGrown(nodes, edges, labelOf, cur, parents, children, spouses, tail, found, t1, found1, t2, found2, t3, found3)
    ensures Recorded(nodes, edges, root, labelOf, t3, found3) && Layered(t3, found3, done, lvl)
  {
    assert Recorded(nodes, edges, root, labelOf, t1, found1) && Layered(t1, found1, done, lvl) by {
      NeighboursLink(edges, cur.id, U, parents);
      GrownKeeps(nodes, edges, root, labelOf, cur, parents, U, tail, found, t1, found1, done, lvl);
    }
    assert Recorded(nodes, edges, root, labelOf, t2, found2) && Layered(t2, found2, done, lvl) by {
      NeighboursLink(edges, cur.id, D, children);
      GrownKeeps(nodes, edges, root, labelOf, cur, children, D, t1, found1, t2, found2, done, lvl);
    }
    NeighboursLink(edges, cur.id, H, spouses);
    GrownKeeps(nodes, edges, root, labelOf, cur, spouses, H, t2, found2, t3, found3, done, lvl);
  }

  /** Once its neighbours are in, the head of the queue joins the processed persons. */
  lemma LayeredAddHead(t: Traversal, found: map<Id, Visit>, found0: map<Id, Visit>, done: set<Id>, lvl: nat, cur: Visit)
    requires Layered(t, found, done, lvl) && cur.id in found0 && cur == found0[cur.id] && |cur.steps| == lvl
    requires found0.Keys <= found.Keys && forall v :: v in found0 ==> found[v] == found0[v]
    ensures Layered(t, found, done + {cur.id}, lvl)
    ensures forall v :: v in found ==> |found[v].steps| <= lvl + 1
  {
  }

  lemma RoundExtends(nodes: seq<FamilyNode>, edges: seq<FamilyEdge>, labelOf: Labeller, cur: Visit,
                     parents: seq<Id>, children: seq<Id>, spouses: seq<Id>, tail: Traversal, found: map<Id, Visit>,
                     t1: Traversal, found1: map<Id, Visit>, t2: Traversal, found2: map<Id, Visit>,
                     t3: Traversal, found3: map<Id, Visit>)
    requires tail.visited == found.Keys
    requires RoundGrown(nodes, edges, labelOf, cur, parents, children, spouses, tail, found, t1, found1, t2, found2, t3, found3)
    ensures Extends(tail, found, t3, found3, parents + children + spouses)
    ensures forall v :: v in parents + children + spouses ==> v in found3
  {
    GrownExtends(nodes, labelOf, cur, U, parents, tail, found, t1, found1);
    GrownExtends(nodes, labelOf, cur, D, children, t1, found1, t2, found2);
    GrownExtends(nodes, labelOf, cur, H, spouses, t2, found2, t3, found3);
    ExtendsChain(tail, found, t1, found1, t2, found2, t3, found3, parents, children, spouses);
  }

  /** Persons newly found are endpoints of edges; a round that finds none shortens the queue. */
  lemma RoundProgress(edges: seq<FamilyEdge>, root: Id, universe: set<Id>, t: Traversal, found: map<Id, Visit>,
                      cur: Visit, parents: seq<Id>, children: seq<Id>, spouses: seq<Id>,
                      tail: Traversal, t3: Traversal, found3: map<Id, Visit>)
    requires universe == Universe(edges, root) && t.visited <= universe && t.visited == found.Keys
    requires |t.queue| > 0 && tail == t.(queue := t.queue[1..])
    requires parents == Neighbours(edges, cur.id, U) && children == Neighbours(edges, cur.id, D)
    requires spouses == Neighbours(edges, cur.id, H)
    requires Extends(tail, found, t3, found3, parents + children + spouses)
    ensures t3.visited <= universe
    ensures universe - t3.visited < universe - t.visited ||
            (universe - t3.visited == universe - t.visited && |t3.queue| < |t.queue|)
  {
    Adjacency.NeighboursAreEndpoints(edges, cur.id);
    forall v | v in t3.visited ensures v in universe {
      if v !in t.visited {
        assert v in parents + children + spouses;
      }
    }
    if t3.visited != t.visited {
      var v :| v in t3.visited && v !in t.visited;
      assert v in universe - t.visited && v !in universe - t3.visited;
    }
  }

  /** The state before the first round: only the root is known, labelled and queued. */
  lemma Start(nodes: seq<FamilyNode>, edges: seq<FamilyEdge>, root: Id, labelOf: Labeller, customMap: map<string, string>)
    requires forall steps, path, g :: labelOf(steps, path, g) == LabelForPath(steps, path, g, customMap)
    ensures Inv(nodes, edges, root, labelOf, Universe(edges, root),
                Traversal(map[root := RootLabel(customMap)], {root}, [Visit(root, [], [root])]),
                map[root := Visit(root, [], [root])], {}, 0)
  {
    var rootVisit := Visit(root, [], [root]);
    assert WalkTo(edges, root, rootVisit);
    assert labelOf([], [root], GenderOf(nodes, root)) == RootLabel(customMap);
  }

  /** Once the queue is empty, the found walks are exactly the reachable persons, each by a shortest walk. */
  lemma Finish(nodes: seq<FamilyNode>, edges: seq<FamilyEdge>, root: Id, labelOf: Labeller, customMap: map<string, string>,
               universe: set<Id>, t: Traversal, found: map<Id, Visit>, done: set<Id>, level: nat)
    requires forall steps, path, g :: labelOf(steps, path, g) == LabelForPath(steps, path, g, customMap)
    requires Inv(nodes, edges, root, labelOf, universe, t, found, done, level) && |t.queue| == 0
    ensures root in t.relationships && t.relationships[root] == RootLabel(customMap)
    ensures forall v :: v in t.relationships <==> Reachable(edges, root, v)
    ensures t.relationships.Keys == found.Keys
    ensures forall v :: v in found ==>
              found[v].id == v && WalkTo(edges, root, found[v]) && NoDup(found[v].path) &&
              t.relationships[v] == LabelForPath(found[v].steps, found[v].path, GenderOf(nodes, v), customMap)
    ensures forall v, w: Visit :: v in found && w.id == v && WalkTo(edges, root, w) ==> |found[v].steps| <= |w.steps|
    ensures forall v :: v in found && found[v].steps != [] ==>
              t.relationships[v] == LabelForNormalized(Collapse(found[v].steps), GenderOf(nodes, v))
  {
    forall v | v in found && found[v].steps != []
      ensures t.relationships[v] == LabelForNormalized(Collapse(found[v].steps), GenderOf(nodes, v))
    {
      DistinctWalkLabel(found[v].steps, found[v].path, GenderOf(nodes, v), customMap);
    }
    assert done == found.Keys by {
      assert Ids(t.queue) == {};
    }
    forall v, w: Visit | v in found && w.id == v && WalkTo(edges, root, w) ensures |found[v].steps| <= |w.steps| {
      ClosedContainsWalk(edges, root, found, w.steps, w.path);
    }
    forall v | Reachable(edges, root, v) ensures v in t.relationships {
      var w: Visit :| w.id == v && WalkTo(edges, root, w);
      ClosedContainsWalk(edges, root, found, w.steps, w.path);
    }
  }

  /** One pass of the outer loop: the head of the queue is taken off and its three neighbour lists are visited. */
  method ProcessHead(nodes: seq<FamilyNode>, edges: seq<FamilyEdge>, root: Id, labelOf: Labeller,
                     adj: Adjacency.Adjacency, t: Traversal, ghost found: map<Id, Visit>, ghost done: set<Id>,
                     ghost level: nat)
    returns (t': Traversal, ghost found': map<Id, Visit>, ghost done': set<Id>, ghost level': nat)
    requires Inv(nodes, edges, root, labelOf, Universe(edges, root), t, found, done, level) && |t.queue| > 0
    requires forall id :: Adjacency.Get(adj.parentsByChild, id) == Adjacency.ParentsOf(edges, id)
    requires forall id :: Adjacency.Get(adj.childrenByParent, id) == Adjacency.ChildrenOf(edges, id)
    requires forall id :: Adjacency.Get(adj.spousesById, id) == Adjacency.SpousesOf(edges, id)
    ensures t' == Expand(nodes, edges, labelOf, t.queue[0], t.(queue := t.queue[1..]))
    ensures Inv(nodes, edges, root, labelOf, Universe(edges, root), t', found', done', level')
    ensures Run(nodes, edges, root, labelOf, t') == Run(nodes, edges, root, labelOf, t)
    ensures Universe(edges, root) - t'.visited < Universe(edges, root) - t.visited ||
            (Universe(edges, root) - t'.visited == Universe(edges, root) - t.visited && |t'.queue| < |t.queue|)
  {
    var cur := t.queue[0];
    var tail := t.(queue := t.queue[1..]);
    ghost var parents, children, spouses, t1, found1, t2, found2;
    t', found', parents, children, spouses, t1, found1, t2, found2 := VisitNeighbours(nodes, edges, labelOf, adj, cur, tail, found);
    Round(nodes, edges, root, labelOf, Universe(edges, root), t, found, done, level, cur, parents, children, spouses,
          tail, t1, found1, t2, found2, t', found');
    RunRound(nodes, edges, root, labelOf, t);
    done', level' := done + {cur.id}, |cur.steps|;
  }

  /**
   * `calculateAdvancedRelationships`: the root is labelled `customMap["me"] || "Me"`;
   * exactly the persons reachable from it get a label, each that of the
   * walk it was first found along: a shortest walk, through distinct persons.
   * The result is that of the reference traversal `Bfs`, which fixes the
   * order in which persons are found.
   */
  method CalculateAdvancedRelationships(nodes: seq<FamilyNode>, edges: seq<FamilyEdge>, rootId: Id,
                                        customMap: map<string, string>)
    returns (relationships: map<Id, string>, ghost walks: map<Id, Visit>)
    ensures relationships == Bfs(nodes, edges, rootId, customMap)
    ensures rootId in relationships && relationships[rootId] == RootLabel(customMap)
    ensures forall v :: v in relationships <==> Reachable(edges, rootId, v)
    ensures relationships.Keys == walks.Keys
    ensures forall v :: v in walks ==>
              walks[v].id == v && WalkTo(edges, rootId, walks[v]) && NoDup(walks[v].path) &&
              relationships[v] == LabelForPath(walks[v].steps, walks[v].path, GenderOf(nodes, v), customMap)
    ensures forall v, w: Visit :: v in walks && w.id == v && WalkTo(edges, rootId, w) ==> |walks[v].steps| <= |w.steps|
    ensures forall v :: v in walks && walks[v].steps != [] ==>
              relationships[v] == LabelForNormalized(Collapse(walks[v].steps), GenderOf(nodes, v))
  {
    var labelOf := PathLabeller(customMap);
    var adj := Adjacency.BuildAdjacency(nodes, edges);
    var t := Initial(rootId, customMap);
    ghost var found := map[rootId := Visit(rootId, [], [rootId])];
    ghost var done: set<Id> := {};
    ghost var level: nat := 0;
    ghost var universe := Universe(edges, rootId);
    Start(nodes, edges, rootId, labelOf, customMap);
    while |t.queue| > 0
      invariant Inv(nodes, edges, rootId, labelOf, universe, t, found, done, level)
      invariant Run(nodes, edges, rootId, labelOf, t) == Run(nodes, edges, rootId, labelOf, Initial(rootId, customMap))
      decreases universe - t.visited, |t.queue|
    {
      t, found, done, level := ProcessHead(nodes, edges, rootId, labelOf, adj, t, found, done, level);
    }
    Finish(nodes, edges, rootId, labelOf, customMap, universe, t, found, done, level);
    relationships, walks := t.relationships, found;
  }
}
