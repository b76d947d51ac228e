/**
 * The first pass of `calculateLayout`: a breadth-first traversal from the
 * root that gives every person it reaches an integer level (generation).
 * Spouses are tried first and share the level, then parents one level up,
 * then children one level down; a person keeps the level it was first
 * given.
 */
module LayoutLevels {
  import opened Family
  import opened Lists
  import opened KinshipLabels
  import Adjacency
  import Kinship

  /** The change of level along one step: a spouse keeps it, a parent is one up, a child one down. */
  function Delta(st: Step): int
  {
    match st
    case U => -1
    case D => 1
    case H => 0
    case S => 0
  }

  /** The change of level along a walk: the sum of the changes of its steps. */
  function Height(steps: seq<Step>): int
  {
    if steps == [] then 0 else Height(steps[..|steps| - 1]) + Delta(steps[|steps| - 1])
  }

  lemma HeightSnoc(steps: seq<Step>, st: Step)
    ensures Height(steps + [st]) == Height(steps) + Delta(st)
  {
    assert (steps + [st])[..|steps|] == steps;
  }

  /** Each levelled person's level is the change of level along a recorded walk from the root to it. */
  ghost predicate Derived(edges: seq<FamilyEdge>, root: Id, levels: map<Id, int>, walks: map<Id, Kinship.Visit>)
  {
    forall v :: v in levels ==>
      v in walks && walks[v].id == v && Kinship.WalkTo(edges, root, walks[v]) && levels[v] == Height(walks[v].steps)
  }

  /** Every levelled person but the root got its level from a levelled person it is linked to. */
  ghost predicate Justified(edges: seq<FamilyEdge>, root: Id, levels: map<Id, int>)
  {
    forall v :: v in levels && v != root ==>
      exists u, st :: u in levels && Kinship.Link(edges, u, st, v) && levels[v] == levels[u] + Delta(st)
  }

  /**
   * What one `forEach` over a neighbour list does to `levels`, `visited`
   * and `queue`: each neighbour not yet visited is visited, given `lvl`
   * and queued; nothing else changes.
   */
  ghost predicate Grown(nbrs: seq<Id>, lvl: int, levels: map<Id, int>, visited: set<Id>, queue: seq<Id>,
                        levels': map<Id, int>, visited': set<Id>, queue': seq<Id>)
  {
    visited' == levels'.Keys &&
    (forall v :: v in visited' <==> v in visited || v in nbrs) &&
    (forall v :: v in levels ==> v in levels' && levels'[v] == levels[v]) &&
    (forall v :: v in levels' && v !in levels ==> levels'[v] == lvl) &&
    (forall v :: v in queue' <==> v in queue || (v in visited' && v !in visited)) &&
    (visited' == visited ==> queue' == queue)
  }

  /** The traversal's state: `levels`, `visited` and `queue`. */
  datatype Levelling = Levelling(levels: map<Id, int>, visited: set<Id>, queue: seq<Id>)

  /** One neighbour `w`: unless visited, it is visited, given `lvl` and queued. */
  function LevelOne(s: Levelling, w: Id, lvl: int): Levelling
  {
    if w in s.visited then s else Levelling(s.levels[w := lvl], s.visited + {w}, s.queue + [w])
  }

  /** One `forEach` over a neighbour list, in list order. */
  function LevelAll(nbrs: seq<Id>, lvl: int, s: Levelling): (r: Levelling)
    requires s.visited == s.levels.Keys
    ensures r.visited == r.levels.Keys
    decreases |nbrs|
  {
    if nbrs == [] then s else LevelAll(nbrs[1..], lvl, LevelOne(s, nbrs[0], lvl))
  }

  /** `LevelAll` does what `Grown` describes. */
  lemma {:induction false} LevelAllGrown(nbrs: seq<Id>, lvl: int, s: Levelling)
    requires s.visited == s.levels.Keys
    ensures var r := LevelAll(nbrs, lvl, s);
            Grown(nbrs, lvl, s.levels, s.visited, s.queue, r.levels, r.visited, r.queue)
    decreases |nbrs|
  {
    if nbrs != [] {
      var s1 := LevelOne(s, nbrs[0], lvl);
      LevelAllGrown(nbrs[1..], lvl, s1);
      assert forall v :: v in nbrs <==> v == nbrs[0] || v in nbrs[1..];
    }
  }

  /** Visits, levels at `lvl` and queues each neighbour not yet visited, in list order. */
  method LevelNeighbours(nbrs: seq<Id>, lvl: int, levels: map<Id, int>, visited: set<Id>, queue: seq<Id>)
    returns (levels': map<Id, int>, visited': set<Id>, queue': seq<Id>)
    requires visited == levels.Keys
    ensures Levelling(levels', visited', queue') == LevelAll(nbrs, lvl, Levelling(levels, visited, queue))
    ensures Grown(nbrs, lvl, levels, visited, queue, levels', visited', queue')
  {
    levels', visited', queue' := levels, visited, queue;
    for j := 0 to |nbrs|
      invariant visited' == levels'.Keys
      invariant LevelAll(nbrs[j..], lvl, Levelling(levels', visited', queue')) ==
                LevelAll(nbrs, lvl, Levelling(levels, visited, queue))
    {
      var s := nbrs[j];
      ghost var before := Levelling(levels', visited', queue');
      if s !in visited' {
        visited' := visited' + {s};
        levels' := levels'[s := lvl];
        queue' := queue' + [s];
      }
      assert Levelling(levels', visited', queue') == LevelOne(before, s, lvl);
      assert nbrs[j..][1..] == nbrs[j + 1..];
    }
    assert nbrs[|nbrs|..] == [];
    LevelAllGrown(nbrs, lvl, Levelling(levels, visited, queue));
  }

  /** One round for `cur` at level `l`, taken off the queue: its spouses at `l`, its parents one up, its children one down. */
  function RoundFrom(edges: seq<FamilyEdge>, cur: Id, l: int, s: Levelling): (r: Levelling)
    requires s.visited == s.levels.Keys
    ensures r.visited == r.levels.Keys
  {
    var s1 := LevelAll(Kinship.Neighbours(edges, cur, H), l, s);
    var s2 := LevelAll(Kinship.Neighbours(edges, cur, U), l - 1, s1);
    LevelAll(Kinship.Neighbours(edges, cur, D), l + 1, s2)
  }

  /** A round visits only neighbours of `cur`, queues only persons it visits, and queues nobody when it visits nobody. */
  lemma RoundFromGrows(edges: seq<FamilyEdge>, cur: Id, l: int, s: Levelling)
    requires s.visited == s.levels.Keys
    ensures var r := RoundFrom(edges, cur, l, s);
            s.visited <= r.visited &&
            (forall v :: v in r.queue ==> v in s.queue || v in r.visited) &&
            (forall v :: v in r.visited ==>
               (v in s.visited || v in Kinship.Neighbours(edges, cur, H) || v in Kinship.Neighbours(edges, cur, U) ||
                v in Kinship.Neighbours(edges, cur, D))) &&
            (r.visited == s.visited ==> r.queue == s.queue)
  {
    var s1 := LevelAll(Kinship.Neighbours(edges, cur, H), l, s);
    var s2 := LevelAll(Kinship.Neighbours(edges, cur, U), l - 1, s1);
    LevelAllGrown(Kinship.Neighbours(edges, cur, H), l, s);
    LevelAllGrown(Kinship.Neighbours(edges, cur, U), l - 1, s1);
    LevelAllGrown(Kinship.Neighbours(edges, cur, D), l + 1, s2);
  }

  /** What the outer loop needs of its state: levels for the visited, visited endpoints, queued persons visited. */
  ghost predicate Levelled(edges: seq<FamilyEdge>, root: Id, s: Levelling)
  {
    s.visited == s.levels.Keys && s.visited <= Kinship.Universe(edges, root) &&
    forall v :: v in s.queue ==> v in s.visited
  }

  /** The outer loop from the state `s` on, one round per queue entry, until the queue is empty. */
  function RunLevels(edges: seq<FamilyEdge>, root: Id, s: Levelling): (r: Levelling)
    requires Levelled(edges, root, s)
    ensures |r.queue| == 0
    decreases Kinship.Universe(edges, root) - s.visited, |s.queue|
  {
    if |s.queue| == 0 then s
    else
      var r := RoundFrom(edges, s.queue[0], s.levels[s.queue[0]], s.(queue := s.queue[1..]));
      LevelProgress(edges, root, s);
      RunLevels(edges, root, r)
  }

  /** A round keeps `Levelled`, and one that visits nobody new shortens the queue. */
  lemma LevelProgress(edges: seq<FamilyEdge>, root: Id, s: Levelling)
    requires Levelled(edges, root, s) && |s.queue| > 0
    ensures var r := RoundFrom(edges, s.queue[0], s.levels[s.queue[0]], s.(queue := s.queue[1..]));
            Levelled(edges, root, r) &&
            (Kinship.Universe(edges, root) - r.visited < Kinship.Universe(edges, root) - s.visited ||
             (Kinship.Universe(edges, root) - r.visited == Kinship.Universe(edges, root) - s.visited &&
              |r.queue| < |s.queue|))
  {
    var universe := Kinship.Universe(edges, root);
    var r := RoundFrom(edges, s.queue[0], s.levels[s.queue[0]], s.(queue := s.queue[1..]));
    Adjacency.NeighboursAreEndpoints(edges, s.queue[0]);
    RoundFromGrows(edges, s.queue[0], s.levels[s.queue[0]], s.(queue := s.queue[1..]));
    assert forall v :: v in s.queue[1..] ==> v in s.queue;
    if r.visited != s.visited {
      var v :| v in r.visited && v !in s.visited;
      assert v in universe - s.visited && v !in universe - r.visited;
    }
  }

  /** The state before the first round: only the root is visited, at level 0, and queued. */
  function Initial(root: Id): Levelling
  {
    Levelling(map[root := 0], {root}, [root])
  }

  /** The levels the traversal computes from `root`, round by round in queue order. */
  function Levels(edges: seq<FamilyEdge>, root: Id): map<Id, int>
  {
    RunLevels(edges, root, Initial(root)).levels
  }

  /** One round of the outer loop leaves the rest of the traversal unchanged. */
  lemma RunLevelsRound(edges: seq<FamilyEdge>, root: Id, s: Levelling)
    requires Levelled(edges, root, s) && |s.queue| > 0
    ensures Levelled(edges, root, RoundFrom(edges, s.queue[0], s.levels[s.queue[0]], s.(queue := s.queue[1..])))
    ensures RunLevels(edges, root, s) == RunLevels(edges, root, RoundFrom(edges, s.queue[0], s.levels[s.queue[0]], s.(queue := s.queue[1..])))
  {
    LevelProgress(edges, root, s);
  }

  /** Every person linked to a processed one has been visited. */
  ghost predicate Closed(edges: seq<FamilyEdge>, done: set<Id>, visited: set<Id>)
  {
    forall u, st, w :: u in done && Kinship.Link(edges, u, st, w) ==> w in visited
  }

  /** The invariant of the level traversal's outer loop; `done` holds the persons taken off the queue. */
  ghost predicate Inv(edges: seq<FamilyEdge>, root: Id, universe: set<Id>,
                      levels: map<Id, int>, visited: set<Id>, queue: seq<Id>, done: set<Id>)
  {
    visited == levels.Keys && root in levels && levels[root] == 0 &&
    (forall v :: v in queue ==> v in visited) &&
    done <= visited && (forall v :: v in visited ==> v in done || v in queue) &&
    Closed(edges, done, visited) &&
    (forall v :: v in visited ==> Kinship.Reachable(edges, root, v)) &&
    Justified(edges, root, levels) && visited <= universe
  }

  /** A step from a reachable person reaches another. */
  lemma ReachStep(edges: seq<FamilyEdge>, root: Id, u: Id, st: Step, w: Id)
    requires Kinship.Reachable(edges, root, u) && Kinship.Link(edges, u, st, w)
    ensures Kinship.Reachable(edges, root, w)
  {
    var wk: Kinship.Visit :| wk.id == u && Kinship.WalkTo(edges, root, wk);
    StepWalk(edges, root, wk, st, w);
  }

  /** A walk extended by one more linked step is a walk. */
  lemma StepWalk(edges: seq<FamilyEdge>, root: Id, wk: Kinship.Visit, st: Step, w: Id)
    requires Kinship.WalkTo(edges, root, wk) && Kinship.Link(edges, wk.id, st, w)
    ensures Kinship.WalkTo(edges, root, Kinship.Next(wk, st, w))
  {
    var next := Kinship.Next(wk, st, w);
    assert Kinship.IsWalk(edges, root, next.steps, next.path) by {
      forall k | 0 <= k < |next.steps| ensures Kinship.Link(edges, next.path[k], next.steps[k], next.path[k + 1]) {
        if k < |wk.steps| {
          assert next.path[k] == wk.path[k] && next.path[k + 1] == wk.path[k + 1] && next.steps[k] == wk.steps[k];
        }
      }
    }
    assert Kinship.WalkTo(edges, root, next);
  }

  /** The state before the first round: only the root, at level 0. */
  lemma Start(edges: seq<FamilyEdge>, root: Id)
    ensures Inv(edges, root, Kinship.Universe(edges, root), map[root := 0], {root}, [root], {})
  {
    var w := Kinship.Visit(root, [], [root]);
    assert Kinship.WalkTo(edges, root, w);
  }

  /** One neighbour list of `cur`, processed at `lvl`, keeps reachability and the justification of levels. */
  lemma GrownKeeps(edges: seq<FamilyEdge>, root: Id, cur: Id, st: Step, nbrs: seq<Id>,
                   levels: map<Id, int>, visited: set<Id>, queue: seq<Id>,
                   levels': map<Id, int>, visited': set<Id>, queue': seq<Id>)
    requires visited == levels.Keys && cur in levels && root in levels
    requires nbrs == Kinship.Neighbours(edges, cur, st)
    requires forall v :: v in visited ==> Kinship.Reachable(edges, root, v)
    requires Justified(edges, root, levels)
    requires Grown(nbrs, levels[cur] + Delta(st), levels, visited, queue, levels', visited', queue')
    ensures forall v :: v in visited' ==> Kinship.Reachable(edges, root, v)
    ensures Justified(edges, root, levels')
  {
    Kinship.NeighboursLink(edges, cur, st, nbrs);
    forall v | v in visited' ensures Kinship.Reachable(edges, root, v) {
      if v !in visited {
        ReachStep(edges, root, cur, st, v);
      }
    }
    forall v | v in levels' && v != root
      ensures exists u, st' :: u in levels' && Kinship.Link(edges, u, st', v) && levels'[v] == levels'[u] + Delta(st')
    {
      if v in levels {
        var u, st' :| u in levels && Kinship.Link(edges, u, st', v) && levels[v] == levels[u] + Delta(st');
        assert u in levels' && levels'[v] == levels'[u] + Delta(st');
      } else {
        assert Kinship.Link(edges, cur, st, v) && levels'[v] == levels'[cur] + Delta(st);
      }
    }
  }

  /** One neighbour list of `cur`: each person newly levelled gets the walk of `cur` plus one step. */
  lemma GrownDerived(edges: seq<FamilyEdge>, root: Id, cur: Id, st: Step,
                     levels: map<Id, int>, visited: set<Id>, queue: seq<Id>, walks: map<Id, Kinship.Visit>,
                     levels': map<Id, int>, visited': set<Id>, queue': seq<Id>)
    returns (walks': map<Id, Kinship.Visit>)
    requires visited == levels.Keys && cur in levels && Derived(edges, root, levels, walks)
    requires Grown(Kinship.Neighbours(edges, cur, st), levels[cur] + Delta(st), levels, visited, queue, levels', visited', queue')
    ensures Derived(edges, root, levels', walks')
  {
    walks' := map v | v in levels' :: if v in levels then walks[v] else Kinship.Next(walks[cur], st, v);
    Kinship.NeighboursLink(edges, cur, st, Kinship.Neighbours(edges, cur, st));
    forall v | v in levels' && v !in levels
      ensures walks'[v].id == v && Kinship.WalkTo(edges, root, walks'[v]) && levels'[v] == Height(walks'[v].steps)
    {
      StepWalk(edges, root, walks[cur], st, v);
      HeightSnoc(walks[cur].steps, st);
    }
  }

  /** The three lists of one round read from the index, processed spouses, parents, children. */
  ghost predicate RoundGrown(edges: seq<FamilyEdge>, cur: Id, lvl: int,
                             l0: map<Id, int>, v0: set<Id>, q0: seq<Id>,
                             l1: map<Id, int>, v1: set<Id>, q1: seq<Id>,
                             l2: map<Id, int>, v2: set<Id>, q2: seq<Id>,
                             l3: map<Id, int>, v3: set<Id>, q3: seq<Id>)
  {
    Grown(Kinship.Neighbours(edges, cur, H), lvl + Delta(H), l0, v0, q0, l1, v1, q1) &&
    Grown(Kinship.Neighbours(edges, cur, U), lvl + Delta(U), l1, v1, q1, l2, v2, q2) &&
    Grown(Kinship.Neighbours(edges, cur, D), lvl + Delta(D), l2, v2, q2, l3, v3, q3)
  }

  /** The body of the `while (queue.length)` loop after `queue.shift()`. */
  method LevelRound(edges: seq<FamilyEdge>, adj: Adjacency.Adjacency, cur: Id,
                    levels: map<Id, int>, visited: set<Id>, queue: seq<Id>)
    returns (levels3: map<Id, int>, visited3: set<Id>, queue3: seq<Id>,
             ghost l1: map<Id, int>, ghost v1: set<Id>, ghost q1: seq<Id>,
             ghost l2: map<Id, int>, ghost v2: set<Id>, ghost q2: seq<Id>)
    requires Adjacency.Indexes(adj, edges)
    requires visited == levels.Keys && cur in levels
    ensures Levelling(levels3, visited3, queue3) == RoundFrom(edges, cur, levels[cur], Levelling(levels, visited, queue))
    ensures RoundGrown(edges, cur, levels[cur], levels, visited, queue, l1, v1, q1, l2, v2, q2, levels3, visited3, queue3)
  {
    var l := levels[cur];
    var spouses := Adjacency.Get(adj.spousesById, cur);
    var parents := Adjacency.Get(adj.parentsByChild, cur);
    var children := Adjacency.Get(adj.childrenByParent, cur);
    assert spouses == Kinship.Neighbours(edges, cur, H) && parents == Kinship.Neighbours(edges, cur, U) &&
           children == Kinship.Neighbours(edges, cur, D);
    var m1, s1, r1 := LevelNeighbours(spouses, l, levels, visited, queue);
    var m2, s2, r2 := LevelNeighbours(parents, l - 1, m1, s1, r1);
    levels3, visited3, queue3 := LevelNeighbours(children, l + 1, m2, s2, r2);
    l1, v1, q1, l2, v2, q2 := m1, s1, r1, m2, s2, r2;
    RoundSteps(edges, cur, l, Levelling(levels, visited, queue), Levelling(m1, s1, r1), Levelling(m2, s2, r2),
               Levelling(levels3, visited3, queue3));
  }

  /** The three neighbour lists one after the other make up a round. */
  lemma RoundSteps(edges: seq<FamilyEdge>, cur: Id, l: int, s0: Levelling, s1: Levelling, s2: Levelling, s3: Levelling)
    requires s0.visited == s0.levels.Keys
    requires s1 == LevelAll(Kinship.Neighbours(edges, cur, H), l, s0)
    requires s2 == LevelAll(Kinship.Neighbours(edges, cur, U), l - 1, s1)
    requires s3 == LevelAll(Kinship.Neighbours(edges, cur, D), l + 1, s2)
    ensures s3 == RoundFrom(edges, cur, l, s0)
    ensures RoundGrown(edges, cur, l, s0.levels, s0.visited, s0.queue, s1.levels, s1.visited, s1.queue,
                       s2.levels, s2.visited, s2.queue, s3.levels, s3.visited, s3.queue)
  {
    assert l + Delta(H) == l && l + Delta(U) == l - 1 && l + Delta(D) == l + 1;
    LevelAllGrown(Kinship.Neighbours(edges, cur, H), l, s0);
    LevelAllGrown(Kinship.Neighbours(edges, cur, U), l - 1, s1);
    LevelAllGrown(Kinship.Neighbours(edges, cur, D), l + 1, s2);
  }

  /** One round keeps reachability and the justification of every level. */
  lemma RoundReach(edges: seq<FamilyEdge>, root: Id, cur: Id,
                   l0: map<Id, int>, v0: set<Id>, q0: seq<Id>,
                   l1: map<Id, int>, v1: set<Id>, q1: seq<Id>,
                   l2: map<Id, int>, v2: set<Id>, q2: seq<Id>,
                   l3: map<Id, int>, v3: set<Id>, q3: seq<Id>)
    requires v0 == l0.Keys && cur in l0 && root in l0
    requires forall v :: v in v0 ==> Kinship.Reachable(edges, root, v)
    requires Justified(edges, root, l0)
    requires RoundGrown(edges, cur, l0[cur], l0, v0, q0, l1, v1, q1, l2, v2, q2, l3, v3, q3)
    ensures forall v :: v in v3 ==> Kinship.Reachable(edges, root, v)
    ensures Justified(edges, root, l3)
  {
    GrownKeeps(edges, root, cur, H, Kinship.Neighbours(edges, cur, H), l0, v0, q0, l1, v1, q1);
    GrownKeeps(edges, root, cur, U, Kinship.Neighbours(edges, cur, U), l1, v1, q1, l2, v2, q2);
    GrownKeeps(edges, root, cur, D, Kinship.Neighbours(edges, cur, D), l2, v2, q2, l3, v3, q3);
  }

  /** One round records a walk for each person it levels. */
  lemma RoundDerived(edges: seq<FamilyEdge>, root: Id, cur: Id, walks: map<Id, Kinship.Visit>,
                     l0: map<Id, int>, v0: set<Id>, q0: seq<Id>,
                     l1: map<Id, int>, v1: set<Id>, q1: seq<Id>,
                     l2: map<Id, int>, v2: set<Id>, q2: seq<Id>,
                     l3: map<Id, int>, v3: set<Id>, q3: seq<Id>)
    returns (walks3: map<Id, Kinship.Visit>)
    requires v0 == l0.Keys && cur in l0 && Derived(edges, root, l0, walks)
    requires RoundGrown(edges, cur, l0[cur], l0, v0, q0, l1, v1, q1, l2, v2, q2, l3, v3, q3)
    ensures Derived(edges, root, l3, walks3)
  {
    var w1 := GrownDerived(edges, root, cur, H, l0, v0, q0, walks, l1, v1, q1);
    var w2 := GrownDerived(edges, root, cur, U, l1, v1, q1, w1, l2, v2, q2);
    walks3 := GrownDerived(edges, root, cur, D, l2, v2, q2, w2, l3, v3, q3);
  }

  /** One round keeps the bookkeeping of `visited`, `queue` and `done`, and closes `cur`. */
  lemma RoundKeys(edges: seq<FamilyEdge>, root: Id, universe: set<Id>, cur: Id, done: set<Id>,
                  l0: map<Id, int>, v0: set<Id>, q0: seq<Id>,
                  l1: map<Id, int>, v1: set<Id>, q1: seq<Id>,
                  l2: map<Id, int>, v2: set<Id>, q2: seq<Id>,
                  l3: map<Id, int>, v3: set<Id>, q3: seq<Id>)
    requires v0 == l0.Keys && cur in l0 && root in l0 && l0[root] == 0
    requires universe == Kinship.Universe(edges, root) && v0 <= universe
    requires forall v :: v in q0 ==> v in v0
    requires done <= v0 && forall v :: v in v0 ==> v in done || v in q0 || v == cur
    requires Closed(edges, done, v0)
    requires RoundGrown(edges, cur, l0[cur], l0, v0, q0, l1, v1, q1, l2, v2, q2, l3, v3, q3)
    ensures v3 == l3.Keys && root in l3 && l3[root] == 0
    ensures forall v :: v in q3 ==> v in v3
    ensures done + {cur} <= v3 && forall v :: v in v3 ==> v in done + {cur} || v in q3
    ensures Closed(edges, done + {cur}, v3)
    ensures v3 <= universe && v0 <= v3
    ensures v3 == v0 ==> q3 == q0
  {
    Adjacency.NeighboursAreEndpoints(edges, cur);
    forall u, st, w | u in done + {cur} && Kinship.Link(edges, u, st, w) ensures w in v3 {
      if u == cur {
        assert w in Kinship.Neighbours(edges, cur, st);
      }
    }
  }

  /** Taking the head off the queue leaves every other visited person done or still queued. */
  lemma Shift(queue: seq<Id>, visited: set<Id>, done: set<Id>)
    requires |queue| > 0 && (forall v :: v in queue ==> v in visited)
    requires forall v :: v in visited ==> v in done || v in queue
    ensures forall v :: v in queue[1..] ==> v in visited
    ensures forall v :: v in visited ==> v in done || v in queue[1..] || v == queue[0]
  {
    forall v | v in visited && v !in done && v != queue[0] ensures v in queue[1..] {
      var i :| 0 <= i < |queue| && queue[i] == v;
      assert queue[1..][i - 1] == v;
    }
  }

  /** The invariant holds after a round, and the round makes progress. */
  lemma Round(edges: seq<FamilyEdge>, root: Id, universe: set<Id>,
              levels: map<Id, int>, visited: set<Id>, queue: seq<Id>, done: set<Id>,
              l1: map<Id, int>, v1: set<Id>, q1: seq<Id>,
              l2: map<Id, int>, v2: set<Id>, q2: seq<Id>,
              l3: map<Id, int>, v3: set<Id>, q3: seq<Id>)
    requires universe == Kinship.Universe(edges, root)
    requires Inv(edges, root, universe, levels, visited, queue, done) && |queue| > 0
    requires RoundGrown(edges, queue[0], levels[queue[0]], levels, visited, queue[1..], l1, v1, q1, l2, v2, q2, l3, v3, q3)
    ensures Inv(edges, root, universe, l3, v3, q3, done + {queue[0]})
    ensures universe - v3 < universe - visited || (universe - v3 == universe - visited && |q3| < |queue|)
  {
    var cur := queue[0];
    Shift(queue, visited, done);
    RoundKeys(edges, root, universe, cur, done, levels, visited, queue[1..], l1, v1, q1, l2, v2, q2, l3, v3, q3);
    RoundReach(edges, root, cur, levels, visited, queue[1..], l1, v1, q1, l2, v2, q2, l3, v3, q3);
    if v3 != visited {
      var v :| v in v3 && v !in visited;
      assert v in universe - visited && v !in universe - v3;
    }
  }

  /** An empty queue leaves every person linked to a levelled one levelled: all reachable persons are. */
  lemma Finish(edges: seq<FamilyEdge>, root: Id, universe: set<Id>,
               levels: map<Id, int>, visited: set<Id>, done: set<Id>)
    requires Inv(edges, root, universe, levels, visited, [], done)
    ensures forall v :: v in levels <==> Kinship.Reachable(edges, root, v)
  {
    assert done == visited;
    forall v | Kinship.Reachable(edges, root, v) ensures v in levels {
      var w: Kinship.Visit :| w.id == v && Kinship.WalkTo(edges, root, w);
      WalkLevelled(edges, root, visited, w.steps, w.path);
    }
  }

  lemma {:induction false} WalkLevelled(edges: seq<FamilyEdge>, root: Id, visited: set<Id>,
                                        steps: seq<Step>, path: seq<Id>)
    requires root in visited && Closed(edges, visited, visited)
    requires Kinship.IsWalk(edges, root, steps, path)
    ensures path[|steps|] in visited
    decreases |steps|
  {
    if steps != [] {
      var k := |steps| - 1;
      assert Kinship.IsWalk(edges, root, steps[..k], path[..k + 1]) by {
        forall j | 0 <= j < k ensures Kinship.Link(edges, path[..k + 1][j], steps[..k][j], path[..k + 1][j + 1]) {
          assert path[..k + 1][j] == path[j] && path[..k + 1][j + 1] == path[j + 1] && steps[..k][j] == steps[j];
        }
      }
      WalkLevelled(edges, root, visited, steps[..k], path[..k + 1]);
      assert path[..k + 1][k] == path[k];
      assert Kinship.Link(edges, path[k], steps[k], path[k + 1]);
    }
  }

  /** One pass of the outer loop: the head of the queue is taken off and its three neighbour lists are levelled. */
  method LevelHead(edges: seq<FamilyEdge>, adj: Adjacency.Adjacency, root: Id,
                   levels: map<Id, int>, visited: set<Id>, queue: seq<Id>,
                   ghost done: set<Id>, ghost walks: map<Id, Kinship.Visit>)
    returns (levels': map<Id, int>, visited': set<Id>, queue': seq<Id>,
             ghost done': set<Id>, ghost walks': map<Id, Kinship.Visit>)
    requires Adjacency.Indexes(adj, edges)
    requires Inv(edges, root, Kinship.Universe(edges, root), levels, visited, queue, done) && |queue| > 0
    requires Derived(edges, root, levels, walks)
    ensures Levelling(levels', visited', queue') ==
            RoundFrom(edges, queue[0], levels[queue[0]], Levelling(levels, visited, queue[1..]))
    ensures Inv(edges, root, Kinship.Universe(edges, root), levels', visited', queue', done')
    ensures Derived(edges, root, levels', walks')
    ensures RunLevels(edges, root, Levelling(levels', visited', queue')) ==
            RunLevels(edges, root, Levelling(levels, visited, queue))
    ensures Kinship.Universe(edges, root) - visited' < Kinship.Universe(edges, root) - visited ||
            (Kinship.Universe(edges, root) - visited' == Kinship.Universe(edges, root) - visited && |queue'| < |queue|)
  {
    var cur := queue[0];
    ghost var l1, v1, q1, l2, v2, q2;
    levels', visited', queue', l1, v1, q1, l2, v2, q2 := LevelRound(edges, adj, cur, levels, visited, queue[1..]);
    Round(edges, root, Kinship.Universe(edges, root), levels, visited, queue, done, l1, v1, q1, l2, v2, q2,
          levels', visited', queue');
    walks' := RoundDerived(edges, root, cur, walks, levels, visited, queue[1..], l1, v1, q1, l2, v2, q2,
                           levels', visited', queue');
    RunLevelsRound(edges, root, Levelling(levels, visited, queue));
    done' := done + {cur};
  }

  /**
   * `calculateLayout` in services/layoutService.ts, lines 20-53: the root is
   * at level 0, exactly the persons reachable from it are levelled, and each
   * levelled person's level is the change of level along the walk it was first
   * reached by: the levels are those of the reference traversal `Levels`.
   */
  method AssignLevels(edges: seq<FamilyEdge>, adj: Adjacency.Adjacency, rootId: Id)
    returns (levels: map<Id, int>, ghost walks: map<Id, Kinship.Visit>)
    requires Adjacency.Indexes(adj, edges)
    ensures levels == Levels(edges, rootId)
    ensures rootId in levels && levels[rootId] == 0
    ensures forall v :: v in levels <==> Kinship.Reachable(edges, rootId, v)
    ensures Derived(edges, rootId, levels, walks)
    ensures Justified(edges, rootId, levels)
  {
    levels := map[rootId := 0];
    var queue := [rootId];
    var visited := {rootId};
    ghost var done: set<Id> := {};
    ghost var universe := Kinship.Universe(edges, rootId);
    walks := map[rootId := Kinship.Visit(rootId, [], [rootId])];
    Start(edges, rootId);
    while |queue| > 0
      invariant Inv(edges, rootId, universe, levels, visited, queue, done)
      invariant Derived(edges, rootId, levels, walks)
      invariant RunLevels(edges, rootId, Levelling(levels, visited, queue)) == RunLevels(edges, rootId, Initial(rootId))
      decreases universe - visited, |queue|
    {
      levels, visited, queue, done, walks := LevelHead(edges, adj, rootId, levels, visited, queue, done, walks);
    }
    Finish(edges, rootId, universe, levels, visited, done);
  }

  // A worked example: the root "R" is the parent of "A", and "A" is married to "B".

  /** The relations of the example: "R" parent of "A", then "A" spouse of "B". */
  function SpouseOfChild(): seq<FamilyEdge>
  {
    [FamilyEdge("e1", "R", "A", Lineage), FamilyEdge("e2", "A", "B", Spouse)]
  }

  /** The adjacency lists of the example. */
  lemma SpouseOfChildLists()
    ensures Kinship.Neighbours(SpouseOfChild(), "R", H) == [] && Kinship.Neighbours(SpouseOfChild(), "R", U) == []
    ensures Kinship.Neighbours(SpouseOfChild(), "R", D) == ["A"]
    ensures Kinship.Neighbours(SpouseOfChild(), "A", H) == ["B"] && Kinship.Neighbours(SpouseOfChild(), "A", U) == ["R"]
    ensures Kinship.Neighbours(SpouseOfChild(), "A", D) == []
    ensures Kinship.Neighbours(SpouseOfChild(), "B", H) == ["A"] && Kinship.Neighbours(SpouseOfChild(), "B", U) == []
    ensures Kinship.Neighbours(SpouseOfChild(), "B", D) == []
  {
    var e1, e2 := FamilyEdge("e1", "R", "A", Lineage), FamilyEdge("e2", "A", "B", Spouse);
    var edges := SpouseOfChild();
    assert edges[..1] == [e1] && [e1][..0] == [];
    assert "A" != "R" && "B" != "R" && "A" != "B";
    forall id ensures Adjacency.ParentsOf(edges, id) == Adjacency.ParentsOf([e1], id) &&
                      Adjacency.ChildrenOf(edges, id) == Adjacency.ChildrenOf([e1], id) &&
                      Adjacency.ParentsOf([e1], id) == (if id == "A" then ["R"] else []) &&
                      Adjacency.ChildrenOf([e1], id) == (if id == "R" then ["A"] else []) &&
                      Adjacency.SpousesOf([e1], id) == []
    {
    }
    forall id ensures Adjacency.SpousesOf(edges, id) == (if id == "A" then ["B"] else if id == "B" then ["A"] else [])
    {
    }
  }

  /** "A" is one level below the root, and its spouse "B" shares that level. */
  lemma SpouseOfChildLevels()
    ensures Levels(SpouseOfChild(), "R") == map["R" := 0, "A" := 1, "B" := 1]
  {
    var s0 := Initial("R");
    assert s0.queue[0] == "R" && s0.levels["R"] == 0 && s0.queue[1..] == [];
    SpouseOfChildRounds();
    SpouseOfChildEndpoints();
    RunLevelsRound(SpouseOfChild(), "R", s0);
    SpouseOfChildFromChild();
  }

  lemma SpouseOfChildEndpoints()
    ensures {"R", "A", "B"} <= Kinship.Universe(SpouseOfChild(), "R")
  {
    var edges := SpouseOfChild();
    assert edges[0].target == "A" && edges[1].target == "B";
  }

  lemma SpouseOfChildFromChild()
    ensures Levelled(SpouseOfChild(), "R", Levelling(map["R" := 0, "A" := 1], {"R", "A"}, ["A"])) &&
            RunLevels(SpouseOfChild(), "R", Levelling(map["R" := 0, "A" := 1], {"R", "A"}, ["A"])) ==
            Levelling(map["R" := 0, "A" := 1, "B" := 1], {"R", "A", "B"}, [])
  {
    var s1 := Levelling(map["R" := 0, "A" := 1], {"R", "A"}, ["A"]);
    assert s1.queue[0] == "A" && s1.levels["A"] == 1 && s1.queue[1..] == [];
    SpouseOfChildRounds();
    SpouseOfChildEndpoints();
    RunLevelsRound(SpouseOfChild(), "R", s1);
    SpouseOfChildFromSpouse();
  }

  lemma SpouseOfChildFromSpouse()
    ensures Levelled(SpouseOfChild(), "R", Levelling(map["R" := 0, "A" := 1, "B" := 1], {"R", "A", "B"}, ["B"])) &&
            RunLevels(SpouseOfChild(), "R", Levelling(map["R" := 0, "A" := 1, "B" := 1], {"R", "A", "B"}, ["B"])) ==
            Levelling(map["R" := 0, "A" := 1, "B" := 1], {"R", "A", "B"}, [])
  {
    var s2 := Levelling(map["R" := 0, "A" := 1, "B" := 1], {"R", "A", "B"}, ["B"]);
    assert s2.queue[0] == "B" && s2.levels["B"] == 1 && s2.queue[1..] == [];
    SpouseOfChildRounds();
    SpouseOfChildEndpoints();
    RunLevelsRound(SpouseOfChild(), "R", s2);
  }

  lemma SpouseOfChildRounds()
    ensures RoundFrom(SpouseOfChild(), "R", 0, Levelling(map["R" := 0], {"R"}, [])) ==
            Levelling(map["R" := 0, "A" := 1], {"R", "A"}, ["A"])
    ensures RoundFrom(SpouseOfChild(), "A", 1, Levelling(map["R" := 0, "A" := 1], {"R", "A"}, [])) ==
            Levelling(map["R" := 0, "A" := 1, "B" := 1], {"R", "A", "B"}, ["B"])
    ensures RoundFrom(SpouseOfChild(), "B", 1, Levelling(map["R" := 0, "A" := 1, "B" := 1], {"R", "A", "B"}, [])) ==
            Levelling(map["R" := 0, "A" := 1, "B" := 1], {"R", "A", "B"}, [])
  {
    SpouseOfChildLists();
    RoundOfRoot();
    RoundOfChild();
    RoundOfSpouse();
  }

  lemma RoundOfRoot()
    requires Kinship.Neighbours(SpouseOfChild(), "R", H) == [] && Kinship.Neighbours(SpouseOfChild(), "R", U) == []
    requires Kinship.Neighbours(SpouseOfChild(), "R", D) == ["A"]
    ensures RoundFrom(SpouseOfChild(), "R", 0, Levelling(map["R" := 0], {"R"}, [])) ==
            Levelling(map["R" := 0, "A" := 1], {"R", "A"}, ["A"])
  {
    assert ["A"][1..] == [];
  }

  lemma RoundOfChild()
    requires Kinship.Neighbours(SpouseOfChild(), "A", H) == ["B"] && Kinship.Neighbours(SpouseOfChild(), "A", U) == ["R"]
    requires Kinship.Neighbours(SpouseOfChild(), "A", D) == []
    ensures RoundFrom(SpouseOfChild(), "A", 1, Levelling(map["R" := 0, "A" := 1], {"R", "A"}, [])) ==
            Levelling(map["R" := 0, "A" := 1, "B" := 1], {"R", "A", "B"}, ["B"])
  {
    assert ["B"][1..] == [] && ["R"][1..] == [];
  }

  lemma RoundOfSpouse()
    requires Kinship.Neighbours(SpouseOfChild(), "B", H) == ["A"] && Kinship.Neighbours(SpouseOfChild(), "B", U) == []
    requires Kinship.Neighbours(SpouseOfChild(), "B", D) == []
    ensures RoundFrom(SpouseOfChild(), "B", 1, Levelling(map["R" := 0, "A" := 1, "B" := 1], {"R", "A", "B"}, [])) ==
            Levelling(map["R" := 0, "A" := 1, "B" := 1], {"R", "A", "B"}, [])
  {
    assert ["A"][1..] == [];
  }
}
