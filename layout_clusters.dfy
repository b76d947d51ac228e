/**
 * Step A of laying out one row: the row is split into clusters of persons
 * joined by marriage or by a shared child, each cluster's members are
 * ordered by their current x, and each cluster gets the centre it would
 * like to sit at.
 */
module LayoutClusters {
  import opened Family
  import opened Lists
  import Adjacency

  datatype Cluster = Cluster(ids: seq<Id>, desiredCenter: real, currentCenter: real)

  // ---------------------------------------------------------------------
  // Partners: spouses and co-parents within the row

  /** The parents that are not `curr` and stand in the row: those the co-parent set receives. */
  function CoParentFilter(row: seq<Id>, curr: Id, parents: seq<Id>): seq<Id>
  {
    if parents == [] then []
    else
      var p := parents[|parents| - 1];
      CoParentFilter(row, curr, parents[..|parents| - 1]) + (if p != curr && p in row then [p] else [])
  }

  /** The co-parent candidates met while walking `children` in order. */
  function CoParentCandidates(edges: seq<FamilyEdge>, row: seq<Id>, curr: Id, children: seq<Id>): seq<Id>
  {
    if children == [] then []
    else
      CoParentCandidates(edges, row, curr, children[..|children| - 1]) +
      CoParentFilter(row, curr, Adjacency.ParentsOf(edges, children[|children| - 1]))
  }

  lemma {:induction false} CoParentFilterMembers(row: seq<Id>, curr: Id, parents: seq<Id>, p: Id)
    ensures p in CoParentFilter(row, curr, parents) <==> p in parents && p != curr && p in row
  {
    if parents != [] {
      var init := parents[..|parents| - 1];
      CoParentFilterMembers(row, curr, init, p);
      assert parents == init + [parents[|parents| - 1]];
    }
  }

  lemma {:induction false} CoParentCandidatesMembers(edges: seq<FamilyEdge>, row: seq<Id>, curr: Id,
                                                     children: seq<Id>, p: Id)
    ensures p in CoParentCandidates(edges, row, curr, children) <==>
            p != curr && p in row && exists c :: c in children && p in Adjacency.ParentsOf(edges, c)
  {
    if children != [] {
      var init, last := children[..|children| - 1], children[|children| - 1];
      CoParentCandidatesMembers(edges, row, curr, init, p);
      CoParentFilterMembers(row, curr, Adjacency.ParentsOf(edges, last), p);
      assert children == init + [last];
      if exists c :: c in children && p in Adjacency.ParentsOf(edges, c) {
        var c :| c in children && p in Adjacency.ParentsOf(edges, c);
        assert c in init || c == last;
      }
    }
  }

  /** Two persons are partners when married, or when both are parents of one child. */
  ghost predicate Partner(edges: seq<FamilyEdge>, row: seq<Id>, a: Id, b: Id)
  {
    b in row &&
    (b in Adjacency.SpousesOf(edges, a) || b in CoParentCandidates(edges, row, a, Adjacency.ChildrenOf(edges, a)))
  }

  /** The co-parents of `curr` in the row are exactly the other parents of its children. */
  lemma CoParentsShareAChild(edges: seq<FamilyEdge>, row: seq<Id>, curr: Id, p: Id)
    ensures p in CoParentCandidates(edges, row, curr, Adjacency.ChildrenOf(edges, curr)) <==>
            p != curr && p in row &&
            exists c :: Adjacency.IsLineage(edges, curr, c) && Adjacency.IsLineage(edges, p, c)
  {
    CoParentCandidatesMembers(edges, row, curr, Adjacency.ChildrenOf(edges, curr), p);
    forall c ensures c in Adjacency.ChildrenOf(edges, curr) && p in Adjacency.ParentsOf(edges, c) <==>
                     Adjacency.IsLineage(edges, curr, c) && Adjacency.IsLineage(edges, p, c)
    {
      Adjacency.ParentChildDuality(edges, curr, c);
      Adjacency.ParentChildDuality(edges, p, c);
    }
  }

  /** Partnership is symmetric: marriage is read from both ends, and sharing a child is mutual. */
  lemma PartnerSymmetric(edges: seq<FamilyEdge>, row: seq<Id>, a: Id, b: Id)
    requires a in row && Partner(edges, row, a, b)
    ensures Partner(edges, row, b, a)
  {
    Adjacency.SpouseSymmetry(edges, a, b);
    CoParentsShareAChild(edges, row, a, b);
    CoParentsShareAChild(edges, row, b, a);
  }

  /** Adds to the co-parent set each parent that is not `curr` and stands in the row. */
  method AddCoParents(row: seq<Id>, curr: Id, parents: seq<Id>, coParents: seq<Id>, ghost seen: seq<Id>)
    returns (coParents': seq<Id>)
    requires coParents == Distinct(seen)
    ensures coParents' == Distinct(seen + CoParentFilter(row, curr, parents))
  {
    coParents' := coParents;
    assert seen + CoParentFilter(row, curr, parents[..0]) == seen;
    for j := 0 to |parents|
      invariant coParents' == Distinct(seen + CoParentFilter(row, curr, parents[..j]))
    {
      var p := parents[j];
      FilterStep(row, curr, parents, j, seen);
      if p != curr && p in row && p !in coParents' {
        coParents' := coParents' + [p];
      }
    }
    TakeAll(parents);
  }

  /** One more parent: it joins the co-parent set when it is not `curr`, is in the row and is new. */
  lemma FilterStep(row: seq<Id>, curr: Id, parents: seq<Id>, j: nat, seen: seq<Id>)
    requires j < |parents|
    ensures var before := seen + CoParentFilter(row, curr, parents[..j]);
            var p := parents[j];
            Distinct(seen + CoParentFilter(row, curr, parents[..j + 1])) ==
            if p != curr && p in row && p !in Distinct(before) then Distinct(before) + [p] else Distinct(before)
  {
    var p := parents[j];
    assert parents[..j + 1][..j] == parents[..j];
    var before := seen + CoParentFilter(row, curr, parents[..j]);
    if p != curr && p in row {
      assert seen + CoParentFilter(row, curr, parents[..j + 1]) == before + [p];
      DistinctSnoc(before, p);
    } else {
      assert seen + CoParentFilter(row, curr, parents[..j + 1]) == before;
    }
  }

  lemma CandidatesSnoc(edges: seq<FamilyEdge>, row: seq<Id>, curr: Id, children: seq<Id>, i: nat, parents: seq<Id>)
    requires i < |children| && parents == Adjacency.ParentsOf(edges, children[i])
    ensures CoParentCandidates(edges, row, curr, children[..i + 1]) ==
            CoParentCandidates(edges, row, curr, children[..i]) + CoParentFilter(row, curr, parents)
  {
    assert children[..i + 1][..i] == children[..i];
  }

  /**
   * `calculateLayout` in services/layoutService.ts, lines 95-102: the children
   * of `curr` are walked in order and each one's other parents in the row are
   * collected into the set `coParents`.
   */
  method CoParents(edges: seq<FamilyEdge>, adj: Adjacency.Adjacency, row: seq<Id>, curr: Id)
    returns (coParents: seq<Id>)
    requires Adjacency.Indexes(adj, edges)
    ensures coParents == Distinct(CoParentCandidates(edges, row, curr, Adjacency.ChildrenOf(edges, curr)))
  {
    var children := Adjacency.Get(adj.childrenByParent, curr);
    assert children == Adjacency.ChildrenOf(edges, curr);
    coParents := [];
    for i := 0 to |children|
      invariant coParents == Distinct(CoParentCandidates(edges, row, curr, children[..i]))
    {
      var parents := Adjacency.Get(adj.parentsByChild, children[i]);
      ghost var seen := CoParentCandidates(edges, row, curr, children[..i]);
      CandidatesSnoc(edges, row, curr, children, i, parents);
      coParents := AddCoParents(row, curr, parents, coParents, seen);
    }
    TakeAll(children);
  }

  // ---------------------------------------------------------------------
  // The cluster traversal

  /**
   * What one `partners.forEach` does: each partner in the row not yet
   * visited is visited and appended to both the cluster and the queue.
   */
  ghost predicate Added(row: seq<Id>, partners: seq<Id>, visited: set<Id>, ids: seq<Id>, q: seq<Id>,
                        visited': set<Id>, ids': seq<Id>, q': seq<Id>)
  {
    |ids'| >= |ids| && ids'[..|ids|] == ids && q' == q + ids'[|ids|..] &&
    NoDup(ids'[|ids|..]) &&
    (forall x :: x in ids'[|ids|..] ==> x in row && x in partners && x !in visited) &&
    (forall x :: x in visited' <==> x in visited || x in ids'[|ids|..]) &&
    (forall x :: x in partners && x in row ==> x in visited')
  }

  /** Marks and queues each partner that stands in the row and is not yet visited. */
  method AddPartners(row: seq<Id>, partners: seq<Id>, visited: set<Id>, ids: seq<Id>, q: seq<Id>)
    returns (visited': set<Id>, ids': seq<Id>, q': seq<Id>)
    ensures Added(row, partners, visited, ids, q, visited', ids', q')
    ensures Search(visited', ids', q') == VisitPartners(row, partners, Search(visited, ids, q))
  {
    visited', ids', q' := visited, ids, q;
    for j := 0 to |partners|
      invariant Added(row, partners[..j], visited, ids, q, visited', ids', q')
      invariant VisitPartners(row, partners[j..], Search(visited', ids', q')) ==
                VisitPartners(row, partners, Search(visited, ids, q))
    {
      var s := partners[j];
      VisitAt(row, partners, j, Search(visited', ids', q'));
      AddedStep(row, partners, j, visited, ids, q, visited', ids', q');
      if s in row && s !in visited' {
        visited' := visited' + {s};
        ids' := ids' + [s];
        q' := q' + [s];
      }
    }
    TakeAll(partners);
    assert partners[|partners|..] == [];
  }

  /** One more partner keeps `Added`, for the state `VisitOne` gives. */
  lemma AddedStep(row: seq<Id>, partners: seq<Id>, j: nat, visited: set<Id>, ids: seq<Id>, q: seq<Id>,
                  v: set<Id>, ids': seq<Id>, q': seq<Id>)
    requires j < |partners| && Added(row, partners[..j], visited, ids, q, v, ids', q')
    ensures var r := VisitOne(row, partners[j], Search(v, ids', q'));
            Added(row, partners[..j + 1], visited, ids, q, r.visited, r.ids, r.q)
  {
    var s := partners[j];
    TakeSnoc(partners, j);
    if s in row && s !in v {
      var ids2 := ids' + [s];
      assert ids2[|ids|..] == ids'[|ids|..] + [s];
    }
  }

  /** The set of persons of a row. */
  function RowSet(row: seq<Id>): set<Id>
  {
    set x | x in row
  }

  /** Each member after the first is a partner of an earlier member: the members hang together. */
  ghost predicate PartnerChain(edges: seq<FamilyEdge>, row: seq<Id>, ids: seq<Id>)
  {
    forall j :: 0 < j < |ids| ==> HasEarlierPartner(edges, row, ids, j)
  }

  /** Member `j` is a partner of some member before it. */
  ghost predicate HasEarlierPartner(edges: seq<FamilyEdge>, row: seq<Id>, ids: seq<Id>, j: int)
    requires 0 <= j < |ids|
  {
    exists i :: 0 <= i < j && Partner(edges, row, ids[i], ids[j])
  }

  /** The state of the cluster traversal: `q` is the unprocessed tail of `ids`. */
  ghost predicate Growing(edges: seq<FamilyEdge>, row: seq<Id>, start: Id, visited: set<Id>,
                          ids: seq<Id>, q: seq<Id>, visited': set<Id>, k: nat)
  {
    |ids| > 0 && ids[0] == start && NoDup(ids) &&
    (forall x :: x in ids ==> x in row && x !in visited) &&
    (forall x :: x in visited' <==> x in visited || x in ids) &&
    k <= |ids| && q == ids[k..] &&
    (forall i, p :: 0 <= i < k && Partner(edges, row, ids[i], p) ==> p in visited') &&
    PartnerChain(edges, row, ids)
  }

  /** The partner list holds the spouses and the co-parent candidates, and nobody else. */
  lemma PartnerListMembers(edges: seq<FamilyEdge>, row: seq<Id>, curr: Id)
    ensures forall p :: p in PartnerList(edges, row, curr) <==>
              p in Adjacency.SpousesOf(edges, curr) ||
              p in CoParentCandidates(edges, row, curr, Adjacency.ChildrenOf(edges, curr))
  {
  }

  /** Processing the head of the queue keeps the traversal state. */
  lemma GrowStep(edges: seq<FamilyEdge>, row: seq<Id>, start: Id, visited: set<Id>,
                 ids: seq<Id>, q: seq<Id>, visited': set<Id>, k: nat,
                 partners: seq<Id>, v2: set<Id>, ids2: seq<Id>, q2: seq<Id>)
    requires Growing(edges, row, start, visited, ids, q, visited', k) && |q| > 0
    requires forall p :: p in partners <==> (p in Adjacency.SpousesOf(edges, ids[k]) ||
                                            p in CoParentCandidates(edges, row, ids[k], Adjacency.ChildrenOf(edges, ids[k])))
    requires Added(row, partners, visited', ids, q[1..], v2, ids2, q2)
    ensures Growing(edges, row, start, visited, ids2, q2, v2, k + 1)
    ensures RowSet(row) - v2 < RowSet(row) - visited' || (RowSet(row) - v2 == RowSet(row) - visited' && |q2| < |q|)
  {
    var added := ids2[|ids|..];
    assert ids2 == ids + added;
    assert q2 == ids2[k + 1..] by {
      assert q[1..] == ids[k + 1..];
    }
    NoDupAppend(ids, added);
    forall i, p | 0 <= i < k + 1 && Partner(edges, row, ids2[i], p) ensures p in v2 {
      assert ids2[i] == ids[i];
    }
    ChainGrows(edges, row, ids, k, added, ids2);
    if added != [] {
      assert added[0] in RowSet(row) - visited' && added[0] !in RowSet(row) - v2;
    } else {
      assert v2 == visited';
    }
  }

  /** Members appended as partners of member `k` keep the cluster hanging together. */
  lemma ChainGrows(edges: seq<FamilyEdge>, row: seq<Id>, ids: seq<Id>, k: nat, added: seq<Id>, ids2: seq<Id>)
    requires k < |ids| && PartnerChain(edges, row, ids)
    requires forall x :: x in added ==> Partner(edges, row, ids[k], x)
    requires ids2 == ids + added
    ensures PartnerChain(edges, row, ids2)
  {
    forall j | 0 < j < |ids2| ensures HasEarlierPartner(edges, row, ids2, j) {
      var w;
      if j < |ids| {
        assert HasEarlierPartner(edges, row, ids, j);
        w :| 0 <= w < j && Partner(edges, row, ids[w], ids[j]);
      } else {
        w := k;
        assert ids2[j] == added[j - |ids|] && ids2[j] in added;
      }
      assert 0 <= w < j && Partner(edges, row, ids2[w], ids2[j]);
    }
  }

  // ---------------------------------------------------------------------
  // The reference traversal, in the order `calculateLayout` visits

  /** The traversal state: the persons visited in the row, the cluster so far and the queue. */
  datatype Search = Search(visited: set<Id>, ids: seq<Id>, q: seq<Id>)

  /** `new Set([...spouses, ...coParents])`: the spouses, then the co-parents, each once, in that order. */
  function PartnerList(edges: seq<FamilyEdge>, row: seq<Id>, curr: Id): seq<Id>
  {
    Distinct(Adjacency.SpousesOf(edges, curr) +
             Distinct(CoParentCandidates(edges, row, curr, Adjacency.ChildrenOf(edges, curr))))
  }

  /**
   * One `partners.forEach`, in list order: each partner in the row not yet
   * visited is visited, appended to the cluster and queued. The visited
   * persons grow by exactly the partners in the row; when nobody new is
   * visited, the queue is as it was.
   */
  function VisitPartners(row: seq<Id>, partners: seq<Id>, s: Search): (r: Search)
    ensures forall x :: x in r.visited <==> x in s.visited || (x in partners && x in row)
    ensures |r.ids| >= |s.ids|
    ensures r.visited == s.visited ==> r.q == s.q
    decreases |partners|
  {
    if partners == [] then s
    else
      var p := partners[0];
      var r := VisitPartners(row, partners[1..], VisitOne(row, p, s));
      assert p in row && p !in s.visited ==> p in r.visited;
      r
  }

  /** One partner: visited, appended and queued when it stands in the row and is not yet visited. */
  function VisitOne(row: seq<Id>, p: Id, s: Search): Search
  {
    if p in row && p !in s.visited then Search(s.visited + {p}, s.ids + [p], s.q + [p]) else s
  }

  lemma VisitAt(row: seq<Id>, partners: seq<Id>, j: nat, s: Search)
    requires j < |partners|
    ensures VisitPartners(row, partners[j..], s) == VisitPartners(row, partners[j + 1..], VisitOne(row, partners[j], s))
  {
    assert partners[j..][0] == partners[j] && partners[j..][1..] == partners[j + 1..];
  }

  /** One pass of the `while` loop, unfolded. */
  lemma GrowRound(edges: seq<FamilyEdge>, row: seq<Id>, s: Search)
    requires |s.q| > 0
    ensures GrowFrom(edges, row, s) ==
            GrowFrom(edges, row, VisitPartners(row, PartnerList(edges, row, s.q[0]), Search(s.visited, s.ids, s.q[1..])))
  {
    assert s.(q := s.q[1..]) == Search(s.visited, s.ids, s.q[1..]);
  }

  /** One person of the row, unfolded: skipped when visited, otherwise the start of the next cluster. */
  lemma OrdersAt(edges: seq<FamilyEdge>, row: seq<Id>, i: nat, visited: set<Id>)
    requires i < |row|
    ensures OrdersFrom(edges, row, row[i..], visited) ==
            if row[i] in visited then OrdersFrom(edges, row, row[i + 1..], visited)
            else [GrowFrom(edges, row, Seed(visited, row[i])).ids] +
                 OrdersFrom(edges, row, row[i + 1..], GrowFrom(edges, row, Seed(visited, row[i])).visited)
  {
    assert row[i..][0] == row[i] && row[i..][1..] == row[i + 1..];
  }

  /** A round either visits a new person of the row or shortens the queue. */
  lemma VisitProgress(row: seq<Id>, partners: seq<Id>, s: Search)
    requires |s.q| > 0
    ensures var r := VisitPartners(row, partners, s.(q := s.q[1..]));
            RowSet(row) - r.visited < RowSet(row) - s.visited || (r.visited == s.visited && |r.q| < |s.q|)
  {
    var r := VisitPartners(row, partners, s.(q := s.q[1..]));
    if r.visited != s.visited {
      var x :| x in r.visited && x !in s.visited;
      assert x in RowSet(row) - s.visited && x !in RowSet(row) - r.visited;
    }
  }

  /** The `while (q.length)` loop: the head of the queue is taken off and its partners visited, until the queue is empty. */
  function GrowFrom(edges: seq<FamilyEdge>, row: seq<Id>, s: Search): (r: Search)
    ensures r.q == [] && |r.ids| >= |s.ids|
    decreases RowSet(row) - s.visited, |s.q|
  {
    if s.q == [] then s
    else
      VisitProgress(row, PartnerList(edges, row, s.q[0]), s);
      GrowFrom(edges, row, VisitPartners(row, PartnerList(edges, row, s.q[0]), s.(q := s.q[1..])))
  }

  /** The start of a traversal from `start`: it alone is visited, in the cluster and queued. */
  function Seed(visited: set<Id>, start: Id): Search
  {
    Search(visited + {start}, [start], [start])
  }

  /** The `rowNodes.forEach` from `rest` on: each person not yet visited starts a cluster, in row order. */
  function OrdersFrom(edges: seq<FamilyEdge>, row: seq<Id>, rest: seq<Id>, visited: set<Id>): (r: seq<seq<Id>>)
    ensures forall k :: 0 <= k < |r| ==> |r[k]| > 0
    decreases |rest|
  {
    if rest == [] then []
    else if rest[0] in visited then OrdersFrom(edges, row, rest[1..], visited)
    else
      var s := GrowFrom(edges, row, Seed(visited, rest[0]));
      [s.ids] + OrdersFrom(edges, row, rest[1..], s.visited)
  }

  /** The clusters of a row, each in the order the traversal found its members. */
  function ClusterOrders(edges: seq<FamilyEdge>, row: seq<Id>): seq<seq<Id>>
  {
    OrdersFrom(edges, row, row, {})
  }

  /** A cluster from the order its members were found in: sorted by current x, with its two centres. */
  function MakeCluster(nodes: seq<FamilyNode>, edges: seq<FamilyEdge>, levels: map<Id, int>,
                       positions: map<Id, real>, rootId: Id, lvl: int, order: seq<Id>): Cluster
    requires |order| > 0
  {
    var ids := SortByX(nodes, order);
    assert |ids| == |multiset(ids)| == |order|;
    Cluster(ids, DesiredCenter(nodes, edges, levels, positions, rootId, lvl, ids), Mean(CurrentXs(nodes, ids)))
  }

  /** The clusters of a row, in the order of their first person in the row. */
  function ClustersOf(nodes: seq<FamilyNode>, edges: seq<FamilyEdge>, levels: map<Id, int>,
                      positions: map<Id, real>, rootId: Id, lvl: int, row: seq<Id>): seq<Cluster>
  {
    var orders := ClusterOrders(edges, row);
    seq(|orders|, k requires 0 <= k < |orders| => MakeCluster(nodes, edges, levels, positions, rootId, lvl, orders[k]))
  }

  /**
   * `calculateLayout` in services/layoutService.ts, lines 84-113: the
   * traversal from `start` over partners in the row. The cluster starts with
   * `start`, holds persons of the row not visited before, each once, and every
   * partner of a member is visited by the end. Each member after `start` was
   * reached as a partner of an earlier one.
   */
  method GrowCluster(edges: seq<FamilyEdge>, adj: Adjacency.Adjacency, row: seq<Id>, start: Id, visited: set<Id>)
    returns (ids: seq<Id>, visited': set<Id>)
    requires Adjacency.Indexes(adj, edges)
    requires start in row && start !in visited
    ensures |ids| > 0 && ids[0] == start && NoDup(ids)
    ensures forall x :: x in ids ==> x in row && x !in visited
    ensures forall x :: x in visited' <==> x in visited || x in ids
    ensures forall m, p :: m in ids && Partner(edges, row, m, p) ==> p in visited'
    ensures PartnerChain(edges, row, ids)
    ensures Search(visited', ids, []) == GrowFrom(edges, row, Seed(visited, start))
  {
    ids := [start];
    var q := [start];
    visited' := visited + {start};
    ghost var k := 0;
    GrowStart(edges, row, start, visited);
    while |q| > 0
      invariant Growing(edges, row, start, visited, ids, q, visited', k)
      invariant GrowFrom(edges, row, Search(visited', ids, q)) == GrowFrom(edges, row, Seed(visited, start))
      decreases RowSet(row) - visited', |q|
    {
      visited', ids, q, k := ClusterHead(edges, adj, row, start, visited, ids, q, visited', k);
    }
    GrowDone(edges, row, start, visited, ids, visited', k);
  }

  /** The state before the first pass: only `start` is visited, in the cluster and queued. */
  lemma GrowStart(edges: seq<FamilyEdge>, row: seq<Id>, start: Id, visited: set<Id>)
    requires start in row && start !in visited
    ensures Growing(edges, row, start, visited, [start], [start], visited + {start}, 0)
    ensures Search(visited + {start}, [start], [start]) == Seed(visited, start)
  {
  }

  /** Once the queue is empty, every member's partners are visited and the traversal is over. */
  lemma GrowDone(edges: seq<FamilyEdge>, row: seq<Id>, start: Id, visited: set<Id>,
                 ids: seq<Id>, visited': set<Id>, k: nat)
    requires Growing(edges, row, start, visited, ids, [], visited', k)
    ensures k == |ids|
    ensures forall m, p :: m in ids && Partner(edges, row, m, p) ==> p in visited'
  {
    forall m, p | m in ids && Partner(edges, row, m, p) ensures p in visited' {
      var i :| 0 <= i < |ids| && ids[i] == m;
    }
  }

  /**
   * One pass of the `while` loop of lines 89-112: the head of the queue is
   * taken off and its partners, spouses first, are visited. It keeps the
   * traversal state and leaves the rest of `GrowFrom` unchanged.
   */
  method ClusterHead(edges: seq<FamilyEdge>, adj: Adjacency.Adjacency, row: seq<Id>, start: Id, visited: set<Id>,
                     ids: seq<Id>, q: seq<Id>, visited': set<Id>, ghost k: nat)
    returns (v2: set<Id>, ids2: seq<Id>, q2: seq<Id>, ghost k2: nat)
    requires Adjacency.Indexes(adj, edges)
    requires Growing(edges, row, start, visited, ids, q, visited', k) && |q| > 0
    ensures Growing(edges, row, start, visited, ids2, q2, v2, k2)
    ensures GrowFrom(edges, row, Search(v2, ids2, q2)) == GrowFrom(edges, row, Search(visited', ids, q))
    ensures RowSet(row) - v2 < RowSet(row) - visited' || (RowSet(row) - v2 == RowSet(row) - visited' && |q2| < |q|)
  {
    var curr := q[0];
    var spouses := Adjacency.Get(adj.spousesById, curr);
    var coParents := CoParents(edges, adj, row, curr);
    var partners := Distinct(spouses + coParents);
    assert curr == ids[k] && partners == PartnerList(edges, row, curr);
    PartnerListMembers(edges, row, curr);
    GrowRound(edges, row, Search(visited', ids, q));
    v2, ids2, q2 := AddPartners(row, partners, visited', ids, q[1..]);
    GrowStep(edges, row, start, visited, ids, q, visited', k, partners, v2, ids2, q2);
    k2 := k + 1;
  }

  // ---------------------------------------------------------------------
  // Ordering the members by current x

  predicate SortedByX(nodes: seq<FamilyNode>, s: seq<Id>)
  {
    forall i, j :: 0 <= i < j < |s| ==> CurrentX(nodes, s[i]) <= CurrentX(nodes, s[j])
  }

  /** Places `x` after every member whose x is not larger, before the first larger one. */
  function InsertByX(nodes: seq<FamilyNode>, x: Id, sorted: seq<Id>): (r: seq<Id>)
    requires SortedByX(nodes, sorted)
    ensures SortedByX(nodes, r)
    ensures multiset(r) == multiset(sorted) + multiset{x}
  {
    if sorted == [] || CurrentX(nodes, x) < CurrentX(nodes, sorted[0]) then
      ConsSortedByX(nodes, x, sorted);
      [x] + sorted
    else
      var rest := InsertByX(nodes, x, sorted[1..]);
      InsertByXTail(nodes, x, sorted, rest);
      [sorted[0]] + rest
  }

  /** A member whose x is below the head's can go in front of a sorted list. */
  lemma ConsSortedByX(nodes: seq<FamilyNode>, x: Id, s: seq<Id>)
    requires SortedByX(nodes, s) && (s == [] || CurrentX(nodes, x) < CurrentX(nodes, s[0]))
    ensures SortedByX(nodes, [x] + s)
  {
  }

  /** Inserting past the head: the head goes in front of the insertion into the tail. */
  lemma InsertByXTail(nodes: seq<FamilyNode>, x: Id, sorted: seq<Id>, rest: seq<Id>)
    requires SortedByX(nodes, sorted) && sorted != [] && CurrentX(nodes, sorted[0]) <= CurrentX(nodes, x)
    requires SortedByX(nodes, rest) && multiset(rest) == multiset(sorted[1..]) + multiset{x}
    ensures SortedByX(nodes, [sorted[0]] + rest)
    ensures multiset([sorted[0]] + rest) == multiset(sorted) + multiset{x}
  {
    assert sorted == [sorted[0]] + sorted[1..];
    var others := [x] + sorted[1..];
    assert multiset(others) == multiset(sorted[1..]) + multiset{x};
    assert forall k :: 0 <= k < |others| ==> CurrentX(nodes, sorted[0]) <= CurrentX(nodes, others[k]) by {
      forall k | 0 <= k < |others| ensures CurrentX(nodes, sorted[0]) <= CurrentX(nodes, others[k]) {
        if k > 0 {
          assert others[k] == sorted[k];
        }
      }
    }
    AtLeastX(nodes, rest, others, CurrentX(nodes, sorted[0]));
    HeadBelowAll(nodes, sorted[0], rest);
  }

  /** A rearrangement of members whose x are all at least `lo` has the same bound. */
  lemma AtLeastX(nodes: seq<FamilyNode>, a: seq<Id>, b: seq<Id>, lo: real)
    requires multiset(a) == multiset(b) && forall k :: 0 <= k < |b| ==> lo <= CurrentX(nodes, b[k])
    ensures forall k :: 0 <= k < |a| ==> lo <= CurrentX(nodes, a[k])
  {
    forall k | 0 <= k < |a| ensures lo <= CurrentX(nodes, a[k]) {
      assert a[k] in multiset(b);
      var m :| 0 <= m < |b| && b[m] == a[k];
    }
  }

  /** A member whose x is at most every x of a sorted list can go in front of it. */
  lemma HeadBelowAll(nodes: seq<FamilyNode>, h: Id, s: seq<Id>)
    requires SortedByX(nodes, s) && forall k :: 0 <= k < |s| ==> CurrentX(nodes, h) <= CurrentX(nodes, s[k])
    ensures SortedByX(nodes, [h] + s)
  {
    forall i, j | 0 <= i < j < |[h] + s| ensures CurrentX(nodes, ([h] + s)[i]) <= CurrentX(nodes, ([h] + s)[j]) {
      assert ([h] + s)[j] == s[j - 1];
      if i > 0 {
        assert ([h] + s)[i] == s[i - 1];
      }
    }
  }

  /**
   * The sort of the cluster's ids by current x: the members in ascending order of
   * their current x, each kept (a stable insertion of each member in turn).
   */
  function SortByX(nodes: seq<FamilyNode>, ids: seq<Id>): (r: seq<Id>)
    ensures SortedByX(nodes, r)
    ensures multiset(r) == multiset(ids)
  {
    if ids == [] then []
    else
      assert ids == ids[..|ids| - 1] + [ids[|ids| - 1]];
      InsertByX(nodes, ids[|ids| - 1], SortByX(nodes, ids[..|ids| - 1]))
  }

  // ---------------------------------------------------------------------
  // Desired centre

  function Sum(xs: seq<real>): real
  {
    if xs == [] then 0.0 else Sum(xs[..|xs| - 1]) + xs[|xs| - 1]
  }

  /** Adding one value to a list adds it to the sum. */
  lemma SumSnoc(xs: seq<real>, x: real)
    ensures Sum(xs + [x]) == Sum(xs) + x
  {
    assert (xs + [x])[..|xs|] == xs;
  }

  function Mean(xs: seq<real>): real
    requires |xs| > 0
  {
    Sum(xs) / (|xs| as real)
  }

  /** A parent's x: its new position when placed already, else its current x, else 0. */
  function PositionOf(nodes: seq<FamilyNode>, positions: map<Id, real>, p: Id): real
  {
    if p in positions then positions[p] else CurrentX(nodes, p)
  }

  /** `.filter(p => levels[p] < lvl)`: parents in a row above; an unlevelled parent compares false. */
  function UpperParents(levels: map<Id, int>, lvl: int, parents: seq<Id>): seq<Id>
  {
    if parents == [] then []
    else
      var p := parents[|parents| - 1];
      UpperParents(levels, lvl, parents[..|parents| - 1]) + (if p in levels && levels[p] < lvl then [p] else [])
  }

  function ParentXs(nodes: seq<FamilyNode>, positions: map<Id, real>, ps: seq<Id>): (r: seq<real>)
    ensures |r| == |ps|
  {
    seq(|ps|, i requires 0 <= i < |ps| => PositionOf(nodes, positions, ps[i]))
  }

  /** For each member with parents in a row above, in order, the mean x of those parents. */
  function ParentCentres(nodes: seq<FamilyNode>, edges: seq<FamilyEdge>, levels: map<Id, int>,
                         positions: map<Id, real>, lvl: int, ids: seq<Id>): seq<real>
  {
    if ids == [] then []
    else
      var ups := UpperParents(levels, lvl, Adjacency.ParentsOf(edges, ids[|ids| - 1]));
      ParentCentres(nodes, edges, levels, positions, lvl, ids[..|ids| - 1]) +
      (if |ups| > 0 then [Mean(ParentXs(nodes, positions, ups))] else [])
  }

  function CurrentXs(nodes: seq<FamilyNode>, ids: seq<Id>): (r: seq<real>)
    ensures |r| == |ids|
  {
    if ids == [] then [] else CurrentXs(nodes, ids[..|ids| - 1]) + [CurrentX(nodes, ids[|ids| - 1])]
  }

  /** Entry `k` of the current x values is member `k`'s current x. */
  lemma {:induction false} CurrentXsAt(nodes: seq<FamilyNode>, ids: seq<Id>, k: int)
    requires 0 <= k < |ids|
    ensures CurrentXs(nodes, ids)[k] == CurrentX(nodes, ids[k])
  {
    if k < |ids| - 1 {
      CurrentXsAt(nodes, ids[..|ids| - 1], k);
    }
  }

  /**
   * The centre a cluster would like: the mean of its members' parent
   * centres when some member has parents above; otherwise 0 for the
   * root's cluster and the cluster's current centre for any other.
   */
  function DesiredCenter(nodes: seq<FamilyNode>, edges: seq<FamilyEdge>, levels: map<Id, int>,
                         positions: map<Id, real>, rootId: Id, lvl: int, ids: seq<Id>): real
    requires |ids| > 0
  {
    var centres := ParentCentres(nodes, edges, levels, positions, lvl, ids);
    if |centres| > 0 then Mean(centres)
    else if rootId in ids then 0.0
    else Mean(CurrentXs(nodes, ids))
  }

  /**
   * `calculateLayout` in services/layoutService.ts, lines 123-159: one pass
   * over the members accumulates `totalCurrentX`, `totalDesiredX` and
   * `parentCount`, from which the two centres follow.
   */
  method ClusterCentres(nodes: seq<FamilyNode>, edges: seq<FamilyEdge>, adj: Adjacency.Adjacency,
                        levels: map<Id, int>, positions: map<Id, real>, rootId: Id, lvl: int, ids: seq<Id>)
    returns (desired: real, current: real)
    requires Adjacency.Indexes(adj, edges) && |ids| > 0
    ensures desired == DesiredCenter(nodes, edges, levels, positions, rootId, lvl, ids)
    ensures current == Mean(CurrentXs(nodes, ids))
  {
    var totalDesiredX, parentCount, totalCurrentX := 0.0, 0, 0.0;
    for i := 0 to |ids|
      invariant Accumulated(nodes, edges, levels, positions, lvl, ids[..i], totalCurrentX, totalDesiredX, parentCount)
    {
      totalCurrentX, totalDesiredX, parentCount :=
        AccumulateMember(nodes, edges, adj, levels, positions, lvl, ids, i, totalCurrentX, totalDesiredX, parentCount);
    }
    CentresFinish(nodes, edges, levels, positions, rootId, lvl, ids, totalCurrentX, totalDesiredX, parentCount);
    current := totalCurrentX / (|ids| as real);
    if parentCount > 0 {
      desired := totalDesiredX / (parentCount as real);
    } else if rootId in ids {
      desired := 0.0;
    } else {
      desired := current;
    }
  }

  /**
   * `calculateLayout` in services/layoutService.ts, lines 127-143 for member
   * `ids[i]`: its current x joins the total, and when it has parents in a row
   * above, the mean x of those parents joins the desired total and the parent
   * count goes up.
   */
  method AccumulateMember(nodes: seq<FamilyNode>, edges: seq<FamilyEdge>, adj: Adjacency.Adjacency,
                          levels: map<Id, int>, positions: map<Id, real>, lvl: int, ids: seq<Id>, i: nat,
                          totalCurrentX: real, totalDesiredX: real, parentCount: int)
    returns (totalCurrentX': real, totalDesiredX': real, parentCount': int)
    requires Adjacency.Indexes(adj, edges) && i < |ids|
    requires Accumulated(nodes, edges, levels, positions, lvl, ids[..i], totalCurrentX, totalDesiredX, parentCount)
    ensures Accumulated(nodes, edges, levels, positions, lvl, ids[..i + 1], totalCurrentX', totalDesiredX', parentCount')
  {
    var id := ids[i];
    assert Adjacency.Get(adj.parentsByChild, id) == Adjacency.ParentsOf(edges, id);
    AccumulateStep(nodes, edges, levels, positions, lvl, ids, i, totalCurrentX, totalDesiredX, parentCount);
    totalCurrentX', totalDesiredX', parentCount' := totalCurrentX + CurrentX(nodes, id), totalDesiredX, parentCount;
    var parents := UpperParents(levels, lvl, Adjacency.Get(adj.parentsByChild, id));
    if |parents| > 0 {
      var parentXs := ParentXs(nodes, positions, parents);
      var pCenter := Sum(parentXs) / (|parentXs| as real);
      totalDesiredX' := totalDesiredX + pCenter;
      parentCount' := parentCount + 1;
    }
  }

  /** The three running totals of the centre computation, after the members `prefix`. */
  ghost predicate Accumulated(nodes: seq<FamilyNode>, edges: seq<FamilyEdge>, levels: map<Id, int>,
                              positions: map<Id, real>, lvl: int, prefix: seq<Id>,
                              totalCurrentX: real, totalDesiredX: real, parentCount: int)
  {
    totalCurrentX == Sum(CurrentXs(nodes, prefix)) &&
    totalDesiredX == Sum(ParentCentres(nodes, edges, levels, positions, lvl, prefix)) &&
    parentCount == |ParentCentres(nodes, edges, levels, positions, lvl, prefix)|
  }

  /** The totals over all members give the two centres. */
  lemma CentresFinish(nodes: seq<FamilyNode>, edges: seq<FamilyEdge>, levels: map<Id, int>,
                      positions: map<Id, real>, rootId: Id, lvl: int, ids: seq<Id>,
                      tc: real, td: real, pc: int)
    requires |ids| > 0 && Accumulated(nodes, edges, levels, positions, lvl, ids[..|ids|], tc, td, pc)
    ensures Mean(CurrentXs(nodes, ids)) == tc / (|ids| as real)
    ensures DesiredCenter(nodes, edges, levels, positions, rootId, lvl, ids) ==
            if pc > 0 then td / (pc as real)
            else if rootId in ids then 0.0
            else tc / (|ids| as real)
  {
    TakeAll(ids);
  }

  /** One more member adds its current x, and, when it has parents above, their mean x. */
  lemma AccumulateStep(nodes: seq<FamilyNode>, edges: seq<FamilyEdge>, levels: map<Id, int>,
                       positions: map<Id, real>, lvl: int, ids: seq<Id>, i: nat,
                       tc: real, td: real, pc: int)
    requires i < |ids| && Accumulated(nodes, edges, levels, positions, lvl, ids[..i], tc, td, pc)
    ensures var ups := UpperParents(levels, lvl, Adjacency.ParentsOf(edges, ids[i]));
            Accumulated(nodes, edges, levels, positions, lvl, ids[..i + 1], tc + CurrentX(nodes, ids[i]),
                        if |ups| > 0 then td + Sum(ParentXs(nodes, positions, ups)) / (|ups| as real) else td,
                        if |ups| > 0 then pc + 1 else pc)
  {
    var ups := UpperParents(levels, lvl, Adjacency.ParentsOf(edges, ids[i]));
    var before := ParentCentres(nodes, edges, levels, positions, lvl, ids[..i]);
    assert ids[..i + 1][..i] == ids[..i];
    SumSnoc(CurrentXs(nodes, ids[..i]), CurrentX(nodes, ids[i]));
    if |ups| > 0 {
      SumSnoc(before, Mean(ParentXs(nodes, positions, ups)));
    } else {
      assert ParentCentres(nodes, edges, levels, positions, lvl, ids[..i + 1]) == before + [] == before;
    }
  }

  /** A sum of values within `[lo, hi]` lies within `n` times those bounds. */
  lemma {:induction false} SumWithin(xs: seq<real>, lo: real, hi: real)
    requires forall k :: 0 <= k < |xs| ==> lo <= xs[k] <= hi
    ensures (|xs| as real) * lo <= Sum(xs) <= (|xs| as real) * hi
  {
    if xs != [] {
      var init := xs[..|xs| - 1];
      SumWithin(init, lo, hi);
      assert (|xs| as real) * lo == (|init| as real) * lo + lo;
      assert (|xs| as real) * hi == (|init| as real) * hi + hi;
    }
  }

  /** A mean of values within `[lo, hi]` lies within `[lo, hi]`. */
  lemma MeanWithin(xs: seq<real>, lo: real, hi: real)
    requires |xs| > 0 && forall k :: 0 <= k < |xs| ==> lo <= xs[k] <= hi
    ensures lo <= Mean(xs) <= hi
  {
    SumWithin(xs, lo, hi);
    var n := |xs| as real;
    assert n * lo <= Sum(xs) <= n * hi;
    assert Sum(xs) / n >= lo by {
      assert Sum(xs) >= lo * n;
    }
    assert Sum(xs) / n <= hi by {
      assert Sum(xs) <= hi * n;
    }
  }

  /** Every parent in a row above, of every member, stands at an x within `[lo, hi]`. */
  ghost predicate UpperParentsWithin(nodes: seq<FamilyNode>, edges: seq<FamilyEdge>, levels: map<Id, int>,
                                     positions: map<Id, real>, lvl: int, ids: seq<Id>, lo: real, hi: real)
  {
    forall k, p :: 0 <= k < |ids| && p in UpperParents(levels, lvl, Adjacency.ParentsOf(edges, ids[k])) ==>
      lo <= PositionOf(nodes, positions, p) <= hi
  }

  /** Each member's parent centre lies within the span of its upper parents' x values. */
  lemma {:induction false} ParentCentresWithin(nodes: seq<FamilyNode>, edges: seq<FamilyEdge>, levels: map<Id, int>,
                                               positions: map<Id, real>, lvl: int, ids: seq<Id>, lo: real, hi: real)
    requires UpperParentsWithin(nodes, edges, levels, positions, lvl, ids, lo, hi)
    ensures forall k :: 0 <= k < |ParentCentres(nodes, edges, levels, positions, lvl, ids)| ==>
              lo <= ParentCentres(nodes, edges, levels, positions, lvl, ids)[k] <= hi
  {
    if ids != [] {
      var init := ids[..|ids| - 1];
      var last := ids[|ids| - 1];
      assert UpperParentsWithin(nodes, edges, levels, positions, lvl, init, lo, hi) by {
        forall k, p | 0 <= k < |init| && p in UpperParents(levels, lvl, Adjacency.ParentsOf(edges, init[k]))
          ensures lo <= PositionOf(nodes, positions, p) <= hi
        {
          assert init[k] == ids[k];
        }
      }
      ParentCentresWithin(nodes, edges, levels, positions, lvl, init, lo, hi);
      var before := ParentCentres(nodes, edges, levels, positions, lvl, init);
      var ups := UpperParents(levels, lvl, Adjacency.ParentsOf(edges, last));
      if |ups| > 0 {
        var xs := ParentXs(nodes, positions, ups);
        forall k | 0 <= k < |xs| ensures lo <= xs[k] <= hi {
          assert xs[k] == PositionOf(nodes, positions, ups[k]) && ups[k] in ups;
          assert 0 <= |ids| - 1 < |ids| && ids[|ids| - 1] == last;
        }
        MeanWithin(xs, lo, hi);
        var cs := before + [Mean(xs)];
        assert ParentCentres(nodes, edges, levels, positions, lvl, ids) == cs;
        forall k | 0 <= k < |cs| ensures lo <= cs[k] <= hi {
          if k < |before| {
            assert cs[k] == before[k];
          }
        }
      } else {
        assert ParentCentres(nodes, edges, levels, positions, lvl, ids) == before;
      }
    }
  }

  /**
   * A desired centre taken from the members' parent centres lies within
   * the span of the x values of those parents.
   */
  lemma ParentDesiredWithin(nodes: seq<FamilyNode>, edges: seq<FamilyEdge>, levels: map<Id, int>,
                            positions: map<Id, real>, rootId: Id, lvl: int, ids: seq<Id>, lo: real, hi: real)
    requires |ids| > 0 && ParentCentres(nodes, edges, levels, positions, lvl, ids) != []
    requires UpperParentsWithin(nodes, edges, levels, positions, lvl, ids, lo, hi)
    ensures lo <= DesiredCenter(nodes, edges, levels, positions, rootId, lvl, ids) <= hi
  {
    ParentCentresWithin(nodes, edges, levels, positions, lvl, ids, lo, hi);
    MeanWithin(ParentCentres(nodes, edges, levels, positions, lvl, ids), lo, hi);
  }

  /**
   * A desired centre taken from the members' current x values, for a
   * cluster without parents above and without the root, lies within the
   * span of those values.
   */
  lemma CurrentDesiredWithin(nodes: seq<FamilyNode>, edges: seq<FamilyEdge>, levels: map<Id, int>,
                             positions: map<Id, real>, rootId: Id, lvl: int, ids: seq<Id>, lo: real, hi: real)
    requires |ids| > 0 && ParentCentres(nodes, edges, levels, positions, lvl, ids) == [] && rootId !in ids
    requires forall k :: 0 <= k < |ids| ==> lo <= CurrentX(nodes, ids[k]) <= hi
    ensures lo <= DesiredCenter(nodes, edges, levels, positions, rootId, lvl, ids) <= hi
  {
    var xs := CurrentXs(nodes, ids);
    forall k | 0 <= k < |xs| ensures lo <= xs[k] <= hi {
      CurrentXsAt(nodes, ids, k);
    }
    MeanWithin(xs, lo, hi);
  }

  // ---------------------------------------------------------------------
  // The clusters of a row

  /** The members of all clusters, cluster after cluster. */
  function AllIds(clusters: seq<Cluster>): seq<Id>
  {
    if clusters == [] then [] else AllIds(clusters[..|clusters| - 1]) + clusters[|clusters| - 1].ids
  }

  /** Each cluster is non-empty, ordered by current x, and carries the centres of its members. */
  ghost predicate WellFormed(nodes: seq<FamilyNode>, edges: seq<FamilyEdge>, levels: map<Id, int>,
                             positions: map<Id, real>, rootId: Id, lvl: int, c: Cluster)
  {
    |c.ids| > 0 && SortedByX(nodes, c.ids) &&
    c.desiredCenter == DesiredCenter(nodes, edges, levels, positions, rootId, lvl, c.ids) &&
    c.currentCenter == Mean(CurrentXs(nodes, c.ids))
  }

  /**
   * `calculateLayout` in services/layoutService.ts, lines 73-161: the clusters
   * of a row partition it: every person of the row is in exactly one cluster
   * and every member belongs to the row. Each cluster is closed under
   * partnership, is ordered by current x and carries its desired and current
   * centres. Each cluster is connected: its members sorted by current x from
   * an order `orders[k]` in which each member after the first is a partner of
   * an earlier one.
   */
  method ClusterRow(nodes: seq<FamilyNode>, edges: seq<FamilyEdge>, adj: Adjacency.Adjacency,
                    levels: map<Id, int>, positions: map<Id, real>, rootId: Id, lvl: int, row: seq<Id>)
    returns (clusters: seq<Cluster>, ghost orders: seq<seq<Id>>)
    requires Adjacency.Indexes(adj, edges)
    ensures NoDup(AllIds(clusters)) && forall x :: x in AllIds(clusters) <==> x in row
    ensures forall k :: 0 <= k < |clusters| ==> WellFormed(nodes, edges, levels, positions, rootId, lvl, clusters[k])
    ensures forall k, m, p :: 0 <= k < |clusters| && m in clusters[k].ids && Partner(edges, row, m, p) ==>
              p in clusters[k].ids
    ensures |orders| == |clusters|
    ensures forall k :: 0 <= k < |clusters| ==>
              PartnerChain(edges, row, orders[k]) && clusters[k].ids == SortByX(nodes, orders[k])
    ensures orders == ClusterOrders(edges, row)
    ensures clusters == ClustersOf(nodes, edges, levels, positions, rootId, lvl, row)
  {
    var visitedInRow: set<Id> := {};
    clusters, orders := [], [];
    RowStart(nodes, edges, levels, positions, rootId, lvl, row);
    for i := 0 to |row|
      invariant RowState(nodes, edges, levels, positions, rootId, lvl, row, i, clusters, orders, visitedInRow)
    {
      clusters, orders, visitedInRow :=
        RowPerson(nodes, edges, adj, levels, positions, rootId, lvl, row, i, clusters, orders, visitedInRow);
    }
    RowDone(nodes, edges, levels, positions, rootId, lvl, row, clusters, orders, visitedInRow);
  }

  /** After the whole row, the clusters are those of the reference and partition the row. */
  lemma RowDone(nodes: seq<FamilyNode>, edges: seq<FamilyEdge>, levels: map<Id, int>,
                positions: map<Id, real>, rootId: Id, lvl: int, row: seq<Id>,
                clusters: seq<Cluster>, orders: seq<seq<Id>>, visited: set<Id>)
    requires RowState(nodes, edges, levels, positions, rootId, lvl, row, |row|, clusters, orders, visited)
    ensures NoDup(AllIds(clusters)) && forall x :: x in AllIds(clusters) <==> x in row
    ensures forall k :: 0 <= k < |clusters| ==> WellFormed(nodes, edges, levels, positions, rootId, lvl, clusters[k])
    ensures forall k, m, p :: 0 <= k < |clusters| && m in clusters[k].ids && Partner(edges, row, m, p) ==>
              p in clusters[k].ids
    ensures |orders| == |clusters|
    ensures forall k :: 0 <= k < |clusters| ==>
              PartnerChain(edges, row, orders[k]) && clusters[k].ids == SortByX(nodes, orders[k])
    ensures orders == ClusterOrders(edges, row)
    ensures clusters == ClustersOf(nodes, edges, levels, positions, rootId, lvl, row)
  {
    TakeAll(row);
    assert row[|row|..] == [];
    MadeAll(nodes, edges, levels, positions, rootId, lvl, row, clusters, orders);
  }

  /** Before the first person of the row nothing is visited and there are no clusters. */
  lemma RowStart(nodes: seq<FamilyNode>, edges: seq<FamilyEdge>, levels: map<Id, int>,
                 positions: map<Id, real>, rootId: Id, lvl: int, row: seq<Id>)
    ensures RowState(nodes, edges, levels, positions, rootId, lvl, row, 0, [], [], {})
  {
    assert row[0..] == row && row[..0] == [];
    assert [] + OrdersFrom(edges, row, row, {}) == ClusterOrders(edges, row);
  }

  /**
   * The state of `rowNodes.forEach` after the first `i` persons: the
   * clusters partition the visited persons, each is connected and made
   * from its order, and the orders so far followed by those of the rest of
   * the row are the orders of the whole row.
   */
  ghost predicate RowState(nodes: seq<FamilyNode>, edges: seq<FamilyEdge>, levels: map<Id, int>,
                           positions: map<Id, real>, rootId: Id, lvl: int, row: seq<Id>, i: nat,
                           clusters: seq<Cluster>, orders: seq<seq<Id>>, visited: set<Id>)
  {
    i <= |row| &&
    RowClusters(nodes, edges, levels, positions, rootId, lvl, row, clusters, visited) &&
    Connected(nodes, edges, row, clusters, orders) &&
    (forall x :: x in row[..i] ==> x in visited) &&
    orders + OrdersFrom(edges, row, row[i..], visited) == ClusterOrders(edges, row)
  }

  /** One person of the row: skipped when visited, otherwise the start of a new cluster. */
  method RowPerson(nodes: seq<FamilyNode>, edges: seq<FamilyEdge>, adj: Adjacency.Adjacency,
                   levels: map<Id, int>, positions: map<Id, real>, rootId: Id, lvl: int, row: seq<Id>, i: nat,
                   clusters: seq<Cluster>, ghost orders: seq<seq<Id>>, visited: set<Id>)
    returns (clusters': seq<Cluster>, ghost orders': seq<seq<Id>>, visited': set<Id>)
    requires Adjacency.Indexes(adj, edges) && i < |row|
    requires RowState(nodes, edges, levels, positions, rootId, lvl, row, i, clusters, orders, visited)
    ensures RowState(nodes, edges, levels, positions, rootId, lvl, row, i + 1, clusters', orders', visited')
  {
    var nodeId := row[i];
    TakeSnoc(row, i);
    OrdersAt(edges, row, i, visited);
    clusters', orders', visited' := clusters, orders, visited;
    if nodeId !in visited {
      var ids, v' := GrowCluster(edges, adj, row, nodeId, visited);
      var sorted := SortByX(nodes, ids);
      var desired, current := ClusterCentres(nodes, edges, adj, levels, positions, rootId, lvl, sorted);
      var c := Cluster(sorted, desired, current);
      NewCluster(nodes, edges, levels, positions, rootId, lvl, row, i, clusters, orders, visited, ids, v', c);
      clusters', orders', visited' := clusters + [c], orders + [ids], v';
    }
  }

  /** A person not yet visited starts the cluster the reference traversal grows from it. */
  lemma NewCluster(nodes: seq<FamilyNode>, edges: seq<FamilyEdge>, levels: map<Id, int>,
                   positions: map<Id, real>, rootId: Id, lvl: int, row: seq<Id>, i: nat,
                   clusters: seq<Cluster>, orders: seq<seq<Id>>, visited: set<Id>,
                   ids: seq<Id>, visited': set<Id>, c: Cluster)
    requires i < |row| && row[i] !in visited
    requires RowState(nodes, edges, levels, positions, rootId, lvl, row, i, clusters, orders, visited)
    requires |ids| > 0 && ids[0] == row[i] && NoDup(ids)
    requires forall x :: x in ids ==> x in row && x !in visited
    requires forall x :: x in visited' <==> x in visited || x in ids
    requires forall m, p :: m in ids && Partner(edges, row, m, p) ==> p in visited'
    requires PartnerChain(edges, row, ids)
    requires Search(visited', ids, []) == GrowFrom(edges, row, Seed(visited, row[i]))
    requires c.ids == SortByX(nodes, ids)
    requires c.desiredCenter == DesiredCenter(nodes, edges, levels, positions, rootId, lvl, c.ids)
    requires c.currentCenter == Mean(CurrentXs(nodes, c.ids))
    ensures RowState(nodes, edges, levels, positions, rootId, lvl, row, i + 1, clusters + [c], orders + [ids], visited')
  {
    TakeSnoc(row, i);
    OrdersNext(edges, row, i, orders, visited, ids, visited');
    AddCluster(nodes, edges, levels, positions, rootId, lvl, row, clusters, visited, ids, visited', c);
    ConnectedSnoc(nodes, edges, row, clusters, orders, ids, c);
  }

  /** The order grown from an unvisited person is the next one of the reference. */
  lemma OrdersNext(edges: seq<FamilyEdge>, row: seq<Id>, i: nat, orders: seq<seq<Id>>, visited: set<Id>,
                   ids: seq<Id>, visited': set<Id>)
    requires i < |row| && row[i] !in visited
    requires orders + OrdersFrom(edges, row, row[i..], visited) == ClusterOrders(edges, row)
    requires Search(visited', ids, []) == GrowFrom(edges, row, Seed(visited, row[i]))
    ensures (orders + [ids]) + OrdersFrom(edges, row, row[i + 1..], visited') == ClusterOrders(edges, row)
  {
    OrdersAt(edges, row, i, visited);
    var rest := OrdersFrom(edges, row, row[i + 1..], visited');
    assert OrdersFrom(edges, row, row[i..], visited) == [ids] + rest;
    Associative(orders, [ids], rest);
  }

  lemma Associative<T>(a: seq<T>, b: seq<T>, c: seq<T>)
    ensures (a + b) + c == a + (b + c)
  {
  }

  /** Well-formed clusters, each sorted from the reference order at its place, are the reference clusters. */
  lemma MadeAll(nodes: seq<FamilyNode>, edges: seq<FamilyEdge>, levels: map<Id, int>,
                positions: map<Id, real>, rootId: Id, lvl: int, row: seq<Id>, clusters: seq<Cluster>, orders: seq<seq<Id>>)
    requires Connected(nodes, edges, row, clusters, orders)
    requires forall k :: 0 <= k < |clusters| ==> WellFormed(nodes, edges, levels, positions, rootId, lvl, clusters[k])
    requires orders == ClusterOrders(edges, row)
    ensures clusters == ClustersOf(nodes, edges, levels, positions, rootId, lvl, row)
  {
    var r := ClustersOf(nodes, edges, levels, positions, rootId, lvl, row);
    forall k | 0 <= k < |clusters| ensures clusters[k] == r[k] {
      assert clusters[k] == MakeCluster(nodes, edges, levels, positions, rootId, lvl, orders[k]);
    }
  }

  /** Each cluster is its members sorted by current x from an order in which they hang together. */
  ghost predicate Connected(nodes: seq<FamilyNode>, edges: seq<FamilyEdge>, row: seq<Id>,
                            clusters: seq<Cluster>, orders: seq<seq<Id>>)
  {
    |orders| == |clusters| &&
    forall k :: 0 <= k < |clusters| ==>
      PartnerChain(edges, row, orders[k]) && clusters[k].ids == SortByX(nodes, orders[k])
  }

  lemma ConnectedSnoc(nodes: seq<FamilyNode>, edges: seq<FamilyEdge>, row: seq<Id>,
                      clusters: seq<Cluster>, orders: seq<seq<Id>>, ids: seq<Id>, c: Cluster)
    requires Connected(nodes, edges, row, clusters, orders)
    requires PartnerChain(edges, row, ids) && c.ids == SortByX(nodes, ids)
    ensures Connected(nodes, edges, row, clusters + [c], orders + [ids])
  {
  }

  /**
   * The clusters found so far partition the visited persons of the row,
   * each is well formed, and each is closed under partnership.
   */
  ghost predicate RowClusters(nodes: seq<FamilyNode>, edges: seq<FamilyEdge>, levels: map<Id, int>,
                              positions: map<Id, real>, rootId: Id, lvl: int, row: seq<Id>,
                              clusters: seq<Cluster>, visited: set<Id>)
  {
    NoDup(AllIds(clusters)) && (forall x :: x in AllIds(clusters) <==> x in visited) &&
    (forall x :: x in visited ==> x in row) &&
    (forall k :: 0 <= k < |clusters| ==> WellFormed(nodes, edges, levels, positions, rootId, lvl, clusters[k])) &&
    (forall k, m, p :: 0 <= k < |clusters| && m in clusters[k].ids && Partner(edges, row, m, p) ==>
       p in clusters[k].ids)
  }

  /** Appending a freshly grown cluster keeps the partition and the closure of every cluster. */
  lemma AddCluster(nodes: seq<FamilyNode>, edges: seq<FamilyEdge>, levels: map<Id, int>,
                   positions: map<Id, real>, rootId: Id, lvl: int, row: seq<Id>,
                   clusters: seq<Cluster>, visited: set<Id>, ids: seq<Id>, visited': set<Id>, c: Cluster)
    requires RowClusters(nodes, edges, levels, positions, rootId, lvl, row, clusters, visited)
    requires NoDup(ids) && (forall x :: x in ids ==> x in row && x !in visited)
    requires forall x :: x in visited' <==> x in visited || x in ids
    requires forall m, p :: m in ids && Partner(edges, row, m, p) ==> p in visited'
    requires |ids| > 0 && c.ids == SortByX(nodes, ids)
    requires c.desiredCenter == DesiredCenter(nodes, edges, levels, positions, rootId, lvl, c.ids)
    requires c.currentCenter == Mean(CurrentXs(nodes, c.ids))
    ensures RowClusters(nodes, edges, levels, positions, rootId, lvl, row, clusters + [c], visited')
  {
    var cs := clusters + [c];
    assert cs[..|clusters|] == clusters;
    assert AllIds(cs) == AllIds(clusters) + c.ids;
    PermNoDup(ids, c.ids);
    assert forall x :: x in c.ids <==> x in ids by {
      forall x ensures x in c.ids <==> x in ids {
        assert x in c.ids <==> x in multiset(c.ids);
        assert x in ids <==> x in multiset(ids);
      }
    }
    NoDupAppend(AllIds(clusters), c.ids);
    forall k | 0 <= k < |cs| ensures WellFormed(nodes, edges, levels, positions, rootId, lvl, cs[k]) {
      if k < |clusters| {
        assert cs[k] == clusters[k];
      }
    }
    forall k, m, p | 0 <= k < |cs| && m in cs[k].ids && Partner(edges, row, m, p) ensures p in cs[k].ids {
      if k == |clusters| {
        if p in visited {
          // p belongs to an earlier cluster, which is closed: m would be there too.
          PartnerSymmetric(edges, row, m, p);
          var k' := ClusterOf(clusters, p);
          MemberInAll(clusters, k', m);
          assert false;
        }
      } else {
        assert cs[k] == clusters[k];
      }
    }
  }

  /** The cluster holding a member of the row's clusters. */
  lemma {:induction false} ClusterOf(clusters: seq<Cluster>, x: Id) returns (k: nat)
    requires x in AllIds(clusters)
    ensures k < |clusters| && x in clusters[k].ids
  {
    var init := clusters[..|clusters| - 1];
    if x in clusters[|clusters| - 1].ids {
      k := |clusters| - 1;
    } else {
      k := ClusterOf(init, x);
      assert clusters[k] == init[k];
    }
  }

  lemma {:induction false} MemberInAll(clusters: seq<Cluster>, k: nat, x: Id)
    requires k < |clusters| && x in clusters[k].ids
    ensures x in AllIds(clusters)
  {
    var init := clusters[..|clusters| - 1];
    if k < |clusters| - 1 {
      assert clusters[k] == init[k];
      MemberInAll(init, k, x);
    }
  }

  /** "a" is married to "b" and to "c". */
  function TwoMarriages(): seq<FamilyEdge>
  {
    [FamilyEdge("m1", "a", "b", Spouse), FamilyEdge("m2", "a", "c", Spouse)]
  }

  /** The two marriages give "a" no children and the spouses "b" and "c", in edge order. */
  lemma TwoMarriagesAdjacency()
    ensures Adjacency.ChildrenOf(TwoMarriages(), "a") == []
    ensures Adjacency.SpousesOf(TwoMarriages(), "a") == ["b", "c"]
  {
    var edges := TwoMarriages();
    assert edges[..1] == [edges[0]] && edges[..1][..0] == [];
  }

  lemma TwoMarriagesAdjacencyOf(x: Id)
    requires x == "b" || x == "c"
    ensures Adjacency.ChildrenOf(TwoMarriages(), x) == []
    ensures Adjacency.SpousesOf(TwoMarriages(), x) == ["a"]
  {
    var edges := TwoMarriages();
    assert edges[..1] == [edges[0]] && edges[..1][..0] == [];
  }

  /** "a" has the partners "b" and "c"; each of them has "a". */
  lemma TwoMarriagesPartners(x: Id)
    requires x == "a" || x == "b" || x == "c"
    ensures PartnerList(TwoMarriages(), ["a", "b", "c"], x) == if x == "a" then ["b", "c"] else ["a"]
  {
    if x == "a" {
      PartnersOfA();
    } else {
      PartnersOfSpouse(x);
    }
  }

  lemma PartnersOfA()
    ensures PartnerList(TwoMarriages(), ["a", "b", "c"], "a") == ["b", "c"]
  {
    var edges, row := TwoMarriages(), ["a", "b", "c"];
    TwoMarriagesAdjacency();
    assert CoParentCandidates(edges, row, "a", []) == [] && Distinct<Id>([]) == [];
    DistinctPair("b", "c");
    assert ["b", "c"] + [] == ["b", "c"];
  }

  lemma PartnersOfSpouse(x: Id)
    requires x == "b" || x == "c"
    ensures PartnerList(TwoMarriages(), ["a", "b", "c"], x) == ["a"]
  {
    var edges, row := TwoMarriages(), ["a", "b", "c"];
    TwoMarriagesAdjacencyOf(x);
    assert CoParentCandidates(edges, row, x, []) == [] && Distinct<Id>([]) == [];
    DistinctPair("a", "a");
    assert ["a"] + [] == ["a"];
  }

  lemma DistinctPair(x: Id, y: Id)
    ensures Distinct([x]) == [x]
    ensures x != y ==> Distinct([x, y]) == [x, y]
  {
    assert [x, y][..1] == [x];
  }

  /** From "a": "b" and "c" are visited and queued, in that order. */
  lemma TwoMarriagesFromA()
    ensures GrowFrom(TwoMarriages(), ["a", "b", "c"], Seed({}, "a")) ==
            GrowFrom(TwoMarriages(), ["a", "b", "c"], Search({"a", "b", "c"}, ["a", "b", "c"], ["b", "c"]))
  {
    var edges, row := TwoMarriages(), ["a", "b", "c"];
    var s0 := Seed({}, "a");
    assert s0.visited == {"a"} && s0.ids == ["a"] && s0.q == ["a"];
    PartnersOfA();
    GrowRound(edges, row, s0);
    assert Search(s0.visited, s0.ids, s0.q[1..]) == Search({"a"}, ["a"], []);
    TwoMarriagesVisits();
  }

  /** Visiting "b" and "c" after "a" adds both, in that order. */
  lemma TwoMarriagesVisits()
    ensures VisitPartners(["a", "b", "c"], ["b", "c"], Search({"a"}, ["a"], [])) ==
            Search({"a", "b", "c"}, ["a", "b", "c"], ["b", "c"])
  {
    var row, partners := ["a", "b", "c"], ["b", "c"];
    var s := Search({"a"}, ["a"], []);
    var t := Search({"a", "b"}, ["a", "b"], ["b"]);
    var u := Search({"a", "b", "c"}, ["a", "b", "c"], ["b", "c"]);
    assert partners[0..] == partners && partners[2..] == [];
    VisitAt(row, partners, 0, s);
    assert VisitOne(row, "b", s) == t;
    VisitAt(row, partners, 1, t);
    assert VisitOne(row, "c", t) == u;
  }

  /** "b" and then "c" find only "a", who is visited: the queue runs out. */
  lemma TwoMarriagesDrain(q: seq<Id>)
    requires q == ["b", "c"] || q == ["c"] || q == []
    ensures GrowFrom(TwoMarriages(), ["a", "b", "c"], Search({"a", "b", "c"}, ["a", "b", "c"], q)) ==
            Search({"a", "b", "c"}, ["a", "b", "c"], [])
    decreases |q|
  {
    var edges, row := TwoMarriages(), ["a", "b", "c"];
    if q != [] {
      var s := Search({"a", "b", "c"}, ["a", "b", "c"], q);
      TwoMarriagesPartners(q[0]);
      GrowRound(edges, row, s);
      assert VisitPartners(row, ["a"], Search(s.visited, s.ids, q[1..])) == Search(s.visited, s.ids, q[1..]);
      TwoMarriagesDrain(q[1..]);
    }
  }

  /** The row "a", "b", "c" is one cluster, found as "a", then its spouses in edge order. */
  lemma TwoMarriagesCluster()
    ensures ClusterOrders(TwoMarriages(), ["a", "b", "c"]) == [["a", "b", "c"]]
  {
    var edges, row := TwoMarriages(), ["a", "b", "c"];
    var all := Search({"a", "b", "c"}, ["a", "b", "c"], []);
    TwoMarriagesFromA();
    TwoMarriagesDrain(["b", "c"]);
    OrdersAt(edges, row, 0, {});
    OrdersAt(edges, row, 1, all.visited);
    OrdersAt(edges, row, 2, all.visited);
    assert row[3..] == [];
  }
}
