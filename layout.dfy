/**
 * `calculateLayout`: the level of every person, its row, and the x position
 * each row's layout gives it, put together into one point per person.
 */
module Layout {
  import opened Family
  import opened Lists
  import Adjacency
  import Kinship
  import opened LayoutLevels
  import opened LayoutRows
  import opened LayoutClusters
  import opened LayoutBlocks

  /** Two distinct persons of one row are at least this far apart once the row is laid out. */
  const MIN_SPACING: real := SIBLING_GAP - 0.1

  /**
   * The positions one row's layout leaves: the row's clusters in the order
   * of discovery, ordered by desired centre, flattened, merged into blocks
   * and written over `positions`.
   */
  function RowPositions(nodes: seq<FamilyNode>, edges: seq<FamilyEdge>, levels: map<Id, int>, rootId: Id,
                        lvl: int, row: seq<Id>, positions: map<Id, real>): map<Id, real>
  {
    Placed(Merged(Flattened(SortClusters(ClustersOf(nodes, edges, levels, positions, rootId, lvl, row)))), positions)
  }

  /** The positions once the rows of `lvls` are laid out in that order, each over what the earlier ones left. */
  function LaidOut(nodes: seq<FamilyNode>, edges: seq<FamilyEdge>, levels: map<Id, int>, rootId: Id,
                   lvls: seq<int>): map<Id, real>
  {
    if lvls == [] then map[]
    else
      var lvl := lvls[|lvls| - 1];
      RowPositions(nodes, edges, levels, rootId, lvl, Row(nodes, levels, lvl),
                   LaidOut(nodes, edges, levels, rootId, lvls[..|lvls| - 1]))
  }

  /**
   * `calculateLayout` in services/layoutService.ts, lines 71-232 for one row:
   * cluster, order the clusters, flatten, merge into blocks and place. The
   * result is `RowPositions`; so every person of the row gets a position,
   * nobody else is touched, and no two persons of the row come closer than
   * `MIN_SPACING`.
   */
  method LayoutRow(nodes: seq<FamilyNode>, edges: seq<FamilyEdge>, adj: Adjacency.Adjacency,
                   levels: map<Id, int>, rootId: Id, lvl: int, row: seq<Id>, positions: map<Id, real>)
    returns (positions': map<Id, real>)
    requires Adjacency.Indexes(adj, edges)
    ensures forall id :: id in positions' <==> id in positions || id in row
    ensures forall id :: id in positions && id !in row ==> positions'[id] == positions[id]
    ensures forall a, b :: a in row && b in row && a != b ==> Abs(positions'[a] - positions'[b]) >= MIN_SPACING
    ensures positions' == RowPositions(nodes, edges, levels, rootId, lvl, row, positions)
  {
    var clusters;
    ghost var orders;
    clusters, orders := ClusterRow(nodes, edges, adj, levels, positions, rootId, lvl, row);
    var ordered := SortClusters(clusters);
    var items := Flatten(ordered);
    var blocks, parts := MergeBlocks(items);
    positions' := PlaceBlocks(blocks, positions);
    RowPlaced(row, clusters, items, blocks, parts);
    PlacedApart(BlockIds(blocks), Xs(blocks), row, positions');
  }

  /**
   * Positions written from a list of distinct persons whose positions grow
   * by at least `MIN_SPACING` keep any two of those persons that far apart.
   */
  lemma PlacedApart(ids: seq<Id>, xs: seq<real>, row: seq<Id>, positions: map<Id, real>)
    requires NoDup(ids) && (forall x :: x in ids <==> x in row) && |xs| == |ids|
    requires forall j, j' :: 0 <= j < j' < |xs| ==> xs[j] + MIN_SPACING <= xs[j']
    requires forall id :: id in ids ==> id in positions && positions[id] == xs[LastIndex(ids, id)]
    ensures forall a, b :: a in row && b in row && a != b ==> Abs(positions[a] - positions[b]) >= MIN_SPACING
  {
    forall a, b | a in row && b in row && a != b ensures Abs(positions[a] - positions[b]) >= MIN_SPACING {
      var ja, jb := LastIndex(ids, a), LastIndex(ids, b);
      if ja < jb {
        assert xs[ja] + MIN_SPACING <= xs[jb];
      } else {
        assert xs[jb] + MIN_SPACING <= xs[ja];
      }
    }
  }

  /**
   * The blocks of a row hold exactly its persons, once each, and their
   * positions grow by at least `MIN_SPACING` from one person to the next.
   */
  lemma RowPlaced(row: seq<Id>, clusters: seq<Cluster>, items: seq<Item>, blocks: seq<Block>,
                  parts: seq<seq<Item>>)
    requires NoDup(AllIds(clusters)) && forall x :: x in AllIds(clusters) <==> x in row
    requires items == Flattened(SortClusters(clusters))
    requires NonEmpty(blocks) && Separated(blocks) && Formed(blocks, parts) && Concat(parts) == items
    ensures NoDup(BlockIds(blocks)) && forall x :: x in BlockIds(blocks) <==> x in row
    ensures forall j, j' :: 0 <= j < j' < |Xs(blocks)| ==> Xs(blocks)[j] + MIN_SPACING <= Xs(blocks)[j']
  {
    RowMembersPlaced(row, clusters, items, blocks, parts);
    BlocksSpaced(blocks, parts);
  }

  /** The blocks hold the persons of the clusters, that is of the row, once each. */
  lemma RowMembersPlaced(row: seq<Id>, clusters: seq<Cluster>, items: seq<Item>, blocks: seq<Block>,
                         parts: seq<seq<Item>>)
    requires NoDup(AllIds(clusters)) && forall x :: x in AllIds(clusters) <==> x in row
    requires items == Flattened(SortClusters(clusters))
    requires Formed(blocks, parts) && Concat(parts) == items
    ensures NoDup(BlockIds(blocks)) && forall x :: x in BlockIds(blocks) <==> x in row
  {
    var ordered := SortClusters(clusters);
    FormedIds(blocks, parts);
    FlattenedIds(ordered);
    SortKeepsMembers(clusters);
    assert BlockIds(blocks) == AllIds(ordered);
    PermNoDup(AllIds(clusters), AllIds(ordered));
    forall x ensures x in AllIds(ordered) <==> x in AllIds(clusters) {
      assert x in AllIds(ordered) <==> x in multiset(AllIds(ordered));
      assert x in AllIds(clusters) <==> x in multiset(AllIds(clusters));
    }
  }

  /** Separated, fitted blocks place their persons at least `MIN_SPACING` apart, in order. */
  lemma BlocksSpaced(blocks: seq<Block>, parts: seq<seq<Item>>)
    requires NonEmpty(blocks) && Separated(blocks) && Formed(blocks, parts)
    ensures forall j, j' :: 0 <= j < j' < |Xs(blocks)| ==> Xs(blocks)[j] + MIN_SPACING <= Xs(blocks)[j']
  {
    FormedFitted(blocks, parts);
    NeighboursSpaced(blocks);
    forall j, j' | 0 <= j < j' < |Xs(blocks)| ensures Xs(blocks)[j] + MIN_SPACING <= Xs(blocks)[j'] {
      StepsApart(Xs(blocks), MIN_SPACING, j, j');
    }
  }

  /** Persons of the same level placed so far are `MIN_SPACING` apart. */
  ghost predicate Spaced(levels: map<Id, int>, positions: map<Id, real>)
  {
    forall a, b :: a in positions && b in positions && a != b && LevelOf(levels, a) == LevelOf(levels, b) ==>
      Abs(positions[a] - positions[b]) >= MIN_SPACING
  }

  /**
   * The result has one point per person: `y` is its level times
   * `LEVEL_HEIGHT`, and two persons drawn on the same horizontal line are
   * at least `MIN_SPACING` apart. `levels` is the level map of the
   * traversal from the root; `order` lists the levels that have persons,
   * from the top down, and `x` is where laying out the rows in that order
   * puts the person.
   */
  method CalculateLayout(nodes: seq<FamilyNode>, edges: seq<FamilyEdge>, rootId: Id)
    returns (result: map<Id, Point>, ghost levels: map<Id, int>, ghost order: seq<int>)
    ensures levels == Levels(edges, rootId)
    ensures rootId in levels && levels[rootId] == 0
    ensures forall v :: v in levels <==> Kinship.Reachable(edges, rootId, v)
    ensures Justified(edges, rootId, levels)
    ensures forall id :: id in result <==> id in NodeIds(nodes)
    ensures forall id :: id in result ==> result[id].y == (LevelOf(levels, id) as real) * LEVEL_HEIGHT
    ensures forall a, b :: a in result && b in result && a != b && result[a].y == result[b].y ==>
              Abs(result[a].x - result[b].x) >= MIN_SPACING
    ensures forall j, j' :: 0 <= j < j' < |order| ==> order[j] < order[j']
    ensures forall l :: l in order <==> Row(nodes, levels, l) != []
    ensures var placed := LaidOut(nodes, edges, levels, rootId, order);
            forall id :: id in result ==> id in placed && result[id].x == placed[id]
  {
    var adj := Adjacency.BuildAdjacency(nodes, edges);
    var lv;
    ghost var walks;
    lv, walks := AssignLevels(edges, adj, rootId);
    levels := lv;
    var rows, keys := GroupRows(nodes, lv);
    var sortedLevels := SortLevels(keys);
    SortedLevelsIncrease(keys);
    order := sortedLevels;
    var positions := PlaceRows(nodes, edges, adj, lv, rootId, rows, sortedLevels);
    AllPlaced(nodes, lv, rows, sortedLevels, positions);
    result := FinalPoints(nodes, lv, positions);
    SameLineSpaced(lv, positions, result);
  }

  /** Persons on one horizontal line share a level, so their spacing carries over to the points. */
  lemma SameLineSpaced(levels: map<Id, int>, positions: map<Id, real>, result: map<Id, Point>)
    requires Spaced(levels, positions)
    requires forall id :: id in result ==> id in positions
    requires forall id :: id in result ==> result[id].y == (LevelOf(levels, id) as real) * LEVEL_HEIGHT
    requires forall id :: id in result && id in positions ==> result[id].x == positions[id]
    ensures forall a, b :: a in result && b in result && a != b && result[a].y == result[b].y ==>
              Abs(result[a].x - result[b].x) >= MIN_SPACING
  {
  }

  /**
   * `calculateLayout` in services/layoutService.ts, lines 66-233: the rows are
   * laid out top-down, one level after the other, each into the same
   * `newPositions`. Afterwards exactly the persons of the laid-out levels have
   * positions, at the places `LaidOut` gives, and the persons of any one level
   * are `MIN_SPACING` apart.
   */
  method PlaceRows(nodes: seq<FamilyNode>, edges: seq<FamilyEdge>, adj: Adjacency.Adjacency,
                   levels: map<Id, int>, rootId: Id, rows: map<int, seq<Id>>, sortedLevels: seq<int>)
    returns (positions: map<Id, real>)
    requires Adjacency.Indexes(adj, edges)
    requires forall j, j' :: 0 <= j < j' < |sortedLevels| ==> sortedLevels[j] < sortedLevels[j']
    requires forall l :: l in sortedLevels ==> l in rows && rows[l] == Row(nodes, levels, l)
    ensures forall id :: id in positions <==> id in NodeIds(nodes) && LevelOf(levels, id) in sortedLevels
    ensures Spaced(levels, positions)
    ensures positions == LaidOut(nodes, edges, levels, rootId, sortedLevels)
  {
    positions := map[];
    for i := 0 to |sortedLevels|
      invariant forall id :: id in positions <==> id in NodeIds(nodes) && LevelOf(levels, id) in sortedLevels[..i]
      invariant Spaced(levels, positions)
      invariant positions == LaidOut(nodes, edges, levels, rootId, sortedLevels[..i])
    {
      assert sortedLevels[..i + 1][..i] == sortedLevels[..i];
      var lvl := sortedLevels[i];
      var row := rows[lvl];
      var positions' := LayoutRow(nodes, edges, adj, levels, rootId, lvl, row, positions);
      AddRow(nodes, levels, sortedLevels, i, row, positions, positions');
      positions := positions';
    }
    TakeAll(sortedLevels);
  }

  /** Node `j` is the last of `nodes[..k]` with this id. */
  ghost predicate LastWithId(nodes: seq<FamilyNode>, k: int, id: Id, j: int)
    requires k <= |nodes|
  {
    0 <= j < k && nodes[j].id == id && forall i :: j < i < k ==> nodes[i].id != id
  }

  /**
   * `calculateLayout` in services/layoutService.ts, lines 235-245: one point
   * per person, `x` from `newPositions` or else the person's current x, `y`
   * its level times `LEVEL_HEIGHT`. When several nodes share an id, the
   * last one writes the entry.
   */
  method FinalPoints(nodes: seq<FamilyNode>, levels: map<Id, int>, positions: map<Id, real>)
    returns (result: map<Id, Point>)
    ensures forall id :: id in result <==> id in NodeIds(nodes)
    ensures forall id :: id in result ==> result[id].y == (LevelOf(levels, id) as real) * LEVEL_HEIGHT
    ensures forall id :: id in result && id in positions ==> result[id].x == positions[id]
    ensures forall id :: id in result && id !in positions ==>
              exists k :: LastWithId(nodes, |nodes|, id, k) && result[id].x == nodes[k].x
  {
    result := map[];
    for k := 0 to |nodes|
      invariant forall id :: id in result <==> id in NodeIds(nodes[..k])
      invariant forall id :: id in result ==> result[id].y == (LevelOf(levels, id) as real) * LEVEL_HEIGHT
      invariant forall id :: id in result && id in positions ==> result[id].x == positions[id]
      invariant forall id :: id in result && id !in positions ==>
                  exists j :: LastWithId(nodes, k, id, j) && result[id].x == nodes[j].x
    {
      var n := nodes[k];
      var x := if n.id in positions then positions[n.id] else n.x;
      ghost var before := result;
      result := result[n.id := Point(x, (LevelOf(levels, n.id) as real) * LEVEL_HEIGHT)];
      assert NodeIds(nodes[..k + 1]) == NodeIds(nodes[..k]) + [n.id];
      forall id | id in result && id !in positions
        ensures exists j :: LastWithId(nodes, k + 1, id, j) && result[id].x == nodes[j].x
      {
        if id != n.id {
          var j :| LastWithId(nodes, k, id, j) && before[id].x == nodes[j].x;
          assert LastWithId(nodes, k + 1, id, j) && result[id] == before[id];
        } else {
          assert LastWithId(nodes, k + 1, id, k) && result[id].x == nodes[k].x;
        }
      }
    }
    TakeAll(nodes);
  }

  /** Laying out the next level's row keeps every placed row spaced and places exactly that row. */
  lemma AddRow(nodes: seq<FamilyNode>, levels: map<Id, int>, sortedLevels: seq<int>, i: nat,
               row: seq<Id>, positions: map<Id, real>, positions': map<Id, real>)
    requires i < |sortedLevels| && forall j, j' :: 0 <= j < j' < |sortedLevels| ==> sortedLevels[j] < sortedLevels[j']
    requires row == Row(nodes, levels, sortedLevels[i])
    requires forall id :: id in positions <==> id in NodeIds(nodes) && LevelOf(levels, id) in sortedLevels[..i]
    requires Spaced(levels, positions)
    requires forall id :: id in positions' <==> id in positions || id in row
    requires forall id :: id in positions && id !in row ==> positions'[id] == positions[id]
    requires forall a, b :: a in row && b in row && a != b ==> Abs(positions'[a] - positions'[b]) >= MIN_SPACING
    ensures forall id :: id in positions' <==> id in NodeIds(nodes) && LevelOf(levels, id) in sortedLevels[..i + 1]
    ensures Spaced(levels, positions')
  {
    var lvl := sortedLevels[i];
    assert sortedLevels[..i + 1] == sortedLevels[..i] + [lvl];
    assert lvl !in sortedLevels[..i];
    forall x ensures x in row <==> x in NodeIds(nodes) && LevelOf(levels, x) == lvl {
      RowMembers(nodes, levels, lvl, x);
    }
    NewRowSpaced(levels, sortedLevels[..i], lvl, row, positions, positions');
  }

  /**
   * A row of a level not laid out before, spaced within itself, joins
   * spaced rows without bringing anyone of the same level too close.
   */
  lemma NewRowSpaced(levels: map<Id, int>, done: seq<int>, lvl: int, row: seq<Id>,
                     positions: map<Id, real>, positions': map<Id, real>)
    requires lvl !in done && forall x :: x in row ==> LevelOf(levels, x) == lvl
    requires forall id :: id in positions ==> LevelOf(levels, id) in done
    requires Spaced(levels, positions)
    requires forall id :: id in positions' <==> id in positions || id in row
    requires forall id :: id in positions && id !in row ==> positions'[id] == positions[id]
    requires forall a, b :: a in row && b in row && a != b ==> Abs(positions'[a] - positions'[b]) >= MIN_SPACING
    ensures Spaced(levels, positions')
  {
    forall a, b | a in positions' && b in positions' && a != b && LevelOf(levels, a) == LevelOf(levels, b)
      ensures Abs(positions'[a] - positions'[b]) >= MIN_SPACING
    {
      if a !in row && b !in row {
        assert positions'[a] == positions[a] && positions'[b] == positions[b];
      }
    }
  }

  /** Every person's level is among the laid-out levels, so every person has a position. */
  lemma AllPlaced(nodes: seq<FamilyNode>, levels: map<Id, int>, rows: map<int, seq<Id>>,
                  sortedLevels: seq<int>, positions: map<Id, real>)
    requires forall l :: l in rows <==> Row(nodes, levels, l) != []
    requires forall l :: l in sortedLevels <==> l in rows
    requires forall id :: id in positions <==> id in NodeIds(nodes) && LevelOf(levels, id) in sortedLevels
    ensures forall id :: id in NodeIds(nodes) ==> id in positions
  {
    forall id | id in NodeIds(nodes) ensures id in positions {
      RowMembers(nodes, levels, LevelOf(levels, id), id);
    }
  }
}
