/**
 * The second half of laying out one row: the clusters are put in order,
 * flattened into a list of persons that each carry their cluster's
 * desired centre, merged into blocks that do not overlap, and the blocks'
 * persons are given their x positions.
 */
module LayoutBlocks {
  import opened Family
  import opened Lists
  import opened LayoutClusters

  // ---------------------------------------------------------------------
  // Cluster order

  function Abs(x: real): real
  {
    if x < 0.0 then -x else x
  }

  /**
   * The comparator of the cluster sort: by desired centre when the two
   * desired centres are more than 1 apart, otherwise by current centre.
   * It is not transitive.
   */
  function Compare(a: Cluster, b: Cluster): real
  {
    if Abs(a.desiredCenter - b.desiredCenter) > 1.0 then a.desiredCenter - b.desiredCenter
    else a.currentCenter - b.currentCenter
  }

  /** Moves `c` leftwards past every element that compares greater than it. */
  function InsertCluster(c: Cluster, sorted: seq<Cluster>): (r: seq<Cluster>)
    ensures multiset(r) == multiset(sorted) + multiset{c}
  {
    if sorted == [] || Compare(sorted[|sorted| - 1], c) <= 0.0 then sorted + [c]
    else
      var init := sorted[..|sorted| - 1];
      assert sorted == init + [sorted[|sorted| - 1]];
      InsertCluster(c, init) + [sorted[|sorted| - 1]]
  }

  /**
   * `clusters.sort(cmp)`, as a stable insertion sort: each cluster in turn
   * is inserted into the already ordered ones. The result is a rearrangement
   * of the clusters.
   */
  function SortClusters(clusters: seq<Cluster>): (r: seq<Cluster>)
    ensures multiset(r) == multiset(clusters)
  {
    if clusters == [] then []
    else
      var init := clusters[..|clusters| - 1];
      assert clusters == init + [clusters[|clusters| - 1]];
      InsertCluster(clusters[|clusters| - 1], SortClusters(init))
  }

  /** Every two clusters' desired centres are more than 1 apart. */
  predicate FarApart(clusters: seq<Cluster>)
  {
    forall i, j :: 0 <= i < |clusters| && 0 <= j < |clusters| && i != j ==>
      Abs(clusters[i].desiredCenter - clusters[j].desiredCenter) > 1.0
  }

  predicate ByDesired(clusters: seq<Cluster>)
  {
    forall i, j :: 0 <= i < j < |clusters| ==> clusters[i].desiredCenter < clusters[j].desiredCenter
  }

  lemma {:induction false} InsertFarApart(c: Cluster, sorted: seq<Cluster>)
    requires ByDesired(sorted)
    requires forall k :: 0 <= k < |sorted| ==> Abs(sorted[k].desiredCenter - c.desiredCenter) > 1.0
    ensures ByDesired(InsertCluster(c, sorted))
  {
    if sorted != [] && Compare(sorted[|sorted| - 1], c) > 0.0 {
      var init := sorted[..|sorted| - 1];
      var last := sorted[|sorted| - 1];
      assert ByDesired(init) by {
        forall k | 0 <= k < |init| ensures init[k] == sorted[k] { }
      }
      InsertFarApart(c, init);
      var rest := InsertCluster(c, init);
      var others := init + [c];
      assert multiset(others) == multiset(init) + multiset{c};
      assert forall k :: 0 <= k < |others| ==> others[k].desiredCenter < last.desiredCenter by {
        forall k | 0 <= k < |others| ensures others[k].desiredCenter < last.desiredCenter {
          if k < |init| {
            assert others[k] == sorted[k];
          }
        }
      }
      DesiredBelow(rest, others, last.desiredCenter);
      ByDesiredSnoc(rest, last);
    } else if sorted != [] {
      var last := sorted[|sorted| - 1];
      assert last.desiredCenter < c.desiredCenter;
      ByDesiredSnoc(sorted, c);
    }
  }

  /** A rearrangement of clusters whose desired centres are all below `hi` has the same bound. */
  lemma DesiredBelow(a: seq<Cluster>, b: seq<Cluster>, hi: real)
    requires multiset(a) == multiset(b) && forall k :: 0 <= k < |b| ==> b[k].desiredCenter < hi
    ensures forall k :: 0 <= k < |a| ==> a[k].desiredCenter < hi
  {
    forall k | 0 <= k < |a| ensures a[k].desiredCenter < hi {
      assert a[k] in multiset(b);
      var m :| 0 <= m < |b| && b[m] == a[k];
    }
  }

  /** A cluster whose desired centre is above every other can go last. */
  lemma ByDesiredSnoc(s: seq<Cluster>, c: Cluster)
    requires ByDesired(s) && forall k :: 0 <= k < |s| ==> s[k].desiredCenter < c.desiredCenter
    ensures ByDesired(s + [c])
  {
    forall i, j | 0 <= i < j < |s + [c]| ensures (s + [c])[i].desiredCenter < (s + [c])[j].desiredCenter {
      assert (s + [c])[i] == s[i];
      if j < |s| {
        assert (s + [c])[j] == s[j];
      }
    }
  }

  /**
   * When the desired centres are far apart, the comparator is the order of
   * the desired centres, and the clusters come out in that order.
   */
  lemma {:induction false} FarApartSortedByDesired(clusters: seq<Cluster>)
    requires FarApart(clusters)
    ensures ByDesired(SortClusters(clusters))
  {
    if clusters != [] {
      var init := clusters[..|clusters| - 1];
      var c := clusters[|clusters| - 1];
      assert FarApart(init) by {
        forall i, j | 0 <= i < |init| && 0 <= j < |init| && i != j
          ensures Abs(init[i].desiredCenter - init[j].desiredCenter) > 1.0 {
          assert init[i] == clusters[i] && init[j] == clusters[j];
        }
      }
      FarApartSortedByDesired(init);
      var s := SortClusters(init);
      forall k | 0 <= k < |s| ensures Abs(s[k].desiredCenter - c.desiredCenter) > 1.0 {
        assert s[k] in multiset(init);
        var m :| 0 <= m < |init| && init[m] == s[k];
        assert clusters[m] == s[k];
      }
      InsertFarApart(c, s);
    }
  }

  /** Ordering the clusters rearranges their members. */
  lemma {:induction false} InsertKeepsMembers(c: Cluster, sorted: seq<Cluster>)
    ensures multiset(AllIds(InsertCluster(c, sorted))) == multiset(AllIds(sorted)) + multiset(c.ids)
  {
    if sorted == [] || Compare(sorted[|sorted| - 1], c) <= 0.0 {
      assert (sorted + [c])[..|sorted|] == sorted;
    } else {
      var init := sorted[..|sorted| - 1];
      var last := sorted[|sorted| - 1];
      var rest := InsertCluster(c, init);
      InsertKeepsMembers(c, init);
      assert (rest + [last])[..|rest|] == rest;
      assert AllIds(sorted) == AllIds(init) + last.ids;
    }
  }

  lemma {:induction false} SortKeepsMembers(clusters: seq<Cluster>)
    ensures multiset(AllIds(SortClusters(clusters))) == multiset(AllIds(clusters))
  {
    if clusters != [] {
      var init := clusters[..|clusters| - 1];
      SortKeepsMembers(init);
      InsertKeepsMembers(clusters[|clusters| - 1], SortClusters(init));
    }
  }

  // ---------------------------------------------------------------------
  // Flattening

  /** A person of the row with the desired centre of its cluster. */
  datatype Item = Item(id: Id, desiredX: real)

  function ItemIds(items: seq<Item>): (r: seq<Id>)
    ensures |r| == |items| && forall j :: 0 <= j < |items| ==> r[j] == items[j].id
  {
    seq(|items|, j requires 0 <= j < |items| => items[j].id)
  }

  /** The members of a cluster, each carrying the cluster's desired centre. */
  function Spread(c: Cluster): (r: seq<Item>)
    ensures |r| == |c.ids| && forall m :: 0 <= m < |c.ids| ==> r[m] == Item(c.ids[m], c.desiredCenter)
  {
    seq(|c.ids|, m requires 0 <= m < |c.ids| => Item(c.ids[m], c.desiredCenter))
  }

  function Flattened(clusters: seq<Cluster>): seq<Item>
  {
    if clusters == [] then [] else Flattened(clusters[..|clusters| - 1]) + Spread(clusters[|clusters| - 1])
  }

  /** The flattened list holds the clusters' members, cluster after cluster. */
  lemma {:induction false} FlattenedIds(clusters: seq<Cluster>)
    ensures ItemIds(Flattened(clusters)) == AllIds(clusters)
  {
    if clusters != [] {
      var init := clusters[..|clusters| - 1];
      var c := clusters[|clusters| - 1];
      FlattenedIds(init);
      assert ItemIds(Flattened(init) + Spread(c)) == ItemIds(Flattened(init)) + c.ids;
    }
  }

  /** Every member appears with the desired centre of its own cluster. */
  lemma {:induction false} FlattenedDesired(clusters: seq<Cluster>, k: nat, m: nat)
    requires k < |clusters| && m < |clusters[k].ids|
    ensures Item(clusters[k].ids[m], clusters[k].desiredCenter) in Flattened(clusters)
  {
    var init := clusters[..|clusters| - 1];
    var c := clusters[|clusters| - 1];
    if k == |clusters| - 1 {
      assert Spread(c)[m] in Spread(c);
    } else {
      assert init[k] == clusters[k];
      FlattenedDesired(init, k, m);
    }
  }

  /** `calculateLayout` in services/layoutService.ts, lines 171-177: `nodesWithDesired`, built by two nested loops. */
  method Flatten(clusters: seq<Cluster>) returns (items: seq<Item>)
    ensures items == Flattened(clusters)
  {
    items := [];
    for k := 0 to |clusters|
      invariant items == Flattened(clusters[..k])
    {
      var c := clusters[k];
      ghost var before := items;
      for m := 0 to |c.ids|
        invariant items == before + Spread(c)[..m]
      {
        assert Spread(c)[..m + 1] == Spread(c)[..m] + [Item(c.ids[m], c.desiredCenter)];
        items := items + [Item(c.ids[m], c.desiredCenter)];
      }
      assert Spread(c)[..|c.ids|] == Spread(c);
      assert clusters[..k + 1][..k] == clusters[..k];
    }
    TakeAll(clusters);
  }

  // ---------------------------------------------------------------------
  // Block merge

  /** Persons placed side by side, `SIBLING_GAP` apart, centred on their mean desired x. */
  datatype Block = Block(nodes: seq<Id>, totalDesired: real, width: real)

  function Center(b: Block): real
    requires |b.nodes| > 0
  {
    b.totalDesired / (|b.nodes| as real)
  }

  function LeftEdge(b: Block): real
    requires |b.nodes| > 0
  {
    Center(b) - b.width / 2.0
  }

  function RightEdge(b: Block): real
    requires |b.nodes| > 0
  {
    Center(b) + b.width / 2.0
  }

  /** The previous block's right edge plus the sibling gap passes the next block's left edge by more than 0.1: they merge. */
  predicate Overlaps(prev: Block, curr: Block)
    requires |prev.nodes| > 0 && |curr.nodes| > 0
  {
    RightEdge(prev) + SIBLING_GAP > LeftEdge(curr) + 0.1
  }

  function SumDesired(items: seq<Item>): real
  {
    if items == [] then 0.0 else SumDesired(items[..|items| - 1]) + items[|items| - 1].desiredX
  }

  /** The block a run of consecutive items forms. */
  function BlockOf(part: seq<Item>): (b: Block)
    ensures |b.nodes| == |part|
  {
    Block(ItemIds(part), SumDesired(part), ((|part| as real) - 1.0) * SIBLING_GAP)
  }

  function Concat(parts: seq<seq<Item>>): seq<Item>
  {
    if parts == [] then [] else Concat(parts[..|parts| - 1]) + parts[|parts| - 1]
  }

  predicate NonEmpty(blocks: seq<Block>)
  {
    forall k :: 0 <= k < |blocks| ==> |blocks[k].nodes| > 0
  }

  /** No two neighbouring blocks overlap. */
  predicate Separated(blocks: seq<Block>)
    requires NonEmpty(blocks)
  {
    forall k :: 0 < k < |blocks| ==> !Overlaps(blocks[k - 1], blocks[k])
  }

  /** The blocks are formed by consecutive non-empty runs `parts` of the items. */
  ghost predicate Formed(blocks: seq<Block>, parts: seq<seq<Item>>)
  {
    |parts| == |blocks| && forall k :: 0 <= k < |blocks| ==> parts[k] != [] && blocks[k] == BlockOf(parts[k])
  }

  /** The blocks hold the items' persons, in order. */
  lemma {:induction false} FormedIds(blocks: seq<Block>, parts: seq<seq<Item>>)
    requires Formed(blocks, parts)
    ensures BlockIds(blocks) == ItemIds(Concat(parts))
  {
    if blocks != [] {
      var n := |blocks| - 1;
      assert Formed(blocks[..n], parts[..n]) by {
        forall k | 0 <= k < n ensures blocks[..n][k] == blocks[k] && parts[..n][k] == parts[k] { }
      }
      FormedIds(blocks[..n], parts[..n]);
      assert ItemIds(Concat(parts[..n]) + parts[n]) == ItemIds(Concat(parts[..n])) + ItemIds(parts[n]);
    }
  }

  function TotalDesired(blocks: seq<Block>): real
  {
    if blocks == [] then 0.0 else TotalDesired(blocks[..|blocks| - 1]) + blocks[|blocks| - 1].totalDesired
  }

  /** Merging neither loses nor invents desired position: the blocks' totals add up to the items'. */
  lemma {:induction false} FormedTotal(blocks: seq<Block>, parts: seq<seq<Item>>)
    requires Formed(blocks, parts)
    ensures TotalDesired(blocks) == SumDesired(Concat(parts))
  {
    if blocks != [] {
      var n := |blocks| - 1;
      assert Formed(blocks[..n], parts[..n]) by {
        forall k | 0 <= k < n ensures blocks[..n][k] == blocks[k] && parts[..n][k] == parts[k] { }
      }
      FormedTotal(blocks[..n], parts[..n]);
      SumDesiredAppend(Concat(parts[..n]), parts[n]);
    }
  }

  lemma SumDesiredAppend(a: seq<Item>, b: seq<Item>)
    ensures SumDesired(a + b) == SumDesired(a) + SumDesired(b)
  {
    if b != [] {
      assert (a + b)[..|a + b| - 1] == a + b[..|b| - 1];
      SumDesiredAppend(a, b[..|b| - 1]);
    } else {
      assert a + b == a;
    }
  }

  /** Merging two neighbouring blocks gives the block of their joined runs. */
  lemma MergeBlock(p: seq<Item>, c: seq<Item>)
    ensures var prev := BlockOf(p); var curr := BlockOf(c);
            Block(prev.nodes + curr.nodes, prev.totalDesired + curr.totalDesired,
                  ((|prev.nodes + curr.nodes| as real) - 1.0) * SIBLING_GAP) == BlockOf(p + c)
  {
    SumDesiredAppend(p, c);
    ItemIdsAppend(p, c);
  }

  lemma ItemIdsAppend(a: seq<Item>, b: seq<Item>)
    ensures ItemIds(a + b) == ItemIds(a) + ItemIds(b)
  {
    assert ItemIds(a + b) == ItemIds(a) + ItemIds(b);
  }

  /** The block two neighbouring blocks merge into: their persons side by side, their totals added. */
  function Join(prev: Block, curr: Block): (b: Block)
    ensures |b.nodes| == |prev.nodes| + |curr.nodes|
  {
    var merged := prev.nodes + curr.nodes;
    Block(merged, prev.totalDesired + curr.totalDesired, ((|merged| as real) - 1.0) * SIBLING_GAP)
  }

  /**
   * Pushing `current` onto the stack `blocks`: it swallows the top block
   * while the two overlap, and is pushed as soon as they do not.
   */
  function Settle(blocks: seq<Block>, current: Block): (r: seq<Block>)
    requires NonEmpty(blocks) && |current.nodes| > 0
    ensures NonEmpty(r)
    decreases |blocks|
  {
    if blocks == [] then [current]
    else
      var prev := blocks[|blocks| - 1];
      if Overlaps(prev, current) then
        NonEmptyPop(blocks);
        Settle(blocks[..|blocks| - 1], Join(prev, current))
      else blocks + [current]
  }

  lemma NonEmptyPop(blocks: seq<Block>)
    requires NonEmpty(blocks) && |blocks| > 0
    ensures NonEmpty(blocks[..|blocks| - 1])
  {
    var init := blocks[..|blocks| - 1];
    forall k | 0 <= k < |init| ensures |init[k].nodes| > 0 {
      assert init[k] == blocks[k];
    }
  }

  /** Settling one more item: the item's own block settles onto the blocks of the items before it. */
  lemma SettleNext(items: seq<Item>, i: nat, blocks: seq<Block>, current: Block)
    requires i < |items| && blocks == Merged(items[..i])
    requires current == Block([items[i].id], items[i].desiredX, 0.0)
    ensures Settle(blocks, current) == Merged(items[..i + 1])
  {
    assert items[..i + 1][..i] == items[..i];
  }

  /** A block that overlaps the top of the stack settles as the two joined onto the rest. */
  lemma SettleJoin(blocks: seq<Block>, current: Block)
    requires NonEmpty(blocks) && |current.nodes| > 0 && |blocks| > 0
    requires Overlaps(blocks[|blocks| - 1], current)
    ensures NonEmpty(blocks[..|blocks| - 1])
    ensures Settle(blocks, current) == Settle(blocks[..|blocks| - 1], Join(blocks[|blocks| - 1], current))
  {
    NonEmptyPop(blocks);
  }

  /** The settling of a block that does not overlap the top of the stack is a push. */
  lemma SettlePush(blocks: seq<Block>, current: Block)
    requires NonEmpty(blocks) && |current.nodes| > 0
    requires |blocks| > 0 ==> !Overlaps(blocks[|blocks| - 1], current)
    ensures Settle(blocks, current) == blocks + [current]
  {
  }

  /** The blocks of the merge pass: each item in turn, as a block of its own, settles onto the blocks before it. */
  function Merged(items: seq<Item>): (r: seq<Block>)
    ensures NonEmpty(r)
  {
    if items == [] then []
    else
      var item := items[|items| - 1];
      Settle(Merged(items[..|items| - 1]), Block([item.id], item.desiredX, 0.0))
  }

  /** The state of the merge loop while item `i` is being placed. */
  ghost predicate Merging(items: seq<Item>, i: nat, blocks: seq<Block>, parts: seq<seq<Item>>,
                          current: Block, part: seq<Item>)
  {
    i < |items| && Formed(blocks, parts) && NonEmpty(blocks) && Separated(blocks) &&
    Concat(parts) + part == items[..i + 1] && part != [] && current == BlockOf(part)
  }

  lemma MergeStep(items: seq<Item>, i: nat, blocks: seq<Block>, parts: seq<seq<Item>>,
                  current: Block, part: seq<Item>)
    requires Merging(items, i, blocks, parts, current, part) && |blocks| > 0
    ensures Merging(items, i, blocks[..|blocks| - 1], parts[..|parts| - 1],
                    Join(blocks[|blocks| - 1], current), parts[|parts| - 1] + part)
  {
    MergeBlock(parts[|parts| - 1], part);
    var n := |blocks| - 1;
    assert Concat(parts) == Concat(parts[..n]) + parts[n];
  }

  lemma PushStep(items: seq<Item>, i: nat, blocks: seq<Block>, parts: seq<seq<Item>>,
                 current: Block, part: seq<Item>)
    requires Merging(items, i, blocks, parts, current, part)
    requires |blocks| > 0 ==> !Overlaps(blocks[|blocks| - 1], current)
    ensures Formed(blocks + [current], parts + [part]) && NonEmpty(blocks + [current])
    ensures Separated(blocks + [current]) && Concat(parts + [part]) == items[..i + 1]
  {
    assert (parts + [part])[..|parts|] == parts;
  }

  /**
   * `calculateLayout` in services/layoutService.ts, lines 186-223: each item
   * starts a block of its own, which swallows the previous block for as long
   * as the two overlap. The blocks are those of `Merged`; they come from
   * consecutive runs of the items, in order, and no two neighbours overlap.
   */
  method MergeBlocks(items: seq<Item>) returns (blocks: seq<Block>, ghost parts: seq<seq<Item>>)
    ensures blocks == Merged(items)
    ensures NonEmpty(blocks) && Separated(blocks)
    ensures Formed(blocks, parts) && Concat(parts) == items
  {
    blocks, parts := [], [];
    for i := 0 to |items|
      invariant Formed(blocks, parts) && NonEmpty(blocks) && Separated(blocks)
      invariant Concat(parts) == items[..i]
      invariant blocks == Merged(items[..i])
    {
      blocks, parts := PlaceItem(items, i, blocks, parts);
    }
    TakeAll(items);
  }

  /**
   * The body of the `forEach` (lines 193-221): item `i` becomes a block of
   * its own, merges with the last block while the two overlap, and is
   * pushed.
   */
  method PlaceItem(items: seq<Item>, i: nat, blocks: seq<Block>, ghost parts: seq<seq<Item>>)
    returns (blocks': seq<Block>, ghost parts': seq<seq<Item>>)
    requires i < |items| && Formed(blocks, parts) && NonEmpty(blocks) && Separated(blocks)
    requires Concat(parts) == items[..i] && blocks == Merged(items[..i])
    ensures Formed(blocks', parts') && NonEmpty(blocks') && Separated(blocks')
    ensures Concat(parts') == items[..i + 1] && blocks' == Merged(items[..i + 1])
  {
    var item := items[i];
    var current := Block([item.id], item.desiredX, 0.0);
    ghost var part := [item];
    TakeSnoc(items, i);
    assert current == BlockOf(part) by {
      assert SumDesired(part) == SumDesired([]) + item.desiredX;
    }
    SettleNext(items, i, blocks, current);
    blocks', parts' := blocks, parts;
    while |blocks'| > 0
      invariant Merging(items, i, blocks', parts', current, part)
      invariant Settle(blocks', current) == Merged(items[..i + 1])
      decreases |blocks'|
    {
      var prev := blocks'[|blocks'| - 1];
      if Overlaps(prev, current) {
        SettleJoin(blocks', current);
        MergeStep(items, i, blocks', parts', current, part);
        var merged := prev.nodes + current.nodes;
        var joined := Block(merged, prev.totalDesired + current.totalDesired,
                            ((|merged| as real) - 1.0) * SIBLING_GAP);
        assert joined == Join(prev, current);
        part := parts'[|parts'| - 1] + part;
        blocks', parts' := blocks'[..|blocks'| - 1], parts'[..|parts'| - 1];
        current := joined;
      } else {
        break;
      }
    }
    PushStep(items, i, blocks', parts', current, part);
    SettlePush(blocks', current);
    blocks', parts' := blocks' + [current], parts' + [part];
  }

  // ---------------------------------------------------------------------
  // Placement

  /** `n` positions `SIBLING_GAP` apart, the first at `start`. */
  function Ladder(start: real, n: nat): (r: seq<real>)
    ensures |r| == n && forall i :: 0 <= i < n ==> r[i] == start + (i as real) * SIBLING_GAP
  {
    if n == 0 then [] else Ladder(start, n - 1) + [start + ((n - 1) as real) * SIBLING_GAP]
  }

  /** `startX + i * SIBLING_GAP` for the block's `i`-th person, `startX = center - width / 2`. */
  function Slots(b: Block): (r: seq<real>)
    ensures |r| == |b.nodes|
  {
    if |b.nodes| == 0 then [] else Ladder(LeftEdge(b), |b.nodes|)
  }

  /** The persons of all blocks, block after block. */
  function BlockIds(blocks: seq<Block>): seq<Id>
  {
    if blocks == [] then [] else BlockIds(blocks[..|blocks| - 1]) + blocks[|blocks| - 1].nodes
  }

  /** The positions of all blocks' persons, in the order of `BlockIds`. */
  function Xs(blocks: seq<Block>): (r: seq<real>)
    ensures |r| == |BlockIds(blocks)|
  {
    if blocks == [] then [] else Xs(blocks[..|blocks| - 1]) + Slots(blocks[|blocks| - 1])
  }

  /** The last position at which `x` occurs in `s`. */
  function LastIndex(s: seq<Id>, x: Id): (j: nat)
    requires x in s
    ensures j < |s| && s[j] == x && forall k :: j < k < |s| ==> s[k] != x
  {
    if s[|s| - 1] == x then |s| - 1
    else
      assert x in s[..|s| - 1] by {
        var k :| 0 <= k < |s| && s[k] == x;
        assert s[..|s| - 1][k] == x;
      }
      LastIndex(s[..|s| - 1], x)
  }

  /**
   * `after` is `before` with `after[ids[j]] = xs[j]` written for each `j`
   * in turn: each written person holds the value of its last write.
   */
  ghost predicate Written(before: map<Id, real>, ids: seq<Id>, xs: seq<real>, after: map<Id, real>)
  {
    |ids| == |xs| &&
    (forall id :: id in after <==> id in before || id in ids) &&
    (forall id :: id in before && id !in ids ==> after[id] == before[id]) &&
    (forall id :: id in ids ==> after[id] == xs[LastIndex(ids, id)])
  }

  lemma WriteOne(before: map<Id, real>, ids: seq<Id>, xs: seq<real>, after: map<Id, real>, id: Id, x: real)
    requires Written(before, ids, xs, after)
    ensures Written(before, ids + [id], xs + [x], after[id := x])
  {
    var ids', xs' := ids + [id], xs + [x];
    assert ids'[..|ids|] == ids;
    forall y | y in ids' && y != id ensures LastIndex(ids', y) == LastIndex(ids, y) {
      assert y in ids;
    }
  }

  /**
   * `calculateLayout` in services/layoutService.ts, lines 227-231 for one
   * block: its persons get `startX + i * SIBLING_GAP`.
   */
  method PlaceBlock(b: Block, ghost before: map<Id, real>, ghost ids: seq<Id>, ghost xs: seq<real>,
                    positions: map<Id, real>)
    returns (positions': map<Id, real>)
    requires Written(before, ids, xs, positions)
    ensures Written(before, ids + b.nodes, xs + Slots(b), positions')
  {
    positions' := positions;
    assert ids + b.nodes[..0] == ids && xs + Slots(b)[..0] == xs;
    for i := 0 to |b.nodes|
      invariant Written(before, ids + b.nodes[..i], xs + Slots(b)[..i], positions')
    {
      // Only reached for a person of the block, so the block is not empty here.
      var center := b.totalDesired / (|b.nodes| as real);
      var startX := center - b.width / 2.0;
      var x := startX + (i as real) * SIBLING_GAP;
      assert x == Slots(b)[i];
      WriteOne(before, ids + b.nodes[..i], xs + Slots(b)[..i], positions', b.nodes[i], x);
      assert ids + b.nodes[..i + 1] == ids + b.nodes[..i] + [b.nodes[i]];
      assert xs + Slots(b)[..i + 1] == xs + Slots(b)[..i] + [x];
      positions' := positions'[b.nodes[i] := x];
    }
    assert b.nodes[..|b.nodes|] == b.nodes && Slots(b)[..|b.nodes|] == Slots(b);
  }

  /**
   * `calculateLayout` in services/layoutService.ts, lines 225-232: every
   * person of every block gets its block's slot; a person written twice keeps
   * its last slot, and nobody else changes.
   */
  method PlaceBlocks(blocks: seq<Block>, positions: map<Id, real>) returns (positions': map<Id, real>)
    ensures forall id :: id in positions' <==> id in positions || id in BlockIds(blocks)
    ensures forall id :: id in positions && id !in BlockIds(blocks) ==> positions'[id] == positions[id]
    ensures forall id :: id in BlockIds(blocks) ==> positions'[id] == Xs(blocks)[LastIndex(BlockIds(blocks), id)]
    ensures positions' == Placed(blocks, positions)
  {
    positions' := positions;
    for k := 0 to |blocks|
      invariant Written(positions, BlockIds(blocks[..k]), Xs(blocks[..k]), positions')
    {
      assert blocks[..k + 1][..k] == blocks[..k];
      positions' := PlaceBlock(blocks[k], positions, BlockIds(blocks[..k]), Xs(blocks[..k]), positions');
    }
    TakeAll(blocks);
    PlacedAgrees(blocks, positions, positions');
  }

  /**
   * `positions` once the persons of `blocks` are written in block order:
   * a person written twice keeps its last slot, everybody else keeps the
   * old position.
   */
  function Placed(blocks: seq<Block>, positions: map<Id, real>): map<Id, real>
  {
    var ids := BlockIds(blocks);
    map id | id in positions.Keys + (set x | x in ids) :: if id in ids then Xs(blocks)[LastIndex(ids, id)] else positions[id]
  }

  /** A map with the keys and the values `PlaceBlocks` promises is `Placed`. */
  lemma PlacedAgrees(blocks: seq<Block>, positions: map<Id, real>, after: map<Id, real>)
    requires forall id :: id in after <==> id in positions || id in BlockIds(blocks)
    requires forall id :: id in positions && id !in BlockIds(blocks) ==> after[id] == positions[id]
    requires forall id :: id in BlockIds(blocks) ==> after[id] == Xs(blocks)[LastIndex(BlockIds(blocks), id)]
    ensures after == Placed(blocks, positions)
  {
  }

  /** Without repeated persons, each person's last slot is its only one. */
  lemma LastIndexOfDistinct(s: seq<Id>, j: nat)
    requires NoDup(s) && j < |s|
    ensures LastIndex(s, s[j]) == j
  {
  }

  /** Every block is non-empty and as wide as its persons spaced `SIBLING_GAP` apart. */
  predicate Fitted(blocks: seq<Block>)
  {
    forall k :: 0 <= k < |blocks| ==>
      |blocks[k].nodes| > 0 && blocks[k].width == ((|blocks[k].nodes| as real) - 1.0) * SIBLING_GAP
  }

  lemma FormedFitted(blocks: seq<Block>, parts: seq<seq<Item>>)
    requires Formed(blocks, parts)
    ensures Fitted(blocks)
  {
  }

  /** The last slot of a fitted block is its right edge. */
  lemma LastSlot(b: Block)
    requires |b.nodes| > 0 && b.width == ((|b.nodes| as real) - 1.0) * SIBLING_GAP
    ensures Slots(b)[|b.nodes| - 1] == RightEdge(b)
  {
  }

  /**
   * Neighbouring persons in the placed order are at least `SIBLING_GAP - 0.1`
   * apart: exactly `SIBLING_GAP` inside a block, and at least that less the
   * 0.1 tolerance across two blocks that do not overlap.
   */
  lemma {:induction false} NeighboursSpaced(blocks: seq<Block>)
    requires Fitted(blocks) && Separated(blocks)
    ensures forall j :: 0 < j < |Xs(blocks)| ==> Xs(blocks)[j - 1] + SIBLING_GAP - 0.1 <= Xs(blocks)[j]
  {
    if blocks != [] {
      var init := blocks[..|blocks| - 1];
      var b := blocks[|blocks| - 1];
      InitFittedSeparated(blocks);
      NeighboursSpaced(init);
      assert Xs(blocks) == Xs(init) + Slots(b);
      SlotsRising(b);
      if init != [] {
        BoundaryGap(blocks);
      }
      ConcatRising(Xs(init), Slots(b), SIBLING_GAP - 0.1);
    }
  }

  /** Dropping the last block keeps the others fitted and separated. */
  lemma InitFittedSeparated(blocks: seq<Block>)
    requires blocks != [] && Fitted(blocks) && Separated(blocks)
    ensures Fitted(blocks[..|blocks| - 1]) && Separated(blocks[..|blocks| - 1])
  {
    var init := blocks[..|blocks| - 1];
    forall k | 0 <= k < |init| ensures init[k] == blocks[k] { }
  }

  /** Inside one block the persons stand `SIBLING_GAP` apart. */
  lemma SlotsRising(b: Block)
    ensures forall k :: 0 < k < |Slots(b)| ==> Slots(b)[k - 1] + (SIBLING_GAP - 0.1) <= Slots(b)[k]
  {
  }

  /** Across two neighbouring blocks that do not overlap, the gap is at least `SIBLING_GAP - 0.1`. */
  lemma BoundaryGap(blocks: seq<Block>)
    requires |blocks| >= 2 && Fitted(blocks) && Separated(blocks)
    ensures var init := blocks[..|blocks| - 1];
            Xs(init)[|Xs(init)| - 1] + (SIBLING_GAP - 0.1) <= Slots(blocks[|blocks| - 1])[0]
  {
    var init := blocks[..|blocks| - 1];
    var p, b := init[|init| - 1], blocks[|blocks| - 1];
    assert Xs(init) == Xs(init[..|init| - 1]) + Slots(p);
    LastSlot(p);
    assert !Overlaps(blocks[|blocks| - 2], b);
  }

  /** Two rising lists, the second starting far enough after the first ends, rise together. */
  lemma ConcatRising(xs: seq<real>, ys: seq<real>, d: real)
    requires forall k :: 0 < k < |xs| ==> xs[k - 1] + d <= xs[k]
    requires forall k :: 0 < k < |ys| ==> ys[k - 1] + d <= ys[k]
    requires xs != [] && ys != [] ==> xs[|xs| - 1] + d <= ys[0]
    ensures forall k :: 0 < k < |xs + ys| ==> (xs + ys)[k - 1] + d <= (xs + ys)[k]
  {
    forall k | 0 < k < |xs + ys| ensures (xs + ys)[k - 1] + d <= (xs + ys)[k] {
      if k < |xs| {
        assert (xs + ys)[k - 1] == xs[k - 1] && (xs + ys)[k] == xs[k];
      } else if k > |xs| {
        assert (xs + ys)[k - 1] == ys[k - 1 - |xs|] && (xs + ys)[k] == ys[k - |xs|];
      }
    }
  }

  /** Positions that grow by at least `d > 0` per step are at least `d` apart. */
  lemma {:induction false} StepsApart(xs: seq<real>, d: real, i: nat, j: nat)
    requires d > 0.0 && forall k :: 0 < k < |xs| ==> xs[k - 1] + d <= xs[k]
    requires i < j < |xs|
    ensures xs[i] + d <= xs[j]
  {
    if i < j - 1 {
      StepsApart(xs, d, i, j - 1);
    }
  }

  lemma {:induction false} LadderSum(start: real, n: nat)
    ensures Sum(Ladder(start, n)) == LadderTotal(start, n)
  {
    if n > 0 {
      var l := Ladder(start, n - 1);
      var x := start + ((n - 1) as real) * SIBLING_GAP;
      assert Ladder(start, n) == l + [x];
      LadderSum(start, n - 1);
      SumSnoc(l, x);
      LadderStep(start, n);
    }
  }

  /** The sum of `n` positions `SIBLING_GAP` apart from `start`: `n` times their middle one. */
  function LadderTotal(start: real, n: nat): real
  {
    (n as real) * (start + ((n as real) - 1.0) * (SIBLING_GAP / 2.0))
  }

  lemma LadderStep(start: real, n: nat)
    requires n > 0
    ensures LadderTotal(start, n - 1) + (start + ((n - 1) as real) * SIBLING_GAP) == LadderTotal(start, n)
  {
    var m := (n - 1) as real;
    assert n as real == m + 1.0;
    assert m * (start + (m - 1.0) * (SIBLING_GAP / 2.0)) + (start + m * SIBLING_GAP) ==
           (m + 1.0) * (start + m * (SIBLING_GAP / 2.0));
  }

  /**
   * A block's persons are centred on the mean desired x of the items that
   * formed it.
   */
  lemma BlockCentred(part: seq<Item>)
    requires part != []
    ensures Mean(Slots(BlockOf(part))) == SumDesired(part) / (|part| as real)
  {
    var b := BlockOf(part);
    LadderSum(LeftEdge(b), |part|);
    LadderMean(LeftEdge(b), |part|);
  }

  lemma LadderMean(start: real, n: nat)
    requires n > 0
    ensures LadderTotal(start, n) / (n as real) == start + ((n as real) - 1.0) * (SIBLING_GAP / 2.0)
  {
  }
}
