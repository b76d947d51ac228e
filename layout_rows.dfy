/**
 * Bucketing of the persons into rows, one row per level, and the order in
 * which the rows are laid out: by ascending level.
 */
module LayoutRows {
  import opened Family
  import opened Lists

  /** `levels[id] ?? 0`: a person the level traversal did not reach sits in row 0. */
  function LevelOf(levels: map<Id, int>, id: Id): int
  {
    if id in levels then levels[id] else 0
  }

  /** The ids of the persons at level `l`, in the order of `nodes`. */
  function Row(nodes: seq<FamilyNode>, levels: map<Id, int>, l: int): seq<Id>
  {
    if nodes == [] then []
    else
      var last := nodes[|nodes| - 1];
      Row(nodes[..|nodes| - 1], levels, l) + (if LevelOf(levels, last.id) == l then [last.id] else [])
  }

  /** A person is in row `l` exactly when it is one of `nodes` and its level is `l`. */
  lemma {:induction false} RowMembers(nodes: seq<FamilyNode>, levels: map<Id, int>, l: int, x: Id)
    ensures x in Row(nodes, levels, l) <==> x in NodeIds(nodes) && LevelOf(levels, x) == l
  {
    if nodes != [] {
      var init := nodes[..|nodes| - 1];
      RowMembers(init, levels, l, x);
      assert NodeIds(nodes) == NodeIds(init) + [nodes[|nodes| - 1].id];
    }
  }

  /** Every person lands in exactly one row: the one of its level. */
  lemma ExactlyOneRow(nodes: seq<FamilyNode>, levels: map<Id, int>, k: nat, l: int)
    requires k < |nodes|
    ensures nodes[k].id in Row(nodes, levels, l) <==> l == LevelOf(levels, nodes[k].id)
  {
    RowMembers(nodes, levels, l, nodes[k].id);
  }

  /**
   * `rows` holds, for each level some person of `nodes` sits at, the row of
   * that level, and `keys` lists those levels once each.
   */
  ghost predicate Grouped(nodes: seq<FamilyNode>, levels: map<Id, int>, rows: map<int, seq<Id>>, keys: seq<int>)
  {
    (forall l :: l in rows <==> Row(nodes, levels, l) != []) &&
    (forall l :: l in rows ==> rows[l] == Row(nodes, levels, l)) &&
    NoDup(keys) && (forall l :: l in keys <==> l in rows)
  }

  /**
   * One pass over the persons appends each to the row of its level (0 when
   * unlevelled), creating the row on first use: a row exists for each level some person sits at, and holds those persons in order;
   * `keys` lists the rows' levels once each, standing for `Object.keys(rows)`.
   */
  method GroupRows(nodes: seq<FamilyNode>, levels: map<Id, int>) returns (rows: map<int, seq<Id>>, keys: seq<int>)
    ensures forall l :: l in rows <==> Row(nodes, levels, l) != []
    ensures forall l :: l in rows ==> rows[l] == Row(nodes, levels, l)
    ensures NoDup(keys) && forall l :: l in keys <==> l in rows
  {
    rows, keys := map[], [];
    for i := 0 to |nodes|
      invariant Grouped(nodes[..i], levels, rows, keys)
    {
      var n := nodes[i];
      var l := LevelOf(levels, n.id);
      ghost var rows0, keys0 := rows, keys;
      if l in rows {
        rows := rows[l := rows[l] + [n.id]];
      } else {
        rows := rows[l := [n.id]];
        keys := keys + [l];
      }
      RowsStep(nodes, levels, i, rows0, rows);
      KeysStep(rows0, keys0, l, rows, keys);
    }
    TakeAll(nodes);
  }

  /** The rows after filing one more person are the rows of one more person. */
  lemma RowsStep(nodes: seq<FamilyNode>, levels: map<Id, int>, i: nat, rows: map<int, seq<Id>>, rows': map<int, seq<Id>>)
    requires i < |nodes|
    requires forall m :: m in rows <==> Row(nodes[..i], levels, m) != []
    requires forall m :: m in rows ==> rows[m] == Row(nodes[..i], levels, m)
    requires var l := LevelOf(levels, nodes[i].id);
             rows' == if l in rows then rows[l := rows[l] + [nodes[i].id]] else rows[l := [nodes[i].id]]
    ensures forall m :: m in rows' <==> Row(nodes[..i + 1], levels, m) != []
    ensures forall m :: m in rows' ==> rows'[m] == Row(nodes[..i + 1], levels, m)
  {
    forall m ensures (m in rows' <==> Row(nodes[..i + 1], levels, m) != []) &&
                     (m in rows' ==> rows'[m] == Row(nodes[..i + 1], levels, m))
    {
      RowSnoc(nodes, levels, i, m);
    }
  }

  /** A level seen for the first time is appended to the keys, once. */
  lemma KeysStep(rows: map<int, seq<Id>>, keys: seq<int>, l: int, rows': map<int, seq<Id>>, keys': seq<int>)
    requires NoDup(keys) && forall m :: m in keys <==> m in rows
    requires forall m :: m in rows' <==> m in rows || m == l
    requires keys' == if l in rows then keys else keys + [l]
    ensures NoDup(keys') && forall m :: m in keys' <==> m in rows'
  {
    if l !in rows {
      NoDupAppend(keys, [l]);
    }
  }

  /** Row `l` of one more person: the person is appended when its level is `l`. */
  lemma RowSnoc(nodes: seq<FamilyNode>, levels: map<Id, int>, i: nat, l: int)
    requires i < |nodes|
    ensures Row(nodes[..i + 1], levels, l) ==
            Row(nodes[..i], levels, l) + (if LevelOf(levels, nodes[i].id) == l then [nodes[i].id] else [])
  {
    assert nodes[..i + 1][..i] == nodes[..i];
  }

  /** The list is in ascending order. */
  predicate Ascending(s: seq<int>)
  {
    forall i, j :: 0 <= i < j < |s| ==> s[i] <= s[j]
  }

  /** Places `x` into a list sorted in ascending order, before the first larger element. */
  function InsertLevel(x: int, sorted: seq<int>): (r: seq<int>)
    requires Ascending(sorted)
    ensures Ascending(r)
    ensures multiset(r) == multiset(sorted) + multiset{x}
  {
    if sorted == [] || x <= sorted[0] then
      ConsAscending(x, sorted);
      [x] + sorted
    else
      var rest := InsertLevel(x, sorted[1..]);
      InsertLevelTail(x, sorted, rest);
      [sorted[0]] + rest
  }

  /** A value no larger than the head of an ascending list can go in front of it. */
  lemma ConsAscending(x: int, s: seq<int>)
    requires Ascending(s) && (s == [] || x <= s[0])
    ensures Ascending([x] + s)
  {
  }

  /** Inserting past the head: the head goes in front of the insertion into the tail. */
  lemma InsertLevelTail(x: int, sorted: seq<int>, rest: seq<int>)
    requires Ascending(sorted) && sorted != [] && sorted[0] < x
    requires Ascending(rest) && multiset(rest) == multiset(sorted[1..]) + multiset{x}
    ensures Ascending([sorted[0]] + rest)
    ensures multiset([sorted[0]] + rest) == multiset(sorted) + multiset{x}
  {
    assert sorted == [sorted[0]] + sorted[1..];
    assert multiset([x] + sorted[1..]) == multiset(sorted[1..]) + multiset{x};
    LowerBound(rest, [x] + sorted[1..], sorted[0]);
  }

  /** A rearrangement of a list whose elements are all at least `lo` has the same bound. */
  lemma LowerBound(a: seq<int>, b: seq<int>, lo: int)
    requires multiset(a) == multiset(b) && forall k :: 0 <= k < |b| ==> lo <= b[k]
    ensures forall k :: 0 <= k < |a| ==> lo <= a[k]
  {
    forall k | 0 <= k < |a| ensures lo <= a[k] {
      assert a[k] in multiset(b);
      var m :| 0 <= m < |b| && b[m] == a[k];
    }
  }

  /**
   * The numeric ascending sort of the row keys: the same levels, in ascending order.
   */
  function SortLevels(keys: seq<int>): (r: seq<int>)
    ensures Ascending(r)
    ensures multiset(r) == multiset(keys)
  {
    if keys == [] then []
    else
      assert keys == [keys[0]] + keys[1..];
      InsertLevel(keys[0], SortLevels(keys[1..]))
  }

  /** Keys that are distinct come out strictly increasing: each row is laid out once. */
  lemma SortedLevelsIncrease(keys: seq<int>)
    requires NoDup(keys)
    ensures forall i, j :: 0 <= i < j < |SortLevels(keys)| ==> SortLevels(keys)[i] < SortLevels(keys)[j]
    ensures forall l :: l in SortLevels(keys) <==> l in keys
  {
    var r := SortLevels(keys);
    forall l ensures l in r <==> l in keys {
      assert l in r <==> l in multiset(r);
      assert l in keys <==> l in multiset(keys);
    }
    forall i, j | 0 <= i < j < |r| ensures r[i] < r[j] {
      if r[i] == r[j] {
        PermNoDup(keys, r);
        assert false;
      }
    }
  }
}
