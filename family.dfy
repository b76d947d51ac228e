/**
 * The entities of the family graph: persons (nodes), relations (edges)
 * and the layout constants, with the node lookups that both engines use.
 */
module Family {
  import opened Wrappers

  type Id = string

  datatype Gender = Male | Female | Neutral

  /** A person on the canvas; `x` and `y` are its current position. */
  datatype FamilyNode = FamilyNode(id: Id, name: string, gender: Gender, x: real, y: real)

  datatype EdgeType = Lineage | Spouse

  /** A relation. A lineage edge runs from the parent (source) to the child (target). */
  datatype FamilyEdge = FamilyEdge(id: Id, source: Id, target: Id, kind: EdgeType)

  datatype Point = Point(x: real, y: real)

  const LEVEL_HEIGHT: real := 200.0
  const SIBLING_GAP: real := 200.0

  /** The first node carrying `id`, if any. */
  function FindNode(nodes: seq<FamilyNode>, id: Id): (r: Option<FamilyNode>)
    ensures r.None? <==> forall k :: 0 <= k < |nodes| ==> nodes[k].id != id
    ensures r.Some? ==> exists k :: 0 <= k < |nodes| && nodes[k] == r.value && r.value.id == id &&
                          forall j :: 0 <= j < k ==> nodes[j].id != id
  {
    if nodes == [] then None
    else if nodes[0].id == id then Some(nodes[0])
    else
      var r := FindNode(nodes[1..], id);
      assert r.Some? ==> exists k :: 0 <= k < |nodes[1..]| && nodes[1..][k] == r.value && nodes[k + 1] == r.value &&
                          forall j :: 0 <= j < k ==> nodes[1..][j].id != id;
      r
  }

  /** The gender of the first node carrying `id`; neutral when there is none. */
  function GenderOf(nodes: seq<FamilyNode>, id: Id): Gender
  {
    match FindNode(nodes, id)
    case Some(n) => n.gender
    case None => Neutral
  }

  /** The current x of the first node carrying `id`, or 0 when there is none. */
  function CurrentX(nodes: seq<FamilyNode>, id: Id): real
  {
    match FindNode(nodes, id)
    case Some(n) => n.x
    case None => 0.0
  }

  /** The ids of `nodes`, in order. */
  function NodeIds(nodes: seq<FamilyNode>): (r: seq<Id>)
    ensures |r| == |nodes| && forall k :: 0 <= k < |nodes| ==> r[k] == nodes[k].id
  {
    seq(|nodes|, k requires 0 <= k < |nodes| => nodes[k].id)
  }

  predicate NoDup<T(==)>(s: seq<T>)
  {
    forall i, j :: 0 <= i < j < |s| ==> s[i] != s[j]
  }
}
