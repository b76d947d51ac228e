/**
 * The stand-alone copy of the connection logic: a module-level list of
 * relations that `onConnect` replaces, and the scenario it is run on, in
 * which a mother is connected to a child that already has a father.
 */
module AutoConnect {
  import opened Family
  import Adjacency
  import opened Editing

  /** The module's mutable list of relations. */
  class Session {
    var edges: seq<FamilyEdge>

    constructor(initial: seq<FamilyEdge>)
      ensures edges == initial
    {
      edges := initial;
    }

    /**
     * `onConnect(src, tgt, type)`: the new edge carries the id "new-edge";
     * the list changes as `Connected` describes, so afterwards an edge of
     * that kind joins the pair.
     */
    method OnConnect(src: Id, tgt: Id, kind: EdgeType, autoId: nat -> Id)
      modifies this
      ensures Connected(old(edges), Connection(kind, src, tgt), "new-edge", edges)
      ensures EdgeExists(edges, kind, src, tgt)
    {
      var c := Connection(kind, src, tgt);
      var edges' := ConnectEdges(edges, c, "new-edge", autoId);
      ConnectedJoins(edges, c, "new-edge", edges');
      edges := edges';
    }
  }

  /**
   * The scenario: starting from a father-child lineage edge, connecting the
   * mother to the same child makes the mother and the father spouses.
   */
  method MotherFatherScenario(autoId: nat -> Id) returns (hasSpouseEdge: bool)
    ensures hasSpouseEdge
  {
    var session := new Session([FamilyEdge("e1", "father", "child", Lineage)]);
    assert Adjacency.IsLineage(session.edges, "father", "child") by {
      assert session.edges[0].source == "father";
    }
    session.OnConnect("mother", "child", Lineage, autoId);
    hasSpouseEdge := exists e :: e in session.edges && e.kind == Spouse &&
                                 ((e.source == "mother" && e.target == "father") ||
                                  (e.source == "father" && e.target == "mother"));
    assert AreSpouses(session.edges, "mother", "father");
  }
}
