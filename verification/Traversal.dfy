/** Stepping from an entity to its neighbours in the projection. */
module Traversal {
  import opened Text
  import opened Model
  import P = Projection
  import RelationOrder

  /** One traversable step from an entity, in either direction. */
  datatype Edge = Edge(rel: RelationId, other: EntityId, outgoing: bool)

  /** A self-loop counts as outgoing. */
  function EdgeFrom(r: RelationId, id: EntityId): Edge {
    if r.dst == id && r.src != id then Edge(r, r.src, false) else Edge(r, r.dst, true)
  }

  /** A relation of the graph incident to id, of a type or of any. */
  predicate Incident(g: P.Graph, id: EntityId, relType: Str, r: RelationId) {
    r in g.relations && Touches(r, id) && (relType == [] || r.typ == relType)
  }

  predicate Wanted(g: P.Graph, relType: Str, r: RelationId) {
    r in g.relations && (relType == [] || r.typ == relType)
  }

  /** Add the wanted relations of one adjacency set to those already seen. */
  method AddWanted(g: P.Graph, relType: Str, from: set<RelationId>, seen0: set<RelationId>)
    returns (seen: set<RelationId>)
    ensures forall r :: r in seen <==> r in seen0 || (r in from && Wanted(g, relType, r))
  {
    seen := seen0;
    var todo := from;
    while todo != {}
      invariant todo <= from
      invariant forall r :: r in seen <==> r in seen0 || (r in from && r !in todo && Wanted(g, relType, r))
      decreases |todo|
    {
      hide Wanted;
      var r :| r in todo;
      todo := todo - {r};
      if r !in seen && Wanted(g, relType, r) {
        seen := seen + {r};
      }
    }
  }

  lemma AdjacencyFinds(g: P.Graph, id: EntityId, r: RelationId)
    requires P.AdjacencyExact(g.relations, g.outs, g.ins)
    ensures r in P.Member(g.outs, id) || r in P.Member(g.ins, id) <==> r in g.relations && Touches(r, id)
  {
  }

  /** The incident relations through the adjacency indexes, in id order, each once. */
  method RelationsTouching(g: P.Graph, id: EntityId, relType: Str) returns (rels: seq<RelationId>)
    requires P.AdjacencyExact(g.relations, g.outs, g.ins)
    ensures forall r :: r in rels <==> Incident(g, id, relType, r)
    ensures forall i, j :: 0 <= i < j < |rels| ==> rels[i] != rels[j]
    ensures RelationOrder.InOrder(rels)
  {
    hide P.AdjacencyExact, RelationOrder.InOrder, RelationOrder.Sorted;
    var seen := AddWanted(g, relType, P.Member(g.outs, id), {});
    seen := AddWanted(g, relType, P.Member(g.ins, id), seen);
    forall r
      ensures r in seen <==> Incident(g, id, relType, r)
    {
      AdjacencyFinds(g, id, r);
    }
    RelationOrder.SortedInOrder(seen);
    rels := RelationOrder.Sorted(seen);
  }

  /** The edge leads from id along an incident relation to a live entity. */
  predicate Leads(g: P.Graph, id: EntityId, relType: Str, e: Edge) {
    Incident(g, id, relType, e.rel) && e == EdgeFrom(e.rel, id) && e.other in P.Live(g)
  }

  /** The edges follow the order of their relations. */
  ghost predicate EdgesInOrder(edges: seq<Edge>) {
    forall i, j :: 0 <= i < j < |edges| ==> RelationOrder.Before(edges[i].rel, edges[j].rel)
  }

  lemma NextEdge(edges: seq<Edge>, rels: seq<RelationId>, k: nat, e: Edge)
    requires EdgesInOrder(edges) && RelationOrder.InOrder(rels) && k < |rels| && e.rel == rels[k]
    requires forall x :: x in edges ==> x.rel in rels[..k]
    ensures EdgesInOrder(edges + [e])
  {
    hide RelationOrder.Before;
    var n := edges + [e];
    forall i | 0 <= i < |edges|
      ensures RelationOrder.Before(n[i].rel, e.rel)
    {
      assert edges[i] in edges;
      var j :| 0 <= j < k && rels[..k][j] == edges[i].rel;
      assert rels[j] == edges[i].rel;
    }
  }

  /** The traversable edges of an entity: those to live neighbours, each once, in order. */
  method EdgesOf(g: P.Graph, id: EntityId, relType: Str) returns (edges: seq<Edge>)
    requires P.AdjacencyExact(g.relations, g.outs, g.ins)
    ensures forall e :: e in edges <==> Leads(g, id, relType, e)
    ensures forall i, j :: 0 <= i < j < |edges| ==> edges[i] != edges[j]
    ensures EdgesInOrder(edges)
  {
    hide RelationOrder.InOrder, EdgesInOrder;
    NoEdges();
    var rels := RelationsTouching(g, id, relType);
    edges := [];
    for i := 0 to |rels|
      invariant forall e :: e in edges <==> Leads(g, id, relType, e) && e.rel in rels[..i]
      invariant forall k, j :: 0 <= k < j < |edges| ==> edges[k] != edges[j]
      invariant EdgesInOrder(edges)
    {
      var e := EdgeFrom(rels[i], id);
      assert rels[..i + 1] == rels[..i] + [rels[i]];
      assert rels[i] in rels && rels[i] !in rels[..i];
      assert forall x :: x in edges ==> x.rel in rels[..i];
      if e.other in g.entities && e.other !in g.deleted {
        NextEdge(edges, rels, i, e);
        edges := edges + [e];
      }
    }
    assert rels[..|rels|] == rels;
  }

  lemma NoEdges()
    ensures EdgesInOrder([])
  {
  }
}
