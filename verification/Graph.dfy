/** The transaction graph of the partitioner: an undirected multigraph as adjacency lists (partition/graph.go). */
module Graphs {
  import opened EdgeCounts

  type AdjacencyLists = map<Vertex, seq<Vertex>>

  /** A Go map read: a vertex without a list reads as the empty list. */
  function ListOf(m: AdjacencyLists, v: Vertex): seq<Vertex> {
    if v in m then m[v] else []
  }

  lemma TwoAppends(m: AdjacencyLists, u: Vertex, v: Vertex, w: Vertex)
    ensures var one := m[u := ListOf(m, u) + [v]];
            var two := one[v := ListOf(one, v) + [u]];
            ListOf(two, w) == ListOf(m, w) + (if u == w then [v] else []) + (if v == w then [u] else [])
  {
  }

  class Graph {
    var vertexSet: set<Vertex>
    var edgeSet: AdjacencyLists
    var hasEdgeSet: bool        // false while the map of lists has not been made
    ghost var edges: seq<Edge>  // every edge added, in order

    /** Each edge sits in both adjacency lists, in the order it was added. */
    ghost predicate Valid()
      reads this
    {
      && Covers(vertexSet, edges)
      && edgeSet.Keys <= vertexSet && (!hasEdgeSet ==> edgeSet == map[] && edges == [])
      && forall v :: Adjacent(v) == Neighbours(edges, v)
    }

    function Adjacent(v: Vertex): seq<Vertex>
      reads this
    {
      ListOf(edgeSet, v)
    }

    constructor ()
      ensures Valid() && vertexSet == {} && edgeSet == map[] && edges == []
    {
      vertexSet, edgeSet, hasEdgeSet, edges := {}, map[], false, [];
    }

    method AddVertex(v: Vertex)
      requires Valid()
      modifies this
      ensures Valid() && vertexSet == old(vertexSet) + {v}
      ensures edgeSet == old(edgeSet) && edges == old(edges) && hasEdgeSet == old(hasEdgeSet)
    {
      vertexSet := vertexSet + {v};
    }

    method AddEdge(u: Vertex, v: Vertex)
      requires Valid()
      modifies this
      ensures Valid() && vertexSet == old(vertexSet) + {u, v}
      ensures edges == old(edges) + [(u, v)] && hasEdgeSet
    {
      if u !in vertexSet { AddVertex(u); }
      if v !in vertexSet { AddVertex(v); }
      AppendBoth(u, v);
    }

    /** The two appends of an undirected edge. */
    method AppendBoth(u: Vertex, v: Vertex)
      requires Valid() && u in vertexSet && v in vertexSet
      modifies this
      ensures Valid() && vertexSet == old(vertexSet)
      ensures edges == old(edges) + [(u, v)] && hasEdgeSet
    {
      hasEdgeSet := true;
      ghost var was := edgeSet;
      edgeSet := edgeSet[u := ListOf(edgeSet, u) + [v]];
      edgeSet := edgeSet[v := ListOf(edgeSet, v) + [u]];
      edges := edges + [(u, v)];
      forall w ensures Adjacent(w) == Neighbours(edges, w) {
        NeighboursSnoc(old(edges), (u, v), w);
        TwoAppends(was, u, v, w);
        assert old(Adjacent(w)) == Neighbours(old(edges), w);
      }
    }

    /**
     * The copy gets its own vertex set. It gets its own lists only if the source has made its map of lists; until
     * then it keeps the lists it had. So it ends with the source's lists if and only if the source has made the map
     * or the copy had no neighbours listed.
     */
    method CopyGraph(src: Graph)
      requires src != this && src.Valid()
      modifies this
      ensures vertexSet == src.vertexSet
      ensures src.hasEdgeSet ==> Valid() && edges == src.edges
      ensures !src.hasEdgeSet ==> edgeSet == old(edgeSet) && edges == old(edges) && hasEdgeSet == old(hasEdgeSet)
      ensures (forall v :: Adjacent(v) == src.Adjacent(v)) <==> src.hasEdgeSet || forall v :: old(Adjacent(v)) == []
    {
      vertexSet := src.vertexSet;
      if !src.hasEdgeSet {
        assert forall v :: src.Adjacent(v) == [] && Adjacent(v) == old(Adjacent(v));
        return;
      }
      edgeSet, hasEdgeSet := map[], true;
      var todo := src.vertexSet;
      while todo != {}
        invariant todo <= src.vertexSet == vertexSet && hasEdgeSet
        invariant edgeSet.Keys == vertexSet - todo
        invariant forall v :: v in edgeSet ==> edgeSet[v] == src.Adjacent(v)
        decreases todo
      {
        var v :| v in todo;
        edgeSet := edgeSet[v := src.Adjacent(v)];
        todo := todo - {v};
      }
      edges := src.edges;
      forall v ensures Adjacent(v) == src.Adjacent(v) {
        if v !in vertexSet { assert v !in src.edgeSet; }
      }
    }
  }
}
