/** What the partitioner's counters mean, stated on the list of undirected edges added so far. */
module EdgeCounts {
  import opened Shards
  import opened Sums

  datatype Vertex = Vertex(addr: Address)
  type Edge = (Vertex, Vertex)
  type Partition = map<Vertex, nat>

  /** A Go map read: vertices without an entry read as shard 0. */
  function Label(pm: Partition, v: Vertex): nat {
    if v in pm then pm[v] else 0
  }

  /** The adjacency list of x after the edges es were added in order, each to both of its ends. */
  function Neighbours(es: seq<Edge>, x: Vertex): seq<Vertex> {
    if es == [] then []
    else
      var e := es[|es|-1];
      Neighbours(es[..|es|-1], x) + (if e.0 == x then [e.1] else []) + (if e.1 == x then [e.0] else [])
  }

  lemma NeighboursSnoc(es: seq<Edge>, e: Edge, x: Vertex)
    ensures Neighbours(es + [e], x)
         == Neighbours(es, x) + (if e.0 == x then [e.1] else []) + (if e.1 == x then [e.0] else [])
  {
    assert (es + [e])[..|es|] == es;
  }

  predicate Touches(e: Edge, pm: Partition, k: nat) {
    Label(pm, e.0) == k || Label(pm, e.1) == k
  }

  predicate Crosses(e: Edge, pm: Partition) {
    Label(pm, e.0) != Label(pm, e.1)
  }

  /** Number of edges with an end in shard k. */
  function Touching(es: seq<Edge>, pm: Partition, k: nat): nat {
    if es == [] then 0
    else Touching(es[..|es|-1], pm, k) + (if Touches(es[|es|-1], pm, k) then 1 else 0)
  }

  /** Number of edges with ends in two shards. */
  function Crossing(es: seq<Edge>, pm: Partition): nat {
    if es == [] then 0
    else Crossing(es[..|es|-1], pm) + (if Crosses(es[|es|-1], pm) then 1 else 0)
  }

  /** Number of edges with an end in shard k that also leave shard k. */
  function Leaving(es: seq<Edge>, pm: Partition, k: nat): nat {
    if es == [] then 0
    else Leaving(es[..|es|-1], pm, k)
         + (if Touches(es[|es|-1], pm, k) && Crosses(es[|es|-1], pm) then 1 else 0)
  }

  /** The positions in the list of the edges that satisfy p. */
  function Positions(es: seq<Edge>, p: Edge -> bool): set<nat> {
    set i: nat | i < |es| && p(es[i])
  }

  lemma PositionsGrow(es: seq<Edge>, p: Edge -> bool)
    requires es != []
    ensures |Positions(es, p)| == |Positions(es[..|es|-1], p)| + if p(es[|es|-1]) then 1 else 0
  {
    var n := |es| - 1;
    assert Positions(es, p) == Positions(es[..n], p) + if p(es[n]) then {n} else {};
  }

  function EndIn(pm: Partition, k: nat): Edge -> bool {
    (e: Edge) => Label(pm, e.0) == k || Label(pm, e.1) == k
  }

  function OneEndIn(pm: Partition, k: nat): Edge -> bool {
    (e: Edge) => (Label(pm, e.0) == k) != (Label(pm, e.1) == k)
  }

  function EndsApart(pm: Partition): Edge -> bool {
    (e: Edge) => Label(pm, e.0) != Label(pm, e.1)
  }

  /** The three counts as numbers of positions: edges with an end in the shard, with just one, with ends apart. */
  lemma {:induction false} CountsArePositions(es: seq<Edge>, pm: Partition, k: nat)
    ensures Touching(es, pm, k) == |Positions(es, EndIn(pm, k))|
    ensures Leaving(es, pm, k) == |Positions(es, OneEndIn(pm, k))|
    ensures Crossing(es, pm) == |Positions(es, EndsApart(pm))|
  {
    if es != [] {
      CountsArePositions(es[..|es|-1], pm, k);
      PositionsGrow(es, EndIn(pm, k));
      PositionsGrow(es, OneEndIn(pm, k));
      PositionsGrow(es, EndsApart(pm));
    }
  }

  /** Number of listed vertices in shard k. */
  function LabelCount(vs: seq<Vertex>, pm: Partition, k: nat): nat {
    if vs == [] then 0
    else LabelCount(vs[..|vs|-1], pm, k) + (if Label(pm, vs[|vs|-1]) == k then 1 else 0)
  }

  lemma LabelCountSnoc(vs: seq<Vertex>, x: Vertex, pm: Partition, k: nat)
    ensures LabelCount(vs + [x], pm, k) == LabelCount(vs, pm, k) + (if Label(pm, x) == k then 1 else 0)
  {
    assert (vs + [x])[..|vs|] == vs;
  }

  /** Number of self-loops at v. */
  function SelfLoops(es: seq<Edge>, v: Vertex): nat {
    if es == [] then 0
    else SelfLoops(es[..|es|-1], v) + (if es[|es|-1] == (v, v) then 1 else 0)
  }

  // ---------- the handshake: what a full recount over adjacency lists counts ----------

  /** What vertex v adds to the incoming count of shard k: neighbours in k, if v is elsewhere. */
  ghost function Incoming(es: seq<Edge>, pm: Partition, k: nat): Vertex -> int {
    v => if Label(pm, v) == k then 0 else LabelCount(Neighbours(es, v), pm, k)
  }

  /** What vertex v adds to the inner count of shard k: neighbours in k, if v is in k too. */
  ghost function Inner(es: seq<Edge>, pm: Partition, k: nat): Vertex -> int {
    v => if Label(pm, v) == k then LabelCount(Neighbours(es, v), pm, k) else 0
  }

  ghost predicate Covers(s: set<Vertex>, es: seq<Edge>) {
    forall i :: 0 <= i < |es| ==> es[i].0 in s && es[i].1 in s
  }

  /** How one more edge changes the neighbours of v that lie in shard k. */
  function EdgeShare(e: Edge, v: Vertex, pm: Partition, k: nat): nat {
    (if e.0 == v && Label(pm, e.1) == k then 1 else 0) + (if e.1 == v && Label(pm, e.0) == k then 1 else 0)
  }

  lemma NeighbourCountStep(es: seq<Edge>, v: Vertex, pm: Partition, k: nat)
    requires es != []
    ensures LabelCount(Neighbours(es, v), pm, k)
         == LabelCount(Neighbours(es[..|es|-1], v), pm, k) + EdgeShare(es[|es|-1], v, pm, k)
  {
    var e := es[|es|-1];
    var n0 := Neighbours(es[..|es|-1], v);
    var n1 := n0 + (if e.0 == v then [e.1] else []);
    if e.0 == v { LabelCountSnoc(n0, e.1, pm, k); }
    if e.1 == v { LabelCountSnoc(n1, e.0, pm, k); }
    assert Neighbours(es, v) == n1 + (if e.1 == v then [e.0] else []);
    if e.0 != v { assert n1 == n0; }
    if e.1 != v { assert n1 + [] == n1; }
  }

  /**
   * Handshake. Summed over all vertices, incoming neighbours of shard k are the edges leaving k, and inner
   * neighbours are twice the edges inside k, because every edge sits in both adjacency lists.
   */
  lemma {:induction false} Handshake(s: set<Vertex>, es: seq<Edge>, pm: Partition, k: nat)
    requires Covers(s, es)
    ensures SumSet(s, Incoming(es, pm, k)) == Leaving(es, pm, k)
    ensures SumSet(s, Inner(es, pm, k)) == 2 * (Touching(es, pm, k) - Leaving(es, pm, k))
  {
    if es == [] {
      SumSetZero(s, Incoming(es, pm, k));
      SumSetZero(s, Inner(es, pm, k));
    } else {
      var init, e := es[..|es|-1], es[|es|-1];
      Handshake(s, init, pm, k);
      IncomingStep(s, es, pm, k);
      InnerStep(s, es, pm, k);
      assert Touching(es, pm, k) == Touching(init, pm, k) + if Touches(e, pm, k) then 1 else 0;
      assert Leaving(es, pm, k) == Leaving(init, pm, k) + if Touches(e, pm, k) && Crosses(e, pm) then 1 else 0;
    }
  }

  lemma IncomingStep(s: set<Vertex>, es: seq<Edge>, pm: Partition, k: nat)
    requires es != [] && Covers(s, es)
    ensures SumSet(s, Incoming(es, pm, k)) == SumSet(s, Incoming(es[..|es|-1], pm, k))
              + (if Touches(es[|es|-1], pm, k) && Crosses(es[|es|-1], pm) then 1 else 0)
  {
    var init, e := es[..|es|-1], es[|es|-1];
    var add := (v: Vertex) => if Label(pm, v) == k then 0 else EdgeShare(e, v, pm, k) as int;
    forall v ensures Incoming(es, pm, k)(v) == Incoming(init, pm, k)(v) + add(v) {
      NeighbourCountStep(es, v, pm, k);
    }
    SumSetPointwise(s, Incoming(init, pm, k), add, Incoming(es, pm, k));
    SumSetTwoPoints(s, add, e.0, e.1);
  }

  lemma InnerStep(s: set<Vertex>, es: seq<Edge>, pm: Partition, k: nat)
    requires es != [] && Covers(s, es)
    ensures SumSet(s, Inner(es, pm, k)) == SumSet(s, Inner(es[..|es|-1], pm, k))
              + (if Touches(es[|es|-1], pm, k) && !Crosses(es[|es|-1], pm) then 2 else 0)
  {
    var init, e := es[..|es|-1], es[|es|-1];
    var add := (v: Vertex) => if Label(pm, v) == k then EdgeShare(e, v, pm, k) as int else 0;
    forall v ensures Inner(es, pm, k)(v) == Inner(init, pm, k)(v) + add(v) {
      NeighbourCountStep(es, v, pm, k);
    }
    SumSetPointwise(s, Inner(init, pm, k), add, Inner(es, pm, k));
    SumSetTwoPoints(s, add, e.0, e.1);
  }

  /** The per-shard counts for shards 0..n-1. */
  function LeavingAll(es: seq<Edge>, pm: Partition, n: nat): (r: seq<int>)
    ensures |r| == n
    ensures forall k :: 0 <= k < n ==> r[k] == Leaving(es, pm, k)
  {
    seq(n, k requires k >= 0 => Leaving(es, pm, k) as int)
  }

  function TouchingAll(es: seq<Edge>, pm: Partition, n: nat): (r: seq<int>)
    ensures |r| == n
    ensures forall k :: 0 <= k < n ==> r[k] == Touching(es, pm, k)
  {
    seq(n, k requires k >= 0 => Touching(es, pm, k) as int)
  }

  ghost predicate LabelsBelow(es: seq<Edge>, pm: Partition, n: nat) {
    forall i :: 0 <= i < |es| ==> Label(pm, es[i].0) < n && Label(pm, es[i].1) < n
  }

  /** One cross edge leaves exactly two shards, so halving the sum over the shards loses nothing. */
  lemma {:induction false} LeavingIsTwiceCrossing(es: seq<Edge>, pm: Partition, n: nat)
    requires LabelsBelow(es, pm, n)
    ensures SumSeq(LeavingAll(es, pm, n)) == 2 * Crossing(es, pm)
  {
    if es == [] {
      SumSeqZero(LeavingAll(es, pm, n));
    } else {
      var init, e := es[..|es|-1], es[|es|-1];
      LeavingIsTwiceCrossing(init, pm, n);
      LeavingStep(es, pm, n);
    }
  }

  lemma LeavingStep(es: seq<Edge>, pm: Partition, n: nat)
    requires es != [] && Label(pm, es[|es|-1].0) < n && Label(pm, es[|es|-1].1) < n
    ensures SumSeq(LeavingAll(es, pm, n)) == SumSeq(LeavingAll(es[..|es|-1], pm, n))
              + if Crosses(es[|es|-1], pm) then 2 else 0
  {
    var all, e := LeavingAll(es[..|es|-1], pm, n), es[|es|-1];
    if Crosses(e, pm) {
      var a, b := Label(pm, e.0), Label(pm, e.1);
      var one := all[a := all[a] + 1];
      SumSeqUpdate(all, a, all[a] + 1);
      SumSeqUpdate(one, b, one[b] + 1);
      assert LeavingAll(es, pm, n) == one[b := one[b] + 1];
    } else {
      assert LeavingAll(es, pm, n) == all;
    }
  }

  // ---------- one vertex moves ----------

  /**
   * The true effect of moving v from shard a to shard b on every counter, in terms of the labels of v's
   * neighbours after the move. A self-loop sits twice in v's list, both times labelled b.
   */
  lemma {:induction false} MoveEffect(es: seq<Edge>, pm: Partition, v: Vertex, a: nat, b: nat, k: nat)
    requires a != b && pm == pm[v := b]
    ensures var adj := Neighbours(es, v);
            var loops := SelfLoops(es, v);
            && Touching(es, pm, k) == Touching(es, pm[v := a], k)
                 + (if k == b then |adj| - LabelCount(adj, pm, b) + loops else 0)
                 - (if k == a then |adj| - LabelCount(adj, pm, a) - loops else 0)
            && Crossing(es, pm) == Crossing(es, pm[v := a])
                 - LabelCount(adj, pm, b) + LabelCount(adj, pm, a) + 2 * loops
  {
    if es != [] {
      var init, e := es[..|es|-1], es[|es|-1];
      MoveEffect(init, pm, v, a, b, k);
      NeighbourCountStep(es, v, pm, a);
      NeighbourCountStep(es, v, pm, b);
      NeighbourLengthStep(es, v);
      EdgeMoveEffect(e, pm, v, a, b, k);
    }
  }

  lemma NeighbourLengthStep(es: seq<Edge>, v: Vertex)
    requires es != []
    ensures |Neighbours(es, v)| == |Neighbours(es[..|es|-1], v)|
              + (if es[|es|-1].0 == v then 1 else 0) + (if es[|es|-1].1 == v then 1 else 0)
  {
  }

  /** MoveEffect for a single edge. */
  lemma EdgeMoveEffect(e: Edge, pm: Partition, v: Vertex, a: nat, b: nat, k: nat)
    requires a != b && pm == pm[v := b]
    ensures var degree := (if e.0 == v then 1 else 0) + (if e.1 == v then 1 else 0);
            var loop := if e == (v, v) then 1 else 0;
            var was := pm[v := a];
            && (if Touches(e, pm, k) then 1 else 0) == (if Touches(e, was, k) then 1 else 0)
                 + (if k == b then degree - EdgeShare(e, v, pm, b) + loop else 0)
                 - (if k == a then degree - EdgeShare(e, v, pm, a) - loop else 0)
            && (if Crosses(e, pm) then 1 else 0) == (if Crosses(e, was) then 1 else 0)
                 - EdgeShare(e, v, pm, b) + EdgeShare(e, v, pm, a) + 2 * loop
  {
  }
}
