/** The constrained label propagation partitioner (partition/partition_CLPA.go). */
module Clpa {
  import opened Shards
  import opened Sums
  import opened EdgeCounts
  import opened Graphs

  const MAX_INT := 0x7FFF_FFFF_FFFF_FFFF
  const UPDATE_THRESHOLD := 50

  /** The smallest element, starting the search at MAX_INT as the program does. */
  function MinEdges(s: seq<int>): int {
    if s == [] then MAX_INT
    else
      var m := MinEdges(s[..|s|-1]);
      if m > s[|s|-1] then s[|s|-1] else m
  }

  lemma {:induction false} MinEdgesIsMinimum(s: seq<int>)
    ensures forall k :: 0 <= k < |s| ==> MinEdges(s) <= s[k]
    ensures MinEdges(s) == 0x7FFF_FFFF_FFFF_FFFF || MinEdges(s) in s
  {
    if s != [] { MinEdgesIsMinimum(s[..|s|-1]); }
  }

  /** Vertices of shard k. */
  function Members(vs: set<Vertex>, pm: Partition, k: nat): set<Vertex> {
    set v | v in vs && Label(pm, v) == k
  }

  function MemberCounts(vs: set<Vertex>, pm: Partition, n: nat): (r: seq<int>)
    ensures |r| == n
    ensures forall k :: 0 <= k < n ==> r[k] == |Members(vs, pm, k)|
  {
    seq(n, k requires k >= 0 => |Members(vs, pm, k)| as int)
  }

  /** Whatever the partition, the member counts add up to the number of vertices. */
  lemma {:induction false} MemberCountsTotal(vs: set<Vertex>, pm: Partition, n: nat)
    requires forall v :: v in vs ==> Label(pm, v) < n
    ensures SumSeq(MemberCounts(vs, pm, n)) == |vs|
    decreases |vs|
  {
    if vs == {} {
      forall k | 0 <= k < n ensures Members(vs, pm, k) == {} {}
      SumSeqZero(MemberCounts(vs, pm, n));
    } else {
      var v :| v in vs;
      MemberCountsTotal(vs - {v}, pm, n);
      var rest, l := MemberCounts(vs - {v}, pm, n), Label(pm, v);
      SumSeqUpdate(rest, l, rest[l] + 1);
      MemberCountsAdd(vs - {v}, pm, v, pm, n);
      assert vs - {v} + {v} == vs;
    }
  }

  /** A new vertex raises the count of its own shard by one. */
  lemma MemberCountsAdd(vs: set<Vertex>, pm: Partition, v: Vertex, after: Partition, n: nat)
    requires v !in vs && Label(after, v) < n
    requires forall u :: u in vs ==> Label(after, u) == Label(pm, u)
    ensures MemberCounts(vs + {v}, after, n)
         == MemberCounts(vs, pm, n)[Label(after, v) := MemberCounts(vs, pm, n)[Label(after, v)] + 1]
  {
    var l := Label(after, v);
    forall k | 0 <= k < n ensures |Members(vs + {v}, after, k)| == |Members(vs, pm, k)| + if k == l then 1 else 0 {
      MembersAdd(vs, pm, v, after, k);
    }
  }

  lemma MembersAdd(vs: set<Vertex>, pm: Partition, v: Vertex, after: Partition, k: nat)
    requires v !in vs
    requires forall u :: u in vs ==> Label(after, u) == Label(pm, u)
    ensures Members(vs + {v}, after, k) == Members(vs, pm, k) + if k == Label(after, v) then {v} else {}
  {
  }

  /** Moving v changes two member counts by one. */
  lemma MoveMember(vs: set<Vertex>, pm: Partition, v: Vertex, b: nat, k: nat)
    requires v in vs && Label(pm, v) != b
    ensures |Members(vs, pm[v := b], k)| == |Members(vs, pm, k)|
              + (if k == b then 1 else 0) - (if k == Label(pm, v) then 1 else 0)
  {
    MoveMembers(vs, pm, v, b, k);
  }

  lemma MoveMembers(vs: set<Vertex>, pm: Partition, v: Vertex, b: nat, k: nat)
    requires v in vs && Label(pm, v) != b
    ensures k == b ==> Members(vs, pm[v := b], k) == Members(vs, pm, k) + {v}
    ensures k == Label(pm, v) ==> Members(vs, pm[v := b], k) == Members(vs, pm, k) - {v}
    ensures k != b && k != Label(pm, v) ==> Members(vs, pm[v := b], k) == Members(vs, pm, k)
  {
  }

  // ---------- scores, over exact reals with the infinities of the program's division by zero ----------

  datatype Score = NegInf | Finite(x: real) | PosInf | NaN

  function Divide(num: real, den: real): Score {
    if den != 0.0 then Finite(num / den)
    else if num > 0.0 then PosInf
    else if num < 0.0 then NegInf
    else NaN
  }

  /** c * (1 - s) for c >= 0. */
  function ScaledComplement(c: real, s: Score): Score {
    match s
    case Finite(x) => Finite(c * (1.0 - x))
    case PosInf => if c == 0.0 then NaN else NegInf
    case NegInf => if c == 0.0 then NaN else PosInf
    case NaN => NaN
  }

  /** The program's < on floats: false as soon as one side is not a number. */
  predicate Less(a: Score, b: Score) {
    match a
    case NaN => false
    case PosInf => false
    case NegInf => b.Finite? || b.PosInf?
    case Finite(x) => b.PosInf? || (b.Finite? && x < b.x)
  }

  lemma LessThroughMaximum(max: Score, a: Score, s: Score)
    requires !Less(max, a) && Less(max, s)
    ensures (a == NaN || Less(a, s)) && !Less(s, a)
  {
  }

  lemma LessTransitive(a: Score, b: Score, c: Score)
    requires (a == b || Less(a, b)) && Less(b, c)
    ensures Less(a, c)
  {
  }

  const MIN_SCORE := Finite(-9999.0)

  /** The share of a vertex's edges that go to a shard, discounted by that shard's load. */
  function ScoreValue(edgesToShard: nat, degree: nat, penalty: real, load: int, minimum: int): Score {
    if degree == 0 then NaN
    else ScaledComplement(edgesToShard as real / degree as real, Divide(penalty * load as real, minimum as real))
  }

  /** Everything the score of a vertex depends on: its neighbours, the partition and the counters. */
  datatype View = View(adj: seq<Vertex>, pm: Partition, counts: seq<int>, minimum: int, penalty: real) {
    /** The score of shard k for this vertex. */
    function ScoreOf(k: nat): Score
      requires k < |counts|
    {
      ScoreValue(LabelCount(adj, pm, k), |adj|, penalty, counts[k], minimum)
    }

    ghost predicate InRange() {
      forall u :: u in adj ==> Label(pm, u) < |counts|
    }

    function ScoreAt(j: nat): Score
      requires j < |adj| && InRange()
    {
      ScoreOf(Label(pm, adj[j]))
    }

    /** Neighbour j's shard has score s, above MIN_SCORE and above every earlier neighbour's shard. */
    ghost predicate Leads(j: nat, s: Score)
      requires j < |adj| && InRange()
    {
      && ScoreAt(j) == s && Less(MIN_SCORE, s)
      && (forall i :: 0 <= i < j ==> ScoreAt(i) == NaN || Less(ScoreAt(i), s))
    }

    /** Neighbour j's shard is the first with the best score. */
    ghost predicate FirstBest(j: nat)
      requires j < |adj| && InRange()
    {
      Leads(j, ScoreAt(j)) && forall i :: 0 <= i < |adj| ==> !Less(ScoreAt(j), ScoreAt(i))
    }

    /** The target shard: the first neighbouring shard of best score, or now if none scores above MIN_SCORE. */
    ghost predicate IsBestShard(now: nat, best: nat)
      requires InRange()
    {
      || (best == now && forall i :: 0 <= i < |adj| ==> !Less(MIN_SCORE, ScoreAt(i)))
      || exists j :: 0 <= j < |adj| && FirstBest(j) && best == Label(pm, adj[j])
    }
  }

  /** A score above all known ones leads. */
  lemma NewLeader(view: View, scores: map<nat, Score>, j: nat, max: Score, s: Score)
    requires view.InRange() && j < |view.adj| && s == view.ScoreAt(j) && Less(max, s)
    requires max == MIN_SCORE || Less(MIN_SCORE, max)
    requires forall i :: 0 <= i < j ==> Label(view.pm, view.adj[i]) in scores
    requires forall k :: k in scores ==> k < |view.counts| && scores[k] == view.ScoreOf(k) && !Less(max, scores[k])
    ensures view.Leads(j, s) && forall k :: k in scores ==> !Less(s, scores[k])
  {
    LessTransitive(MIN_SCORE, max, s);
    forall k | k in scores ensures (scores[k] == NaN || Less(scores[k], s)) && !Less(s, scores[k]) {
      LessThroughMaximum(max, scores[k], s);
    }
    forall i | 0 <= i < j ensures view.ScoreAt(i) == NaN || Less(view.ScoreAt(i), s) {
      assert view.ScoreAt(i) == scores[Label(view.pm, view.adj[i])];
    }
  }

  // ---------- the partitioner ----------

  class CLPAState {
    const netGraph: Graph
    var partitionMap: Partition
    var edges2Shard: array<int>
    const vertexsNumInShard: array<int>
    const weightPenalty: real
    var minEdges2Shard: int
    const maxIterations: int
    var crossShardEdgeNum: int
    const shardNum: nat

    ghost predicate Valid()
      reads this, netGraph, vertexsNumInShard
    {
      && netGraph.Valid()
      && shardNum > 0
      && vertexsNumInShard.Length == shardNum
      && edges2Shard != vertexsNumInShard
      && (forall v :: v in partitionMap ==> partitionMap[v] < shardNum)
      && netGraph.vertexSet <= partitionMap.Keys
    }

    /** The counters are what a full recount under the partition pm gives. */
    ghost predicate EdgeCountsMatch(pm: Partition)
      reads this, netGraph, edges2Shard
    {
      && edges2Shard[..] == TouchingAll(netGraph.edges, pm, shardNum)
      && crossShardEdgeNum == Crossing(netGraph.edges, pm)
      && minEdges2Shard == MinEdges(edges2Shard[..])
    }

    ghost predicate VertexCountsExact()
      reads this, netGraph, vertexsNumInShard
    {
      vertexsNumInShard[..] == MemberCounts(netGraph.vertexSet, partitionMap, vertexsNumInShard.Length)
    }

    constructor (wp: real, mIter: int, sn: nat)
      requires sn > 0
      ensures Valid() && VertexCountsExact()
      ensures fresh(netGraph) && fresh(vertexsNumInShard) && fresh(edges2Shard)
      ensures weightPenalty == wp && maxIterations == mIter && shardNum == sn
      ensures partitionMap == map[] && netGraph.vertexSet == {} && netGraph.edges == []
    {
      netGraph := new Graph();
      weightPenalty, maxIterations, shardNum := wp, mIter, sn;
      vertexsNumInShard := new int[sn](_ => 0);
      edges2Shard := new int[0];
      partitionMap, minEdges2Shard, crossShardEdgeNum := map[], 0, 0;
      new;
      forall k | 0 <= k < sn ensures Members({}, partitionMap, k) == {} {}
      assert vertexsNumInShard[..] == MemberCounts(netGraph.vertexSet, partitionMap, sn);
    }

    /** Fixes the shard of an account before any edge mentions it. */
    method Preset(v: Vertex, k: nat)
      requires Valid() && k < shardNum && v !in netGraph.vertexSet
      modifies this`partitionMap
      ensures Valid() && partitionMap == old(partitionMap)[v := k]
      ensures old(VertexCountsExact()) ==> VertexCountsExact()
    {
      ghost var pm := partitionMap;
      partitionMap := partitionMap[v := k];
      forall j: nat ensures Members(netGraph.vertexSet, partitionMap, j) == Members(netGraph.vertexSet, pm, j) {}
    }

    /**
     * A vertex keeps the shard it already has, otherwise it gets its address's default. The vertex count
     * stays exact if and only if the vertex is new to the graph, since the count is raised either way.
     */
    method AddVertex(v: Vertex)
      requires Valid()
      modifies this`partitionMap, netGraph, vertexsNumInShard
      ensures Valid() && netGraph.vertexSet == old(netGraph.vertexSet) + {v} && netGraph.edges == old(netGraph.edges)
      ensures partitionMap == old(partitionMap) + map[v := if v in old(partitionMap) then old(partitionMap[v])
                                                           else Addr2Shard(v.addr, shardNum)]
      ensures old(VertexCountsExact()) ==> (VertexCountsExact() <==> v !in old(netGraph.vertexSet))
    {
      ghost var vs, pm, counts := netGraph.vertexSet, partitionMap, vertexsNumInShard[..];
      netGraph.AddVertex(v);
      if v !in partitionMap {
        partitionMap := partitionMap[v := Addr2Shard(v.addr, shardNum)];
      } else {
        partitionMap := partitionMap[v := partitionMap[v]];
      }
      var l := partitionMap[v];
      vertexsNumInShard[l] := vertexsNumInShard[l] + 1;
      assert vertexsNumInShard[..] == counts[l := counts[l] + 1];
      if v in vs {
        assert netGraph.vertexSet == vs && partitionMap == pm;
      } else {
        MemberCountsAdd(vs, pm, v, partitionMap, shardNum);
      }
    }

    method AddMissingVertex(v: Vertex)
      requires Valid()
      modifies this`partitionMap, netGraph, vertexsNumInShard
      ensures Valid() && netGraph.vertexSet == old(netGraph.vertexSet) + {v} && netGraph.edges == old(netGraph.edges)
      ensures partitionMap == old(partitionMap) + map[v := if v in old(partitionMap) then old(partitionMap[v])
                                                           else Addr2Shard(v.addr, shardNum)]
      ensures old(VertexCountsExact()) ==> VertexCountsExact()
    {
      if v !in netGraph.vertexSet {
        AddVertex(v);
      } else {
        assert netGraph.vertexSet == netGraph.vertexSet + {v} && v in partitionMap;
      }
    }

    method AddEdge(u: Vertex, v: Vertex)
      requires Valid()
      modifies this`partitionMap, netGraph, vertexsNumInShard
      ensures Valid() && netGraph.vertexSet == old(netGraph.vertexSet) + {u, v}
      ensures netGraph.edges == old(netGraph.edges) + [(u, v)]
      ensures old(partitionMap.Keys) <= partitionMap.Keys == old(partitionMap.Keys) + {u, v}
      ensures forall w :: w in partitionMap ==> partitionMap[w] == if w in old(partitionMap) then old(partitionMap)[w]
                                                                   else Addr2Shard(w.addr, shardNum)
      ensures old(VertexCountsExact()) ==> VertexCountsExact()
    {
      AddMissingVertex(u);
      AddMissingVertex(v);
      assert netGraph.vertexSet + {u, v} == netGraph.vertexSet;
      netGraph.AddEdge(u, v);
    }

    /** The slow form: a recount from the adjacency lists gives every counter its meaning on the edge list. */
    method ComputeEdges2Shard()
      requires Valid()
      modifies this`edges2Shard, this`minEdges2Shard, this`crossShardEdgeNum
      ensures Valid() && fresh(edges2Shard) && edges2Shard.Length == shardNum
      ensures EdgeCountsMatch(partitionMap)
    {
      edges2Shard := new int[shardNum](_ => 0);
      var interEdge := new int[shardNum](_ => 0);
      CountAllLists(interEdge);
      SumAndHalve();
      EdgesHaveLists();
      LeavingIsTwiceCrossing(netGraph.edges, partitionMap, shardNum);
      AddHalves(interEdge);
      FindMinimum();
    }

    /** The outer loop of the recount, over the adjacency lists in any order. */
    method CountAllLists(interEdge: array<int>)
      requires Valid() && edges2Shard.Length == interEdge.Length == shardNum
      requires edges2Shard != interEdge && interEdge != vertexsNumInShard
      requires forall k :: 0 <= k < shardNum ==> edges2Shard[k] == interEdge[k] == 0
      modifies edges2Shard, interEdge
      ensures edges2Shard[..] == LeavingAll(netGraph.edges, partitionMap, shardNum)
      ensures forall k :: 0 <= k < shardNum ==>
                interEdge[k]
                   == 2 * (Touching(netGraph.edges, partitionMap, k) - Leaving(netGraph.edges, partitionMap, k))
    {
      ghost var es, pm, done := netGraph.edges, partitionMap, {};
      var todo := netGraph.edgeSet.Keys;
      while todo != {}
        invariant todo !! done && todo + done == netGraph.edgeSet.Keys
        invariant forall k :: 0 <= k < shardNum ==> edges2Shard[k] == SumSet(done, Incoming(es, pm, k))
        invariant forall k :: 0 <= k < shardNum ==> interEdge[k] == SumSet(done, Inner(es, pm, k))
        decreases todo
      {
        var v :| v in todo;
        AdjacentInMap(v);
        CountList(v, netGraph.edgeSet[v], interEdge);
        forall k | 0 <= k < shardNum
          ensures SumSet(done + {v}, Incoming(es, pm, k)) == SumSet(done, Incoming(es, pm, k)) + Incoming(es, pm, k)(v)
          ensures SumSet(done + {v}, Inner(es, pm, k)) == SumSet(done, Inner(es, pm, k)) + Inner(es, pm, k)(v)
        {
          SumSetAdd(done, Incoming(es, pm, k), v);
          SumSetAdd(done, Inner(es, pm, k), v);
        }
        todo, done := todo - {v}, done + {v};
      }
      EdgesHaveLists();
      forall k | 0 <= k < shardNum
        ensures edges2Shard[k] == Leaving(es, pm, k)
        ensures interEdge[k] == 2 * (Touching(es, pm, k) - Leaving(es, pm, k))
      {
        Handshake(done, es, pm, k);
      }
    }

    lemma AdjacentInMap(v: Vertex)
      requires Valid()
      ensures netGraph.Adjacent(v) == Neighbours(netGraph.edges, v)
      ensures forall u :: u in netGraph.Adjacent(v) ==> u in netGraph.vertexSet && u in partitionMap
    {
      NeighboursAreEnds(netGraph.edges, v, netGraph.vertexSet);
    }

    /** Every end of an edge has an adjacency list. */
    lemma EdgesHaveLists()
      requires Valid()
      ensures Covers(netGraph.edgeSet.Keys, netGraph.edges)
      ensures LabelsBelow(netGraph.edges, partitionMap, shardNum)
    {
      var es := netGraph.edges;
      forall i | 0 <= i < |es| ensures es[i].0 in netGraph.edgeSet && es[i].1 in netGraph.edgeSet {
        EndsHaveNeighbours(es, i);
        assert netGraph.Adjacent(es[i].0) != [] && netGraph.Adjacent(es[i].1) != [];
      }
    }

    /** What v's list adds to the incoming and to the inner count of shard k. */
    static function From(v: Vertex, lst: seq<Vertex>, pm: Partition, k: nat): nat {
      if Label(pm, v) == k then 0 else LabelCount(lst, pm, k)
    }

    static function Within(v: Vertex, lst: seq<Vertex>, pm: Partition, k: nat): nat {
      if Label(pm, v) == k then LabelCount(lst, pm, k) else 0
    }

    /** The inner loop of the recount: one adjacency list. */
    method CountList(v: Vertex, lst: seq<Vertex>, interEdge: array<int>)
      requires Valid() && edges2Shard.Length == interEdge.Length == shardNum
      requires edges2Shard != interEdge && interEdge != vertexsNumInShard
      requires forall u :: u in lst ==> u in partitionMap
      modifies edges2Shard, interEdge
      ensures forall k :: 0 <= k < shardNum ==> edges2Shard[k] == old(edges2Shard[k]) + From(v, lst, partitionMap, k)
      ensures forall k :: 0 <= k < shardNum ==> interEdge[k] == old(interEdge[k]) + Within(v, lst, partitionMap, k)
    {
      var vShard := Label(partitionMap, v);
      for j := 0 to |lst|
        invariant forall k :: 0 <= k < shardNum ==>
                    edges2Shard[k] == old(edges2Shard[k]) + From(v, lst[..j], partitionMap, k)
        invariant forall k :: 0 <= k < shardNum ==>
                    interEdge[k] == old(interEdge[k]) + Within(v, lst[..j], partitionMap, k)
      {
        assert lst[..j+1] == lst[..j] + [lst[j]];
        forall k: nat { LabelCountSnoc(lst[..j], lst[j], partitionMap, k); }
        var uShard := Label(partitionMap, lst[j]);
        if vShard != uShard {
          edges2Shard[uShard] := edges2Shard[uShard] + 1;
        } else {
          interEdge[uShard] := interEdge[uShard] + 1;
        }
      }
      assert lst[..|lst|] == lst;
    }

    method SumAndHalve()
      requires Valid()
      modifies this`crossShardEdgeNum
      ensures crossShardEdgeNum == SumSeq(edges2Shard[..]) / 2
    {
      crossShardEdgeNum := 0;
      for idx := 0 to edges2Shard.Length
        invariant crossShardEdgeNum == SumSeq(edges2Shard[..idx])
      {
        SumSeqSnoc(edges2Shard[..idx], edges2Shard[idx]);
        assert edges2Shard[..idx+1] == edges2Shard[..idx] + [edges2Shard[idx]];
        crossShardEdgeNum := crossShardEdgeNum + edges2Shard[idx];
      }
      assert edges2Shard[..edges2Shard.Length] == edges2Shard[..];
      crossShardEdgeNum := crossShardEdgeNum / 2;
    }

    method AddHalves(interEdge: array<int>)
      requires edges2Shard.Length == interEdge.Length == shardNum && edges2Shard != interEdge
      requires edges2Shard[..] == LeavingAll(netGraph.edges, partitionMap, shardNum)
      requires forall k :: 0 <= k < shardNum ==>
                 interEdge[k]
                   == 2 * (Touching(netGraph.edges, partitionMap, k) - Leaving(netGraph.edges, partitionMap, k))
      modifies edges2Shard
      ensures edges2Shard[..] == TouchingAll(netGraph.edges, partitionMap, shardNum)
    {
      ghost var es, pm := netGraph.edges, partitionMap;
      for idx := 0 to shardNum
        invariant forall k :: 0 <= k < idx ==> edges2Shard[k] == Touching(es, pm, k)
        invariant forall k :: idx <= k < shardNum ==> edges2Shard[k] == Leaving(es, pm, k)
      {
        edges2Shard[idx] := edges2Shard[idx] + interEdge[idx] / 2;
      }
    }

    method FindMinimum()
      modifies this`minEdges2Shard
      ensures minEdges2Shard == MinEdges(edges2Shard[..])
    {
      minEdges2Shard := MAX_INT;
      for idx := 0 to edges2Shard.Length
        invariant minEdges2Shard == MinEdges(edges2Shard[..idx])
      {
        assert edges2Shard[..idx+1][..idx] == edges2Shard[..idx];
        if minEdges2Shard > edges2Shard[idx] {
          minEdges2Shard := edges2Shard[idx];
        }
      }
      assert edges2Shard[..edges2Shard.Length] == edges2Shard[..];
    }

    /**
     * The fast form. Started from counters that match the partition before v left shard was, it ends with the
     * recount's counters if and only if v has no self-loop; each self-loop leaves the cross count short by two
     * and both shards' counts short by one. Called without an actual move it is exact if and only if v has
     * no neighbour in its own shard.
     */
    method ChangeShardRecompute(v: Vertex, was: nat)
      requires Valid() && v in netGraph.vertexSet && was < shardNum && edges2Shard.Length == shardNum
      modifies this`minEdges2Shard, this`crossShardEdgeNum, edges2Shard
      ensures minEdges2Shard == MinEdges(edges2Shard[..])
      ensures old(EdgeCountsMatch(partitionMap[v := was])) && was != partitionMap[v] ==>
                var loops := SelfLoops(netGraph.edges, v);
                && crossShardEdgeNum == Crossing(netGraph.edges, partitionMap) - 2 * loops
                && forall k :: 0 <= k < shardNum ==> edges2Shard[k] == Touching(netGraph.edges, partitionMap, k)
                                                       - if k == was || k == partitionMap[v] then loops else 0
      ensures old(EdgeCountsMatch(partitionMap[v := was])) ==>
                (EdgeCountsMatch(partitionMap) <==>
                  if was != partitionMap[v] then (v, v) !in netGraph.edges
                  else forall u :: u in netGraph.Adjacent(v) ==> Label(partitionMap, u) != was)
    {
      ghost var es, pm := netGraph.edges, partitionMap;
      var adj := netGraph.Adjacent(v);
      AdjacentInMap(v);
      ApplyMove(v, was, adj);
      FindMinimum();
      if old(EdgeCountsMatch(partitionMap[v := was])) {
        FastFormExactIff(es, pm, v, was, shardNum);
        CountsMatchIff(es, pm, v, was, edges2Shard[..]);
        if was != pm[v] {
          NetChangeOfMove(es, pm, v, was, shardNum);
        }
      }
    }

    /** The loop of the fast form over v's neighbours, as a net change of each counter. */
    method ApplyMove(v: Vertex, was: nat, adj: seq<Vertex>)
      requires Valid() && v in partitionMap && was < shardNum && edges2Shard.Length == shardNum
      requires forall u :: u in adj ==> u in partitionMap
      modifies this`crossShardEdgeNum, edges2Shard
      ensures var b := partitionMap[v];
              forall k :: 0 <= k < shardNum ==>
                edges2Shard[k] == old(edges2Shard[k]) + NetChange(adj, partitionMap, was, b, k)
      ensures crossShardEdgeNum == old(crossShardEdgeNum) + NetCross(adj, partitionMap, was, partitionMap[v])
    {
      var b := partitionMap[v];
      for j := 0 to |adj|
        invariant forall k :: 0 <= k < shardNum ==>
                    edges2Shard[k] == old(edges2Shard[k]) + NetChange(adj[..j], partitionMap, was, b, k)
        invariant crossShardEdgeNum == old(crossShardEdgeNum) + NetCross(adj[..j], partitionMap, was, b)
      {
        assert adj[..j+1] == adj[..j] + [adj[j]];
        NetChangeStep(adj[..j], adj[j], partitionMap, was, b);
        var neighbourShard := Label(partitionMap, adj[j]);
        if neighbourShard != b && neighbourShard != was {
          edges2Shard[b] := edges2Shard[b] + 1;
          edges2Shard[was] := edges2Shard[was] - 1;
        } else if neighbourShard == b {
          edges2Shard[was] := edges2Shard[was] - 1;
          crossShardEdgeNum := crossShardEdgeNum - 1;
        } else {
          edges2Shard[b] := edges2Shard[b] + 1;
          crossShardEdgeNum := crossShardEdgeNum + 1;
        }
      }
      assert adj[..|adj|] == adj;
    }

    // ---------- one run of the algorithm ----------

    ghost predicate Running()
      reads this, netGraph, vertexsNumInShard, edges2Shard
    {
      Valid() && edges2Shard.Length == shardNum
    }

    function ViewOf(v: Vertex): View
      reads this, netGraph, edges2Shard
    {
      View(netGraph.Adjacent(v), partitionMap, edges2Shard[..], minEdges2Shard, weightPenalty)
    }

    lemma ViewInRange(v: Vertex)
      requires Running()
      ensures ViewOf(v).InRange()
    {
      AdjacentInMap(v);
    }

    method GetShardScore(v: Vertex, uShard: nat) returns (score: Score)
      requires Running() && uShard < shardNum
      ensures score == ViewOf(v).ScoreOf(uShard)
    {
      var adj := netGraph.Adjacent(v);
      var edgesToShard := 0;
      for j := 0 to |adj|
        invariant edgesToShard == LabelCount(adj[..j], partitionMap, uShard)
      {
        assert adj[..j+1] == adj[..j] + [adj[j]];
        LabelCountSnoc(adj[..j], adj[j], partitionMap, uShard);
        if Label(partitionMap, adj[j]) == uShard {
          edgesToShard := edgesToShard + 1;
        }
      }
      assert adj[..|adj|] == adj;
      score := ScoreValue(edgesToShard, |adj|, weightPenalty, edges2Shard[uShard], minEdges2Shard);
    }

    /** The scan over v's neighbours; each neighbouring shard is scored once. */
    method BestShard(v: Vertex) returns (best: nat)
      requires Running() && v in netGraph.vertexSet
      ensures ViewOf(v).InRange() && ViewOf(v).IsBestShard(partitionMap[v], best)
      ensures best < shardNum
    {
      ViewInRange(v);
      ghost var view := ViewOf(v);
      var adj := netGraph.Adjacent(v);
      var scores: map<nat, Score> := map[];
      var maxScore := MIN_SCORE;
      best := partitionMap[v];
      ghost var at := -1;
      for j := 0 to |adj|
        invariant -1 <= at < j && best < shardNum
        invariant forall k :: k in scores ==> k < shardNum && scores[k] == view.ScoreOf(k) && !Less(maxScore, scores[k])
        invariant forall i :: 0 <= i < j ==> Label(partitionMap, adj[i]) in scores
        invariant if at < 0 then best == partitionMap[v] && maxScore == MIN_SCORE
                  else best == Label(partitionMap, adj[at]) && view.Leads(at, maxScore)
      {
        var uShard := Label(partitionMap, adj[j]);
        if uShard !in scores {
          assert adj[j] in view.adj;
          var s := GetShardScore(v, uShard);
          if Less(maxScore, s) {
            NewLeader(view, scores, j, maxScore, s);
            maxScore, best, at := s, uShard, j;
          }
          scores := scores[uShard := s];
        }
      }
      assert forall i :: 0 <= i < |adj| ==> view.ScoreAt(i) == scores[Label(partitionMap, adj[i])];
    }

    /** What every move of a run keeps. */
    twostate predicate Kept()
      reads this, netGraph, vertexsNumInShard, edges2Shard
    {
      && (forall k :: 0 <= k < vertexsNumInShard.Length ==> old(vertexsNumInShard[k]) > 0 ==> vertexsNumInShard[k] > 0)
      && (NoSelfLoops(netGraph.edges) && old(EdgeCountsMatch(partitionMap)) ==> EdgeCountsMatch(partitionMap))
    }

    /** Where v should go, and whether it goes; the stop records what that depended on. */
    method Choose(v: Vertex, moves: map<Address, nat>, ghost at: Tally)
      returns (best: nat, moved: bool, ghost stop: Stop)
      requires Running() && VertexCountsExact() && v in netGraph.vertexSet && at.pm == partitionMap && at.moves == moves
      ensures best < shardNum && stop == Stop(v, ViewOf(v), at, best, moved)
      ensures stop.Proper(netGraph.vertexSet, netGraph.edges)
      ensures moved ==> best != partitionMap[v] && VertexCount(partitionMap[v]) > 1
    {
      AdjacentInMap(v);
      best := BestShard(v);
      var vNowShard := partitionMap[v];
      assert vertexsNumInShard[..][vNowShard] == |Members(netGraph.vertexSet, partitionMap, vNowShard)|;
      moved := MoveCount(moves, v.addr) < UPDATE_THRESHOLD && vNowShard != best && vertexsNumInShard[vNowShard] > 1;
      stop := Stop(v, ViewOf(v), at, best, moved);
    }

    /** One step of a run: v moves to its best shard unless it has moved too often or would empty its shard. */
    method Visit(v: Vertex, res0: map<Address, nat>, moves0: map<Address, nat>)
      returns (res: map<Address, nat>, moves: map<Address, nat>, ghost stop: Stop)
      requires Running() && VertexCountsExact() && v in netGraph.vertexSet
      modifies this`partitionMap, this`minEdges2Shard, this`crossShardEdgeNum, edges2Shard, vertexsNumInShard
      ensures Running() && VertexCountsExact() && Kept()
      ensures stop.v == v && stop.view == old(ViewOf(v)) && stop.Proper(netGraph.vertexSet, netGraph.edges)
      ensures stop.at == Tally(old(partitionMap), res0, moves0) && stop.After() == Tally(partitionMap, res, moves)
      ensures old(EdgeCountsMatch(partitionMap)) ==> ExactView(netGraph.edges, stop.view)
    {
      var best, moved;
      best, moved, stop := Choose(v, moves0, Tally(partitionMap, res0, moves0));
      res, moves := res0, moves0;
      if !moved {
        return;
      }
      res := res[v.addr := best];
      moves := moves[v.addr := MoveCount(moves, v.addr) + 1];
      MoveTo(v, best);
    }

    function VertexCount(k: nat): int
      reads this, vertexsNumInShard
    {
      if k < vertexsNumInShard.Length then vertexsNumInShard[k] else 0
    }

    /** The updates made when v moves. */
    method MoveTo(v: Vertex, best: nat)
      requires Running() && VertexCountsExact() && v in netGraph.vertexSet
      requires best < shardNum && best != partitionMap[v] && vertexsNumInShard[partitionMap[v]] > 1
      modifies this`partitionMap, this`minEdges2Shard, this`crossShardEdgeNum, edges2Shard, vertexsNumInShard
      ensures Running() && VertexCountsExact() && Kept()
      ensures partitionMap == old(partitionMap)[v := best]
    {
      var vNowShard := partitionMap[v];
      ghost var pm, counts := partitionMap, vertexsNumInShard[..];
      partitionMap := partitionMap[v := best];
      vertexsNumInShard[vNowShard] := vertexsNumInShard[vNowShard] - 1;
      vertexsNumInShard[best] := vertexsNumInShard[best] + 1;
      forall k | 0 <= k < shardNum ensures vertexsNumInShard[k] == |Members(netGraph.vertexSet, partitionMap, k)| {
        assert counts[k] == |Members(netGraph.vertexSet, pm, k)|;
        MoveMember(netGraph.vertexSet, pm, v, best, k);
      }
      assert VertexCountsExact();
      assert partitionMap[v := vNowShard] == pm;
      ChangeShardRecompute(v, vNowShard);
    }

    /** One iteration: every vertex of the graph is visited exactly once, in any order, as the stops record. */
    method Sweep(res0: map<Address, nat>, moves0: map<Address, nat>)
      returns (res: map<Address, nat>, moves: map<Address, nat>, ghost stops: seq<Stop>)
      requires Running() && VertexCountsExact()
      modifies this`partitionMap, this`minEdges2Shard, this`crossShardEdgeNum, edges2Shard, vertexsNumInShard
      ensures Running() && VertexCountsExact() && Kept()
      ensures StopsAtAll(netGraph.vertexSet, stops)
      ensures Trail(netGraph.vertexSet, netGraph.edges, stops, Tally(old(partitionMap), res0, moves0),
                    Tally(partitionMap, res, moves))
      ensures NoSelfLoops(netGraph.edges) && old(EdgeCountsMatch(partitionMap)) ==> ExactViews(netGraph.edges, stops)
    {
      res, moves, stops := res0, moves0, [];
      ghost var vs, es, t0 := netGraph.vertexSet, netGraph.edges, Tally(partitionMap, res0, moves0);
      ghost var exact := NoSelfLoops(es) && EdgeCountsMatch(partitionMap);
      var todo := netGraph.vertexSet;
      while todo != {}
        invariant todo <= vs == netGraph.vertexSet && es == netGraph.edges
        invariant Running() && VertexCountsExact() && Kept()
        invariant SweepSoFar(vs, es, stops, todo, t0, Tally(partitionMap, res, moves))
        invariant exact ==> NoSelfLoops(es) && ExactViews(es, stops) && EdgeCountsMatch(partitionMap)
        decreases todo
      {
        var v :| v in todo;
        assert todo - {v} + {v} == todo;
        todo := todo - {v};
        res, moves, stops := VisitNext(v, res, moves, vs, es, stops, todo, t0, exact);
      }
    }

    /** A visit added to the record of its sweep. */
    method VisitNext(
      v: Vertex, res0: map<Address, nat>, moves0: map<Address, nat>, ghost vs: set<Vertex>, ghost es: seq<Edge>,
      ghost stops0: seq<Stop>, ghost todo: set<Vertex>, ghost t0: Tally, ghost exact: bool)
      returns (res: map<Address, nat>, moves: map<Address, nat>, ghost stops: seq<Stop>)
      requires Running() && VertexCountsExact() && vs == netGraph.vertexSet && es == netGraph.edges
      requires todo + {v} <= vs && v !in todo
      requires SweepSoFar(vs, es, stops0, todo + {v}, t0, Tally(partitionMap, res0, moves0))
      requires exact ==> NoSelfLoops(es) && ExactViews(es, stops0) && EdgeCountsMatch(partitionMap)
      modifies this`partitionMap, this`minEdges2Shard, this`crossShardEdgeNum, edges2Shard, vertexsNumInShard
      ensures Running() && VertexCountsExact() && Kept()
      ensures SweepSoFar(vs, es, stops, todo, t0, Tally(partitionMap, res, moves))
      ensures exact ==> ExactViews(es, stops) && EdgeCountsMatch(partitionMap)
    {
      ghost var stop;
      res, moves, stop := Visit(v, res0, moves0);
      StopAdded(vs, es, stops0, stop, todo, t0);
      stops := stops0 + [stop];
    }

    /**
     * A whole run. It makes maxIterations sweeps, each visiting every vertex once. The returned map overlaid on the
     * starting partition is the final one; every counter ends at its meaning; no shard is emptied; no vertex moves
     * more than min(50, maxIterations) times; and on a graph without self-loops every choice was made on true
     * counters and the counter kept incrementally through all sweeps is the returned recount.
     */
    method Partition()
      returns (res: map<Address, nat>, cross: int,
               ghost moves: map<Address, nat>, ghost incremental: int, ghost run: seq<SweepRecord>)
      requires Valid() && VertexCountsExact()
      modifies this`partitionMap, this`edges2Shard, this`minEdges2Shard, this`crossShardEdgeNum, vertexsNumInShard
      ensures Valid() && VertexCountsExact() && EdgeCountsMatch(partitionMap)
      ensures cross == Crossing(netGraph.edges, partitionMap)
      ensures NoSelfLoops(netGraph.edges) ==> incremental == cross && ExactRun(netGraph.edges, run)
      ensures |run| == if maxIterations < 0 then 0 else maxIterations
      ensures RunOf(netGraph.vertexSet, netGraph.edges, run,
                    Tally(old(partitionMap), map[], map[]), Tally(partitionMap, res, moves))
      ensures partitionMap.Keys == old(partitionMap.Keys)
      ensures forall v :: v in partitionMap ==> partitionMap[v] == Overlaid(old(partitionMap), res, v)
      ensures forall a :: a in res ==> Vertex(a) in netGraph.vertexSet
      ensures forall k :: 0 <= k < shardNum ==> old(vertexsNumInShard[k]) > 0 ==> vertexsNumInShard[k] > 0
      ensures res.Keys == moves.Keys
      ensures forall a :: a in moves ==> moves[a] <= 50 && moves[a] <= maxIterations
    {
      ComputeEdges2Shard();
      ghost var t0 := Tally(partitionMap, map[], map[]);
      res, cross, moves, incremental, run := Iterate();
      RunProgress(netGraph.vertexSet, netGraph.edges, run, t0, Tally(partitionMap, res, moves));
    }

    /** A sweep added to the record of its run. */
    method SweepNext(res0: map<Address, nat>, moves0: map<Address, nat>, ghost run0: seq<SweepRecord>, ghost t0: Tally)
      returns (res: map<Address, nat>, moves: map<Address, nat>, ghost run: seq<SweepRecord>)
      requires Running() && VertexCountsExact()
      requires RunOf(netGraph.vertexSet, netGraph.edges, run0, t0, Tally(partitionMap, res0, moves0))
      requires NoSelfLoops(netGraph.edges) ==> EdgeCountsMatch(partitionMap) && ExactRun(netGraph.edges, run0)
      modifies this`partitionMap, this`minEdges2Shard, this`crossShardEdgeNum, edges2Shard, vertexsNumInShard
      ensures Running() && VertexCountsExact() && Kept() && |run| == |run0| + 1
      ensures RunOf(netGraph.vertexSet, netGraph.edges, run, t0, Tally(partitionMap, res, moves))
      ensures NoSelfLoops(netGraph.edges) ==> EdgeCountsMatch(partitionMap) && ExactRun(netGraph.edges, run)
    {
      ghost var t := Tally(partitionMap, res0, moves0);
      ghost var stops;
      res, moves, stops := Sweep(res0, moves0);
      SweepAdded(netGraph.vertexSet, netGraph.edges, run0, stops, t0, t, Tally(partitionMap, res, moves));
      run := run0 + [SweepRecord(stops, t)];
    }

    method Iterate()
      returns (res: map<Address, nat>, cross: int,
               ghost moves: map<Address, nat>, ghost incremental: int, ghost run: seq<SweepRecord>)
      requires Running() && VertexCountsExact() && EdgeCountsMatch(partitionMap)
      modifies this`partitionMap, this`edges2Shard, this`minEdges2Shard, this`crossShardEdgeNum
      modifies vertexsNumInShard, edges2Shard
      ensures Valid() && VertexCountsExact() && EdgeCountsMatch(partitionMap)
      ensures cross == Crossing(netGraph.edges, partitionMap)
      ensures NoSelfLoops(netGraph.edges) ==> incremental == cross && ExactRun(netGraph.edges, run)
      ensures |run| == if maxIterations < 0 then 0 else maxIterations
      ensures RunOf(netGraph.vertexSet, netGraph.edges, run,
                    Tally(old(partitionMap), map[], map[]), Tally(partitionMap, res, moves))
      ensures forall k :: 0 <= k < shardNum ==> old(vertexsNumInShard[k]) > 0 ==> vertexsNumInShard[k] > 0
    {
      res := map[];
      var updates: map<Address, nat> := map[];
      run := [];
      ghost var t0 := Tally(partitionMap, res, updates);
      var iter := 0;
      while iter < maxIterations
        invariant 0 <= iter == |run| && (iter == 0 || iter <= maxIterations) && edges2Shard == old(edges2Shard)
        invariant Running() && VertexCountsExact() && Kept()
        invariant RunOf(netGraph.vertexSet, netGraph.edges, run, t0, Tally(partitionMap, res, updates))
        invariant NoSelfLoops(netGraph.edges) ==> EdgeCountsMatch(partitionMap) && ExactRun(netGraph.edges, run)
      {
        res, updates, run := SweepNext(res, updates, run, t0);
        iter := iter + 1;
      }
      moves, incremental := updates, crossShardEdgeNum;
      ComputeEdges2Shard();
      cross := crossShardEdgeNum;
    }
  }

  ghost predicate NoSelfLoops(es: seq<Edge>) {
    forall i :: 0 <= i < |es| ==> es[i].0 != es[i].1
  }

  /** The partition start after the moves recorded in res. */
  function Overlaid(start: Partition, res: map<Address, nat>, v: Vertex): nat {
    if v.addr in res then res[v.addr] else Label(start, v)
  }

  // ---------- the record of a run ----------

  /** What a run has built up: the partition, the map to be returned and how often each vertex has moved. */
  datatype Tally = Tally(pm: Partition, res: map<Address, nat>, moves: map<Address, nat>)

  /** One visit: what the vertex's choice depended on and what was done. */
  datatype Stop = Stop(v: Vertex, view: View, at: Tally, best: nat, moved: bool) {
    function After(): Tally {
      if moved then Tally(at.pm[v := best], at.res[v.addr := best], at.moves[v.addr := MoveCount(at.moves, v.addr) + 1])
      else at
    }

    /** The best shard was found, and taken exactly if allowed and needed. */
    ghost predicate Proper(vs: set<Vertex>, es: seq<Edge>) {
      && v in vs && v in at.pm && view.pm == at.pm && view.adj == Neighbours(es, v)
      && view.InRange() && view.IsBestShard(at.pm[v], best)
      && (moved <==> MoveCount(at.moves, v.addr) < UPDATE_THRESHOLD && best != at.pm[v]
                     && |Members(vs, at.pm, at.pm[v])| > 1)
    }
  }

  /** The visits lead from one tally to another, each starting where the one before ended. */
  ghost predicate Trail(vs: set<Vertex>, es: seq<Edge>, stops: seq<Stop>, t0: Tally, t: Tally) {
    if stops == [] then t == t0
    else
      var s := stops[|stops|-1];
      s.Proper(vs, es) && t == s.After() && Trail(vs, es, stops[..|stops|-1], t0, s.at)
  }

  function VisitedBy(stops: seq<Stop>): set<Vertex> {
    if stops == [] then {} else VisitedBy(stops[..|stops|-1]) + {stops[|stops|-1].v}
  }

  /** Every vertex is visited, and as there are no more visits than vertices, none is visited twice. */
  predicate StopsAtAll(vs: set<Vertex>, stops: seq<Stop>) {
    VisitedBy(stops) == vs && |stops| == |vs|
  }

  /** Every choice was made on counters that are true of the partition at that moment. */
  ghost predicate ExactViews(es: seq<Edge>, stops: seq<Stop>) {
    forall i :: 0 <= i < |stops| ==> ExactView(es, stops[i].view)
  }

  ghost predicate ExactView(es: seq<Edge>, view: View) {
    view.counts == TouchingAll(es, view.pm, |view.counts|) && view.minimum == MinEdges(view.counts)
  }

  /** A sweep of which the vertices todo are still to be visited. */
  ghost predicate SweepSoFar(vs: set<Vertex>, es: seq<Edge>, stops: seq<Stop>, todo: set<Vertex>, t0: Tally, t: Tally) {
    VisitedBy(stops) == vs - todo && |stops| + |todo| == |vs| && Trail(vs, es, stops, t0, t)
  }

  lemma StopAdded(vs: set<Vertex>, es: seq<Edge>, stops: seq<Stop>, s: Stop, todo: set<Vertex>, t0: Tally)
    requires todo + {s.v} <= vs && s.v !in todo && s.Proper(vs, es)
    requires SweepSoFar(vs, es, stops, todo + {s.v}, t0, s.at)
    ensures SweepSoFar(vs, es, stops + [s], todo, t0, s.After())
  {
    assert (stops + [s])[..|stops|] == stops;
    assert vs - (todo + {s.v}) + {s.v} == vs - todo;
  }

  /** A sweep and the tally it started from. */
  datatype SweepRecord = SweepRecord(stops: seq<Stop>, at: Tally)

  /** Sweeps over all vertices, each starting where the one before ended. */
  ghost predicate RunOf(vs: set<Vertex>, es: seq<Edge>, run: seq<SweepRecord>, t0: Tally, t: Tally) {
    if run == [] then t == t0
    else
      var last := run[|run|-1];
      && StopsAtAll(vs, last.stops) && Trail(vs, es, last.stops, last.at, t)
      && RunOf(vs, es, run[..|run|-1], t0, last.at)
  }

  ghost predicate ExactRun(es: seq<Edge>, run: seq<SweepRecord>) {
    forall i :: 0 <= i < |run| ==> ExactViews(es, run[i].stops)
  }

  lemma SweepAdded(
    vs: set<Vertex>, es: seq<Edge>, run: seq<SweepRecord>, stops: seq<Stop>, t0: Tally, at: Tally, t: Tally)
    requires RunOf(vs, es, run, t0, at) && StopsAtAll(vs, stops) && Trail(vs, es, stops, at, t)
    ensures RunOf(vs, es, run + [SweepRecord(stops, at)], t0, t)
  {
    assert (run + [SweepRecord(stops, at)])[..|run|] == run;
  }

  // ---------- what the record implies ----------

  /** The partition is the starting one overlaid with the map to be returned, which holds exactly the moved vertices. */
  ghost predicate Progress(vs: set<Vertex>, start: Partition, t: Tally) {
    && t.pm.Keys == start.Keys
    && (forall v :: v in start ==> t.pm[v] == Overlaid(start, t.res, v))
    && t.res.Keys == t.moves.Keys
    && (forall a :: a in t.moves ==> Vertex(a) in vs && 1 <= t.moves[a] <= UPDATE_THRESHOLD)
  }

  lemma {:induction false} TrailProgress(
    vs: set<Vertex>, es: seq<Edge>, stops: seq<Stop>, t0: Tally, t: Tally, start: Partition)
    requires Trail(vs, es, stops, t0, t) && Progress(vs, start, t0)
    ensures Progress(vs, start, t)
  {
    if stops != [] {
      var s := stops[|stops|-1];
      TrailProgress(vs, es, stops[..|stops|-1], t0, s.at, start);
      StopProgress(vs, es, s, start);
    }
  }

  lemma StopProgress(vs: set<Vertex>, es: seq<Edge>, s: Stop, start: Partition)
    requires s.Proper(vs, es) && Progress(vs, start, s.at)
    ensures Progress(vs, start, s.After())
  {
  }

  lemma {:induction false} VisitedAtMost(stops: seq<Stop>)
    ensures |VisitedBy(stops)| <= |stops|
  {
    if stops != [] { VisitedAtMost(stops[..|stops|-1]); }
  }

  /** Where no vertex is visited twice, none moves twice. */
  lemma {:induction false} TrailMovesOnce(
    vs: set<Vertex>, es: seq<Edge>, stops: seq<Stop>, t0: Tally, t: Tally, a: Address)
    requires Trail(vs, es, stops, t0, t) && |VisitedBy(stops)| == |stops|
    ensures MoveCount(t.moves, a) <= MoveCount(t0.moves, a) + if Vertex(a) in VisitedBy(stops) then 1 else 0
  {
    if stops != [] {
      var init, s := stops[..|stops|-1], stops[|stops|-1];
      VisitedAtMost(init);
      assert s.v in VisitedBy(init) ==> VisitedBy(init) + {s.v} == VisitedBy(init);
      TrailMovesOnce(vs, es, init, t0, s.at, a);
    }
  }

  lemma {:induction false} RunProgress(vs: set<Vertex>, es: seq<Edge>, run: seq<SweepRecord>, t0: Tally, t: Tally)
    requires RunOf(vs, es, run, t0, t) && t0.res == t0.moves == map[]
    ensures Progress(vs, t0.pm, t)
    ensures forall a :: a in t.moves ==> t.moves[a] <= |run|
  {
    if run != [] {
      var last := run[|run|-1];
      RunProgress(vs, es, run[..|run|-1], t0, last.at);
      TrailProgress(vs, es, last.stops, last.at, t, t0.pm);
      forall a | a in t.moves ensures t.moves[a] <= |run| {
        TrailMovesOnce(vs, es, last.stops, last.at, t, a);
      }
    }
  }

  /** A Go map read of the move counter. */
  function MoveCount(moves: map<Address, nat>, a: Address): nat {
    if a in moves then moves[a] else 0
  }

  /** What the fast form adds to the count of shard k when a vertex with neighbours adj goes from was to b. */
  function NetChange(adj: seq<Vertex>, pm: Partition, was: nat, b: nat, k: nat): int {
    (if k == b then |adj| - LabelCount(adj, pm, b) else 0)
    - (if k == was then |adj| - (if was == b then 0 else LabelCount(adj, pm, was)) else 0)
  }

  /** What the fast form adds to the cross count. */
  function NetCross(adj: seq<Vertex>, pm: Partition, was: nat, b: nat): int {
    (if was == b then 0 else LabelCount(adj, pm, was)) - LabelCount(adj, pm, b)
  }

  lemma NetChangeStep(adj: seq<Vertex>, u: Vertex, pm: Partition, was: nat, b: nat)
    ensures NetCross(adj + [u], pm, was, b)
         == NetCross(adj, pm, was, b) + if Label(pm, u) == b then -1 else if Label(pm, u) == was then 1 else 0
    ensures forall k :: NetChange(adj + [u], pm, was, b, k) == NetChange(adj, pm, was, b, k)
                          + (if k == b && Label(pm, u) != b then 1 else 0)
                          - (if k == was && (was == b || Label(pm, u) != was) then 1 else 0)
  {
  }

  /** The fast form's net changes are the true effect of the move, short by the self-loops. */
  lemma NetChangeOfMove(es: seq<Edge>, pm: Partition, v: Vertex, was: nat, n: nat)
    requires v in pm && was != pm[v]
    ensures var adj := Neighbours(es, v);
            Crossing(es, pm[v := was]) + NetCross(adj, pm, was, pm[v]) == Crossing(es, pm) - 2 * SelfLoops(es, v)
    ensures var adj := Neighbours(es, v);
            forall k :: 0 <= k < n ==>
              Touching(es, pm[v := was], k) + NetChange(adj, pm, was, pm[v], k)
                == Touching(es, pm, k) - if k == was || k == pm[v] then SelfLoops(es, v) else 0
  {
    var b := pm[v];
    assert pm == pm[v := b];
    MoveEffect(es, pm, v, was, b, 0);
    forall k: nat | k < n
      ensures Touching(es, pm[v := was], k) + NetChange(Neighbours(es, v), pm, was, b, k)
           == Touching(es, pm, k) - if k == was || k == b then SelfLoops(es, v) else 0
    {
      MoveEffect(es, pm, v, was, b, k);
    }
  }

  /** The fast form takes the recount of the old partition to that of the new one. */
  ghost predicate FastFormExact(es: seq<Edge>, pm: Partition, v: Vertex, was: nat, n: nat)
    requires v in pm
  {
    var adj := Neighbours(es, v);
    && Crossing(es, pm[v := was]) + NetCross(adj, pm, was, pm[v]) == Crossing(es, pm)
    && forall k :: 0 <= k < n ==>
         Touching(es, pm[v := was], k) + NetChange(adj, pm, was, pm[v], k) == Touching(es, pm, k)
  }

  /** When the fast form agrees with the slow one: for a real move, exactly on vertices without self-loops. */
  lemma FastFormExactIff(es: seq<Edge>, pm: Partition, v: Vertex, was: nat, n: nat)
    requires v in pm && pm[v] < n && was < n
    ensures FastFormExact(es, pm, v, was, n)
       <==> if was != pm[v] then (v, v) !in es
            else forall u :: u in Neighbours(es, v) ==> Label(pm, u) != was
  {
    var adj := Neighbours(es, v);
    if was != pm[v] {
      NetChangeOfMove(es, pm, v, was, n);
      SelfLoopsPositive(es, v);
    } else {
      assert pm[v := was] == pm;
      LabelCountPositive(adj, pm, was);
      assert NetChange(adj, pm, was, was, was) == -(LabelCount(adj, pm, was) as int);
    }
  }

  lemma CountsMatchIff(es: seq<Edge>, pm: Partition, v: Vertex, was: nat, counts: seq<int>)
    requires v in pm
    requires forall k :: 0 <= k < |counts| ==>
               counts[k] == Touching(es, pm[v := was], k) + NetChange(Neighbours(es, v), pm, was, pm[v], k)
    ensures counts == TouchingAll(es, pm, |counts|)
              && Crossing(es, pm[v := was]) + NetCross(Neighbours(es, v), pm, was, pm[v]) == Crossing(es, pm)
       <==> FastFormExact(es, pm, v, was, |counts|)
  {
  }

  /** The smallest failure: one self-loop, one move. The cross count drops below zero. */
  lemma FastFormFailsOnSelfLoop(v: Vertex)
    ensures !FastFormExact([(v, v)], map[v := 1], v, 0, 2)
    ensures Crossing([(v, v)], map[v := 0]) + NetCross(Neighbours([(v, v)], v), map[v := 1], 0, 1) == -2
  {
    var es, pm := [(v, v)], map[v := 1];
    FastFormExactIff(es, pm, v, 0, 2);
    NetChangeOfMove(es, pm, v, 0, 2);
    assert pm[v := 0] == map[v := 0];
  }

  lemma {:induction false} EndsHaveNeighbours(es: seq<Edge>, i: nat)
    requires i < |es|
    ensures Neighbours(es, es[i].0) != [] && Neighbours(es, es[i].1) != []
  {
    if i < |es| - 1 { EndsHaveNeighbours(es[..|es|-1], i); }
  }

  lemma {:induction false} NeighboursAreEnds(es: seq<Edge>, v: Vertex, s: set<Vertex>)
    requires Covers(s, es)
    ensures forall u :: u in Neighbours(es, v) ==> u in s
  {
    if es != [] { NeighboursAreEnds(es[..|es|-1], v, s); }
  }

  lemma {:induction false} SelfLoopsPositive(es: seq<Edge>, v: Vertex)
    ensures SelfLoops(es, v) > 0 <==> (v, v) in es
  {
    if es != [] {
      SelfLoopsPositive(es[..|es|-1], v);
      assert es == es[..|es|-1] + [es[|es|-1]];
    }
  }

  lemma {:induction false} LabelCountPositive(vs: seq<Vertex>, pm: Partition, k: nat)
    ensures LabelCount(vs, pm, k) == 0 <==> forall u :: u in vs ==> Label(pm, u) != k
  {
    if vs != [] {
      LabelCountPositive(vs[..|vs|-1], pm, k);
      assert vs == vs[..|vs|-1] + [vs[|vs|-1]];
    }
  }
}
