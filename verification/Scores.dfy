/** What a score says about a shard, and what the choice of a run follows from it (partition/partition_CLPA.go). */
module Scores {
  import opened Shards
  import opened EdgeCounts
  import opened Clpa

  // ---------- the score in terms of edges and load ----------

  /**
   * The score, with its denominators cleared: degree times minimum times the score is the number of edges to the shard
   * times what its penalized load leaves of the minimum.
   */
  lemma ScoreEquation(view: View, k: nat)
    requires k < |view.counts| && view.adj != [] && view.minimum != 0
    ensures view.ScoreOf(k).Finite?
    ensures view.ScoreOf(k).x * (|view.adj| as real * view.minimum as real)
         == LabelCount(view.adj, view.pm, k) as real * (view.minimum as real - view.penalty * view.counts[k] as real)
  {
    ClearDenominators(LabelCount(view.adj, view.pm, k) as real, |view.adj| as real,
                      view.penalty * view.counts[k] as real, view.minimum as real);
  }

  lemma ClearDenominators(e: real, d: real, p: real, m: real)
    requires d != 0.0 && m != 0.0
    ensures e / d * (1.0 - p / m) * (d * m) == e * (m - p)
  {
    var c, q := e / d, p / m;
    assert c * d == e && q * m == p;
    assert c * (1.0 - q) * (d * m) == (c * d) * ((1.0 - q) * m);
    assert (1.0 - q) * m == m - q * m;
  }

  /** Dividing by a minimum of 0: a shard with edges and a positive penalized load is out, the others have no score. */
  lemma ScoreWithoutMinimum(view: View, k: nat)
    requires k < |view.counts| && view.adj != [] && view.minimum == 0
    ensures view.ScoreOf(k)
         == if LabelCount(view.adj, view.pm, k) == 0 || view.penalty * view.counts[k] as real == 0.0 then NaN
            else if view.penalty * view.counts[k] as real > 0.0 then NegInf else PosInf
  {
    var e, d := LabelCount(view.adj, view.pm, k) as real, |view.adj| as real;
    LabelCountAtMost(view.adj, view.pm, k);
    QuotientZeroIff(e, d);
  }

  lemma {:induction false} LabelCountAtMost(vs: seq<Vertex>, pm: Partition, k: nat)
    ensures LabelCount(vs, pm, k) <= |vs|
  {
    if vs != [] { LabelCountAtMost(vs[..|vs|-1], pm, k); }
  }

  lemma QuotientZeroIff(e: real, d: real)
    requires d > 0.0
    ensures e / d == 0.0 <==> e == 0.0
  {
    assert e / d * d == e;
  }

  /** A vertex without edges has no score at all. */
  lemma ScoreWithoutEdges(view: View, k: nat)
    requires k < |view.counts| && view.adj == []
    ensures view.ScoreOf(k) == NaN
  {
  }

  // ---------- what raises and what lowers it ----------

  lemma Positive(x: real, y: real)
    requires x > 0.0 && y > 0.0
    ensures x * y > 0.0
  {
  }

  lemma LessByProduct(x: real, y: real, d: real)
    requires d > 0.0
    ensures x * d < y * d <==> x < y
  {
    if x < y { Positive(y - x, d); }
    if y < x { Positive(x - y, d); }
  }

  /** Edges to a shard times what its penalized load leaves of the minimum. */
  function Weigh(edges: real, minimum: real, penalty: real, load: real): real {
    edges * (minimum - penalty * load)
  }

  function Weighted(view: View, k: nat): real
    requires k < |view.counts|
  {
    Weigh(LabelCount(view.adj, view.pm, k) as real, view.minimum as real, view.penalty, view.counts[k] as real)
  }

  lemma FiniteLess(a: Score, b: Score, d: real, A: real, B: real)
    requires a.Finite? && b.Finite? && d > 0.0 && a.x * d == A && b.x * d == B
    ensures Less(a, b) <==> A < B
  {
    LessByProduct(a.x, b.x, d);
  }

  /** The positive number that clears the denominators of a vertex's scores. */
  lemma Cleared(view: View, k: nat) returns (score: Score, d: real)
    requires k < |view.counts| && view.adj != [] && view.minimum > 0
    ensures score == view.ScoreOf(k) && score.Finite? && d == |view.adj| as real * view.minimum as real > 0.0
    ensures score.x * d == Weighted(view, k)
  {
    ScoreEquation(view, k);
    Positive(|view.adj| as real, view.minimum as real);
    score, d := view.ScoreOf(k), |view.adj| as real * view.minimum as real;
  }

  /** With a positive minimum, scores compare as these products. */
  lemma ScoresCompare(view: View, k: nat, h: nat)
    requires k < |view.counts| && h < |view.counts| && view.adj != [] && view.minimum > 0
    ensures Less(view.ScoreOf(k), view.ScoreOf(h)) <==> Weighted(view, k) < Weighted(view, h)
  {
    var a, d := Cleared(view, k);
    var b, d' := Cleared(view, h);
    FiniteLess(a, b, d, Weighted(view, k), Weighted(view, h));
  }

  lemma HeavierWeighsLess(e: real, m: real, p: real, load: real, load': real)
    requires e > 0.0 && p > 0.0 && load < load'
    ensures Weigh(e, m, p, load') < Weigh(e, m, p, load)
  {
    Positive(p, load' - load);
    Positive(e, p * (load' - load));
    assert p * (load' - load) == p * load' - p * load;
    assert e * (m - p * load) - e * (m - p * load') == e * (p * (load' - load));
  }

  /** Of two shards with equally many neighbours the more loaded one scores strictly less. */
  lemma LoadLowersScore(view: View, k: nat, h: nat)
    requires k < |view.counts| && h < |view.counts| && view.minimum > 0 && view.penalty > 0.0
    requires LabelCount(view.adj, view.pm, k) == LabelCount(view.adj, view.pm, h) > 0
    requires view.counts[k] < view.counts[h]
    ensures Less(view.ScoreOf(h), view.ScoreOf(k))
  {
    ScoresCompare(view, h, k);
    HeavierWeighsLess(LabelCount(view.adj, view.pm, k) as real, view.minimum as real, view.penalty,
                      view.counts[k] as real, view.counts[h] as real);
  }

  lemma MoreEdgesWeighMoreIff(e: real, e': real, m: real, p: real, load: real)
    requires e < e'
    ensures Weigh(e, m, p, load) < Weigh(e', m, p, load) <==> p * load < m
  {
    var rest := m - p * load;
    assert e' * rest - e * rest == (e' - e) * rest;
    if rest > 0.0 { Positive(e' - e, rest); }
    if rest < 0.0 {
      Positive(e' - e, -rest);
      assert (e' - e) * -rest == -((e' - e) * rest);
    }
  }

  /** Of two equally loaded shards the one with more neighbours scores more exactly if the load leaves anything. */
  lemma EdgesRaiseScoreIff(view: View, k: nat, h: nat)
    requires k < |view.counts| && h < |view.counts| && view.adj != [] && view.minimum > 0
    requires view.counts[k] == view.counts[h]
    requires LabelCount(view.adj, view.pm, k) < LabelCount(view.adj, view.pm, h)
    ensures Less(view.ScoreOf(k), view.ScoreOf(h)) <==> view.penalty * view.counts[k] as real < view.minimum as real
  {
    ScoresCompare(view, k, h);
    EdgesWeighIff(view, k, h);
  }

  lemma EdgesWeighIff(view: View, k: nat, h: nat)
    requires k < |view.counts| && h < |view.counts| && view.counts[k] == view.counts[h]
    requires LabelCount(view.adj, view.pm, k) < LabelCount(view.adj, view.pm, h)
    ensures Weighted(view, k) < Weighted(view, h) <==> view.penalty * view.counts[k] as real < view.minimum as real
  {
    MoreEdgesWeighMoreIff(LabelCount(view.adj, view.pm, k) as real, LabelCount(view.adj, view.pm, h) as real,
                          view.minimum as real, view.penalty, view.counts[k] as real);
  }

  // ---------- what is chosen ----------

  /** Where a vertex has neighbours, no shard beats the one it goes to. */
  lemma NothingBeatsChosen(view: View, now: nat, best: nat, k: nat)
    requires view.InRange() && view.IsBestShard(now, best) && best != now && best < |view.counts| && k < |view.counts|
    requires LabelCount(view.adj, view.pm, k) > 0
    ensures view.adj != [] && LabelCount(view.adj, view.pm, best) > 0 && !Less(view.ScoreOf(best), view.ScoreOf(k))
  {
    var j :| 0 <= j < |view.adj| && view.FirstBest(j) && best == Label(view.pm, view.adj[j]);
    LabelCountPositive(view.adj, view.pm, best);
    assert view.adj[j] in view.adj;
    LabelCountPositive(view.adj, view.pm, k);
    var u :| u in view.adj && Label(view.pm, u) == k;
    var i :| 0 <= i < |view.adj| && view.adj[i] == u;
    assert view.ScoreAt(i) == view.ScoreOf(k) && view.ScoreAt(j) == view.ScoreOf(best);
  }

  /** A vertex never goes to a shard when another one has as many of its neighbours and less load. */
  lemma LoadedShardNotChosen(view: View, now: nat, best: nat, k: nat)
    requires view.InRange() && view.IsBestShard(now, best) && best != now && best < |view.counts| && k < |view.counts|
    requires view.minimum > 0 && view.penalty > 0.0
    requires LabelCount(view.adj, view.pm, k) == LabelCount(view.adj, view.pm, best) > 0
    ensures view.counts[best] <= view.counts[k]
  {
    NothingBeatsChosen(view, now, best, k);
    if view.counts[k] < view.counts[best] { LoadLowersScore(view, k, best); }
  }

  /** Without a penalty a vertex only ever goes where most of its neighbours are. */
  lemma MajorityWins(view: View, now: nat, best: nat, k: nat)
    requires view.InRange() && view.IsBestShard(now, best) && best != now && best < |view.counts| && k < |view.counts|
    requires view.minimum > 0 && view.penalty == 0.0
    ensures LabelCount(view.adj, view.pm, k) <= LabelCount(view.adj, view.pm, best)
  {
    if LabelCount(view.adj, view.pm, k) > 0 {
      NothingBeatsChosen(view, now, best, k);
      ScoresCompare(view, best, k);
      WeighedByEdges(view, best, k);
    }
  }

  lemma WeighedByEdges(view: View, k: nat, h: nat)
    requires k < |view.counts| && h < |view.counts| && view.penalty == 0.0 && view.minimum > 0
    ensures Weighted(view, k) < Weighted(view, h)
       <==> LabelCount(view.adj, view.pm, k) < LabelCount(view.adj, view.pm, h)
  {
    FreeOfLoad(LabelCount(view.adj, view.pm, k) as real, LabelCount(view.adj, view.pm, h) as real,
               view.minimum as real, view.counts[k] as real, view.counts[h] as real);
  }

  lemma FreeOfLoad(e: real, e': real, m: real, load: real, load': real)
    requires m > 0.0
    ensures Weigh(e, m, 0.0, load) < Weigh(e', m, 0.0, load') <==> e < e'
  {
    LessByProduct(e, e', m);
  }

  /** Among shards of equal score the one first met along the vertex's edges is chosen. */
  lemma FirstOfTheBest(view: View, now: nat, best: nat)
    requires view.InRange() && view.IsBestShard(now, best) && best != now && best < |view.counts|
    ensures exists j :: 0 <= j < |view.adj| && Label(view.pm, view.adj[j]) == best && MetFirst(view, j)
  {
    var j :| 0 <= j < |view.adj| && view.FirstBest(j) && best == Label(view.pm, view.adj[j]);
    assert MetFirst(view, j);
  }

  /** No shard met before neighbour j's scores as much. */
  ghost predicate MetFirst(view: View, j: nat)
    requires view.InRange() && j < |view.adj|
  {
    forall i :: 0 <= i < j ==> view.ScoreAt(i) == NaN || Less(view.ScoreAt(i), view.ScoreAt(j))
  }

  /** A vertex leaves its shard only for one that scores above the floor of -9999. */
  lemma ChosenAboveFloor(view: View, now: nat, best: nat)
    requires view.InRange() && view.IsBestShard(now, best) && best != now && best < |view.counts|
    ensures var s := view.ScoreOf(best); s == PosInf || (s.Finite? && s.x > -9999.0)
  {
  }

  /** One neighbour in a shard of 10 edges, one in a shard of 30: the scores are 1/4 and -1/4. */
  lemma LighterShardWins(u: Vertex, w: Vertex)
    requires u != w
    ensures var view := View([u, w], map[u := 1, w := 2], [10, 10, 30], 10, 0.5);
            && view.ScoreOf(1) == Finite(0.25) && view.ScoreOf(2) == Finite(-0.25)
            && (view.InRange() && forall best :: view.IsBestShard(0, best) ==> best == 1)
  {
    var view := View([u, w], map[u := 1, w := 2], [10, 10, 30], 10, 0.5);
    assert [u, w][..1] == [u] && [u][..0] == [];
    assert LabelCount([u], view.pm, 1) == 1 && LabelCount([u], view.pm, 2) == 0;
    assert LabelCount(view.adj, view.pm, 1) == 1 && LabelCount(view.adj, view.pm, 2) == 1;
    ScoreEquation(view, 1);
    ScoreEquation(view, 2);
    assert view.ScoreAt(0) == view.ScoreOf(1) && view.ScoreAt(1) == view.ScoreOf(2);
  }

  // ---------- when a sweep changes nothing ----------

  /**
   * A vertex has moved 50 times, or is the last one of its shard, or is where its own neighbours and the counters want
   * it to be; exact counters are those of the partition itself.
   */
  ghost predicate AtRest(vs: set<Vertex>, es: seq<Edge>, t: Tally, v: Vertex, exact: bool) {
    || MoveCount(t.moves, v.addr) >= 50
    || |set u | u in vs && Label(t.pm, u) == Label(t.pm, v)| <= 1
    || exists view: View ::
         && view.pm == t.pm && view.adj == Neighbours(es, v) && (exact ==> ExactView(es, view))
         && view.InRange() && view.IsBestShard(Label(t.pm, v), Label(t.pm, v))
  }

  lemma {:induction false} MovesOnlyGrow(
    vs: set<Vertex>, es: seq<Edge>, stops: seq<Stop>, t0: Tally, t: Tally, a: Address)
    requires Trail(vs, es, stops, t0, t)
    ensures MoveCount(t0.moves, a) <= MoveCount(t.moves, a)
    ensures forall i :: 0 <= i < |stops| && stops[i].moved && stops[i].v.addr == a ==>
              MoveCount(t0.moves, a) < MoveCount(t.moves, a)
  {
    if stops != [] { MovesOnlyGrow(vs, es, stops[..|stops|-1], t0, stops[|stops|-1].at, a); }
  }

  /** Every stop of a sweep that ends where it started stood still, and saw the partition it started from. */
  lemma {:induction false} NothingMoved(vs: set<Vertex>, es: seq<Edge>, stops: seq<Stop>, t0: Tally, t: Tally, i: nat)
    requires Trail(vs, es, stops, t0, t) && t.moves == t0.moves && i < |stops|
    ensures t == t0 && stops[i].at == t0 && !stops[i].moved && stops[i].Proper(vs, es)
    decreases |stops|
  {
    var init, last := stops[..|stops|-1], stops[|stops|-1];
    MovesOnlyGrow(vs, es, stops, t0, t, last.v.addr);
    assert !last.moved && t == last.at;
    if init == [] {
      assert last.at == t0;
    } else {
      NothingMoved(vs, es, init, t0, last.at, if i < |init| then i else 0);
    }
  }

  lemma {:induction false} StopOf(stops: seq<Stop>, v: Vertex) returns (i: nat)
    requires v in VisitedBy(stops)
    ensures i < |stops| && stops[i].v == v
  {
    if v in VisitedBy(stops[..|stops|-1]) { i := StopOf(stops[..|stops|-1], v); } else { i := |stops| - 1; }
  }

  /** A sweep that moves no vertex leaves every one of them at rest, and its tally as it was. */
  lemma QuietSweepIsRest(vs: set<Vertex>, es: seq<Edge>, stops: seq<Stop>, t0: Tally, t: Tally, v: Vertex)
    requires StopsAtAll(vs, stops) && Trail(vs, es, stops, t0, t) && t.moves == t0.moves && v in vs
    ensures t == t0 && AtRest(vs, es, t, v, false) && (ExactViews(es, stops) ==> AtRest(vs, es, t, v, true))
  {
    var i := StopOf(stops, v);
    NothingMoved(vs, es, stops, t0, t, i);
    assert Members(vs, t.pm, t.pm[v]) == set u | u in vs && Label(t.pm, u) == Label(t.pm, v);
    assert stops[i].view.pm == t.pm && (ExactViews(es, stops) ==> ExactView(es, stops[i].view));
  }
}
