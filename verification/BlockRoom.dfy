/** Which transactions a round of block selection can leave behind, told from the pool and the block size. */
module BlockRoom {
  import opened PooledTxs
  import opened Scheduler

  /** The entries that x does not outrank: those that can come before it, and x itself. */
  function Rivals(s: seq<TxWithScore>, x: TxWithScore, EA: int): seq<TxWithScore> {
    if s == [] then []
    else Rivals(s[..|s|-1], x, EA) + if Outranks(x, s[|s|-1], EA) then [] else [s[|s|-1]]
  }

  /** The entries that x outranks. */
  function Outranked(s: seq<TxWithScore>, x: TxWithScore, EA: int): seq<TxWithScore> {
    if s == [] then []
    else Outranked(s[..|s|-1], x, EA) + if Outranks(x, s[|s|-1], EA) then [s[|s|-1]] else []
  }

  lemma {:induction false} RivalsDivide(s: seq<TxWithScore>, x: TxWithScore, EA: int)
    ensures multiset(Rivals(s, x, EA)) + multiset(Outranked(s, x, EA)) == multiset(s)
    ensures |Rivals(s, x, EA)| <= |s| && |Rivals(s, x, EA)| + |Outranked(s, x, EA)| == |s|
    ensures forall y :: y in Rivals(s, x, EA) ==> !Outranks(x, y, EA)
    ensures forall y :: y in Outranked(s, x, EA) ==> Outranks(x, y, EA)
  {
    if s != [] {
      RivalsDivide(s[..|s|-1], x, EA);
      assert s == s[..|s|-1] + [s[|s|-1]];
    }
  }

  lemma {:induction false} RivalsConcat(a: seq<TxWithScore>, b: seq<TxWithScore>, x: TxWithScore, EA: int)
    ensures |Rivals(a + b, x, EA)| == |Rivals(a, x, EA)| + |Rivals(b, x, EA)|
  {
    if b == [] {
      assert a + b == a;
    } else {
      RivalsConcat(a, b[..|b|-1], x, EA);
      assert (a + b)[..|a + b|-1] == a + b[..|b|-1];
    }
  }

  lemma RivalsWithout(s: seq<TxWithScore>, j: nat, x: TxWithScore, EA: int)
    requires j < |s|
    ensures |Rivals(s, x, EA)| == |Rivals(Without(s, j), x, EA)| + if Outranks(x, s[j], EA) then 0 else 1
  {
    var one := [s[j]];
    assert s == s[..j] + one + s[j+1..];
    RivalsConcat(s[..j], one, x, EA);
    RivalsConcat(s[..j] + one, s[j+1..], x, EA);
    RivalsConcat(s[..j], s[j+1..], x, EA);
    assert one[..0] == [];
  }

  /** How many rivals an entry has does not depend on the order of the others. */
  lemma {:induction false} RivalsPermutation(a: seq<TxWithScore>, b: seq<TxWithScore>, x: TxWithScore, EA: int)
    requires multiset(a) == multiset(b)
    ensures |Rivals(a, x, EA)| == |Rivals(b, x, EA)|
    decreases |a|
  {
    assert |multiset(a)| == |multiset(b)|;
    if a != [] {
      assert a[0] in multiset(b);
      var j :| 0 <= j < |b| && b[j] == a[0];
      TakeOut(a, 0);
      TakeOut(b, j);
      CancelOne(multiset(Without(a, 0)), multiset(Without(b, j)), a[0]);
      RivalsPermutation(Without(a, 0), Without(b, j), x, EA);
      RivalsWithout(a, 0, x, EA);
      RivalsWithout(b, j, x, EA);
    }
  }

  lemma {:induction false} AllRivals(s: seq<TxWithScore>, x: TxWithScore, EA: int)
    requires forall i :: 0 <= i < |s| ==> !Outranks(x, s[i], EA)
    ensures |Rivals(s, x, EA)| == |s|
  {
    if s != [] {
      assert !Outranks(x, s[|s|-1], EA);
      AllRivals(s[..|s|-1], x, EA);
    }
  }

  /** In a block order an entry has at least as many rivals as its position says. */
  lemma RivalsComeFirst(ordering: seq<TxWithScore>, p: nat, EA: int)
    requires InBlockOrder(ordering, EA) && p < |ordering|
    ensures |Rivals(ordering, ordering[p], EA)| > p
  {
    var x, first, others := ordering[p], ordering[..p+1], ordering[p+1..];
    assert ordering == first + others;
    AllRivals(first, x, EA);
    RivalsConcat(first, others, x, EA);
  }

  // ---------- every entry can be the last of its rivals ----------

  function InsertInBlock(s: seq<TxWithScore>, x: TxWithScore, EA: int): seq<TxWithScore> {
    if s == [] || !Outranks(x, s[|s|-1], EA) then s + [x]
    else InsertInBlock(s[..|s|-1], x, EA) + [s[|s|-1]]
  }

  lemma {:induction false} InsertedInBlock(s: seq<TxWithScore>, x: TxWithScore, EA: int)
    ensures multiset(InsertInBlock(s, x, EA)) == multiset(s) + multiset{x}
  {
    if !(s == [] || !Outranks(x, s[|s|-1], EA)) {
      InsertedInBlock(s[..|s|-1], x, EA);
      assert s == s[..|s|-1] + [s[|s|-1]];
    }
  }

  lemma {:induction false} InsertKeepsBlockOrder(s: seq<TxWithScore>, x: TxWithScore, EA: int)
    requires InBlockOrder(s, EA)
    ensures InBlockOrder(InsertInBlock(s, x, EA), EA)
  {
    if !(s == [] || !Outranks(x, s[|s|-1], EA)) {
      var init, last := s[..|s|-1], s[|s|-1];
      InsertKeepsBlockOrder(init, x, EA);
      InsertedInBlock(init, x, EA);
      forall y | y in InsertInBlock(init, x, EA) ensures !Outranks(last, y, EA) {
        assert y in multiset(InsertInBlock(init, x, EA));
        assert y == x || y in multiset(init);
      }
    }
  }

  lemma {:induction false} Sortable(s: seq<TxWithScore>, EA: int) returns (r: seq<TxWithScore>)
    ensures multiset(r) == multiset(s) && |r| == |s| && InBlockOrder(r, EA)
  {
    r := [];
    if s != [] {
      var init := Sortable(s[..|s|-1], EA);
      r := InsertInBlock(init, s[|s|-1], EA);
      InsertedInBlock(init, s[|s|-1], EA);
      InsertKeepsBlockOrder(init, s[|s|-1], EA);
      assert s == s[..|s|-1] + [s[|s|-1]];
    }
    assert |multiset(r)| == |multiset(s)|;
  }

  /** A block order in which x comes right after all its rivals. */
  lemma LastOfRivals(scored: seq<TxWithScore>, x: TxWithScore, EA: int) returns (ordering: seq<TxWithScore>, p: nat)
    requires x in scored
    ensures multiset(ordering) == multiset(scored) && |ordering| == |scored| && InBlockOrder(ordering, EA)
    ensures p + 1 == |Rivals(scored, x, EA)| <= |ordering| && ordering[p] == x
  {
    var j :| 0 <= j < |scored| && scored[j] == x;
    var rest := Without(scored, j);
    TakeOut(scored, j);
    RivalsWithout(scored, j, x, EA);
    RivalsDivide(rest, x, EA);
    var before := Sortable(Rivals(rest, x, EA), EA);
    var after := Sortable(Outranked(rest, x, EA), EA);
    ordering, p := before + [x] + after, |before|;
    BetweenInOrder(before, x, after, rest, EA);
    assert multiset(ordering) == multiset(before) + multiset{x} + multiset(after);
  }

  lemma BetweenInOrder(
    before: seq<TxWithScore>, x: TxWithScore, after: seq<TxWithScore>, rest: seq<TxWithScore>, EA: int)
    requires InBlockOrder(before, EA) && InBlockOrder(after, EA)
    requires multiset(before) == multiset(Rivals(rest, x, EA)) && multiset(after) == multiset(Outranked(rest, x, EA))
    ensures InBlockOrder(before + [x] + after, EA)
  {
    RivalsDivide(rest, x, EA);
    forall y | y in before ensures !Outranks(x, y, EA) {
      assert y in multiset(before) && y in multiset(Rivals(rest, x, EA));
    }
    OrdersJoin(before, [x], EA);
    forall y, z | y in after && z in before + [x] ensures !Outranks(y, z, EA) {
      assert y in multiset(after) && y in multiset(Outranked(rest, x, EA));
      NotPast(z, x, y, EA);
    }
    OrdersJoin(before + [x], after, EA);
  }

  lemma NotPast(z: TxWithScore, x: TxWithScore, y: TxWithScore, EA: int)
    requires (z == x || !Outranks(x, z, EA)) && Outranks(x, y, EA)
    ensures !Outranks(y, z, EA)
  {
  }

  lemma OrdersJoin(a: seq<TxWithScore>, b: seq<TxWithScore>, EA: int)
    requires InBlockOrder(a, EA) && InBlockOrder(b, EA) && forall y, z :: y in b && z in a ==> !Outranks(y, z, EA)
    ensures InBlockOrder(a + b, EA)
  {
    var s := a + b;
    forall i, j | 0 <= i < j < |s| ensures !Outranks(s[j], s[i], EA) {
      assert i < |a| ==> s[i] in a;
      assert j >= |a| ==> s[j] in b;
    }
  }

  // ---------- what can be left behind ----------

  /** Every entry with a subsidy has no more rivals, itself included, than the block has room for. */
  predicate GrantsFit(scored: seq<TxWithScore>, capacity: int, EA: int, t: Terms)
    requires t.Priced()
  {
    forall i :: 0 <= i < |scored| && t.Grant(scored[i].tx.tx) > 0 ==> |Rivals(scored, scored[i], EA)| <= capacity
  }

  /** A selection leaves no subsidy behind. */
  ghost predicate LeavesNoGrant(selected: seq<PooledTx>, ordering: seq<TxWithScore>, t: Terms)
    requires t.Priced()
  {
    |selected| <= |ordering| && Grants(Txs(ordering)[|selected|..], t) == 0
  }

  lemma FittingGrantsSelected(
    selected: seq<PooledTx>, ordering: seq<TxWithScore>, scored: seq<TxWithScore>, capacity: int, EA: int, t: Terms)
    requires capacity > 0 && t.Priced() && GrantsFit(scored, capacity, EA, t)
    requires IsSelection(selected, ordering, scored, capacity, EA)
    ensures LeavesNoGrant(selected, ordering, t)
  {
    var left := Txs(ordering)[|selected|..];
    NoGrantsIff(left, t);
    forall p | p in left ensures t.Grant(p.tx) == 0 {
      var i :| 0 <= i < |left| && left[i] == p;
      var k := |selected| + i;
      RivalsComeFirst(ordering, k, EA);
      RivalsPermutation(ordering, scored, ordering[k], EA);
      assert ordering[k] in multiset(scored);
      var h :| 0 <= h < |scored| && scored[h] == ordering[k];
    }
  }

  /** A grant with too many rivals is left behind in one of the orders. */
  lemma GrantLeftBehind(scored: seq<TxWithScore>, i: nat, capacity: int, EA: int, t: Terms)
    returns (selected: seq<PooledTx>, ordering: seq<TxWithScore>)
    requires capacity > 0 && t.Priced() && i < |scored|
    requires t.Grant(scored[i].tx.tx) > 0 && |Rivals(scored, scored[i], EA)| > capacity
    ensures IsSelection(selected, ordering, scored, capacity, EA) && !LeavesNoGrant(selected, ordering, t)
  {
    var p;
    ordering, p := LastOfRivals(scored, scored[i], EA);
    selected := Txs(ordering)[..Room(|ordering|, capacity)];
    var left := Txs(ordering)[|selected|..];
    assert left[p - |selected|] == scored[i].tx;
    NoGrantsIff(left, t);
  }

  /**
   * Exactly when a round can leave no subsidy behind, told before it, whatever the order among equals: every entry
   * with a subsidy has at most as many rivals in the pool as the block has room for.
   */
  lemma NoGrantLeftIff(scored: seq<TxWithScore>, capacity: int, EA: int, t: Terms)
    requires capacity > 0 && t.Priced()
    ensures (forall selected, ordering :: IsSelection(selected, ordering, scored, capacity, EA) ==>
               LeavesNoGrant(selected, ordering, t))
       <==> GrantsFit(scored, capacity, EA, t)
  {
    if GrantsFit(scored, capacity, EA, t) {
      forall selected, ordering | IsSelection(selected, ordering, scored, capacity, EA)
        ensures LeavesNoGrant(selected, ordering, t)
      {
        FittingGrantsSelected(selected, ordering, scored, capacity, EA, t);
      }
    } else {
      var i :| 0 <= i < |scored| && t.Grant(scored[i].tx.tx) > 0 && |Rivals(scored, scored[i], EA)| > capacity;
      var selected, ordering := GrantLeftBehind(scored, i, capacity, EA, t);
    }
  }

  /** A pool that fits the block leaves nothing behind. */
  lemma SmallPoolFits(scored: seq<TxWithScore>, capacity: int, EA: int, t: Terms)
    requires t.Priced() && |scored| <= capacity
    ensures GrantsFit(scored, capacity, EA, t)
  {
    forall i | 0 <= i < |scored| ensures |Rivals(scored, scored[i], EA)| <= capacity {
      RivalsDivide(scored, scored[i], EA);
    }
  }

  /** The condition on a pool before the round: its scoring under the terms in force fits the block. */
  predicate PoolFits(pool: seq<PooledTx>, capacity: int, t: Terms)
    requires t.Priced()
  {
    GrantsFit(ScoredPool(pool, t), capacity, AvgFee(t.avg, t.shardID), t)
  }

  lemma {:induction false} ScoredPermutation(a: seq<PooledTx>, b: seq<PooledTx>, t: Terms)
    requires t.Priced() && multiset(a) == multiset(b)
    ensures multiset(ScoredPool(a, t)) == multiset(ScoredPool(b, t))
    decreases |a|
  {
    assert |multiset(a)| == |multiset(b)|;
    if a != [] {
      assert a[0] in multiset(b);
      var j :| 0 <= j < |b| && b[j] == a[0];
      TakeOut(a, 0);
      TakeOut(b, j);
      CancelOne(multiset(Without(a, 0)), multiset(Without(b, j)), a[0]);
      ScoredPermutation(Without(a, 0), Without(b, j), t);
      ScoredWithout(a, 0, t);
      ScoredWithout(b, j, t);
    }
  }

  lemma ScoredWithout(s: seq<PooledTx>, j: nat, t: Terms)
    requires t.Priced() && j < |s|
    ensures multiset(ScoredPool(s, t)) == multiset(ScoredPool(Without(s, j), t)) + multiset{ScoredEntry(s[j], t)}
  {
    TakeOut(ScoredPool(s, t), j);
    assert ScoredPool(Without(s, j), t) == Without(ScoredPool(s, t), j);
  }

  /** The order in which a pool is listed does not matter. */
  lemma FitsInAnyOrder(a: seq<PooledTx>, b: seq<PooledTx>, capacity: int, t: Terms)
    requires t.Priced() && multiset(a) == multiset(b) && PoolFits(a, capacity, t)
    ensures PoolFits(b, capacity, t)
  {
    var x, y, EA := ScoredPool(a, t), ScoredPool(b, t), AvgFee(t.avg, t.shardID);
    ScoredPermutation(a, b, t);
    forall i | 0 <= i < |y| && t.Grant(y[i].tx.tx) > 0 ensures |Rivals(y, y[i], EA)| <= capacity {
      assert y[i] in multiset(x);
      var j :| 0 <= j < |x| && x[j] == y[i];
      RivalsPermutation(x, y, y[i], EA);
    }
  }

  /** A pool that fits is selected from without leaving a subsidy behind. */
  lemma FittingPoolLeavesNoGrant(
    pool: seq<PooledTx>, drained: seq<PooledTx>, selected: seq<PooledTx>, left: seq<PooledTx>,
    ordering: seq<TxWithScore>, capacity: int, t: Terms)
    requires capacity > 0 && t.Priced() && PoolFits(pool, capacity, t) && multiset(pool) == multiset(drained)
    requires multiset(selected) + multiset(left) == multiset(drained)
    requires IsSelection(selected, ordering, ScoredPool(drained, t), capacity, AvgFee(t.avg, t.shardID))
    ensures Grants(left, t) == 0
  {
    var scored, EA := ScoredPool(drained, t), AvgFee(t.avg, t.shardID);
    FitsInAnyOrder(pool, drained, capacity, t);
    FittingGrantsSelected(selected, ordering, scored, capacity, EA, t);
    NothingBetterLeftBehind(selected, ordering, scored, capacity, EA);
    assert Txs(scored) == drained;
    GrantsDivide(drained, selected, left, t);
    GrantsDivide(drained, selected, Txs(ordering)[|selected|..], t);
  }
}
