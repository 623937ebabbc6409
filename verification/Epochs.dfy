/** Whole epochs in Lagrangian mode: rounds of block selection and the shadow price they lead to. */
module Epochs {
  import opened Shards
  import opened Transactions
  import opened PooledTxs
  import opened Justitia
  import opened Scheduler
  import opened PriorityPool
  import opened BlockRoom

  /**
   * A round of selection: the pool and the room in the block before it, what went into the block, what was scored
   * and left behind, and the terms in force.
   */
  datatype RoundRecord = RoundRecord(
    pool: seq<PooledTx>, capacity: int, selected: seq<PooledTx>, left: seq<PooledTx>, terms: Terms)

  ghost predicate AllPriced(rounds: seq<RoundRecord>) {
    forall i :: 0 <= i < |rounds| ==> rounds[i].terms.Priced()
  }

  /** The subsidies of the transactions that were selected. */
  ghost function Issued(rounds: seq<RoundRecord>): int
    requires AllPriced(rounds)
  {
    if rounds == [] then 0
    else Issued(rounds[..|rounds|-1]) + Grants(rounds[|rounds|-1].selected, rounds[|rounds|-1].terms)
  }

  /** The subsidies of the transactions that were left behind, once for every round. */
  ghost function LeftBehind(rounds: seq<RoundRecord>): int
    requires AllPriced(rounds)
  {
    if rounds == [] then 0
    else LeftBehind(rounds[..|rounds|-1]) + Grants(rounds[|rounds|-1].left, rounds[|rounds|-1].terms)
  }

  lemma RoundAdded(rounds: seq<RoundRecord>, r: RoundRecord)
    requires AllPriced(rounds) && r.terms.Priced()
    ensures AllPriced(rounds + [r])
    ensures Issued(rounds + [r]) == Issued(rounds) + Grants(r.selected, r.terms)
    ensures LeftBehind(rounds + [r]) == LeftBehind(rounds) + Grants(r.left, r.terms)
    ensures AllSound(rounds) && FitLeavesNothing(r) ==> AllSound(rounds + [r])
  {
    assert (rounds + [r])[..|rounds|] == rounds;
  }

  /** What an epoch counts is what it issued exactly if no transaction with a subsidy was ever left behind. */
  lemma {:induction false} CountsIssuedIff(rounds: seq<RoundRecord>)
    requires AllPriced(rounds)
    ensures LeftBehind(rounds) >= 0
    ensures Issued(rounds) + LeftBehind(rounds) == Issued(rounds)
       <==> forall i, p :: 0 <= i < |rounds| && p in rounds[i].left ==> rounds[i].terms.Grant(p.tx) == 0
  {
    if rounds != [] {
      var r := rounds[|rounds|-1];
      CountsIssuedIff(rounds[..|rounds|-1]);
      NoGrantsIff(r.left, r.terms);
    }
  }

  /** What is known before the round: nothing is scored, or every subsidy in the pool has room. */
  predicate Fits(r: RoundRecord) {
    r.terms.Priced() && (r.capacity <= 0 || PoolFits(r.pool, r.capacity, r.terms))
  }

  /** A round that fits leaves no subsidy behind. */
  ghost predicate FitLeavesNothing(r: RoundRecord) {
    r.terms.Priced() && (Fits(r) ==> Grants(r.left, r.terms) == 0)
  }

  ghost predicate AllSound(rounds: seq<RoundRecord>) {
    forall i :: 0 <= i < |rounds| ==> FitLeavesNothing(rounds[i])
  }

  /** An epoch whose pools always fit their blocks counts what it issues. */
  lemma {:induction false} FittingEpochCountsIssued(rounds: seq<RoundRecord>)
    requires AllSound(rounds) && forall i :: 0 <= i < |rounds| ==> Fits(rounds[i])
    ensures AllPriced(rounds) && LeftBehind(rounds) == 0
  {
    if rounds != [] {
      FittingEpochCountsIssued(rounds[..|rounds|-1]);
      assert FitLeavesNothing(rounds[|rounds|-1]);
    }
  }

  /** A transaction that waits is counted again in every round it waits. */
  lemma {:induction false} WaitingCountsEveryRound(rounds: seq<RoundRecord>, p: PooledTx, g: nat)
    requires AllPriced(rounds)
    requires forall i :: 0 <= i < |rounds| ==> p in rounds[i].left && rounds[i].terms.Grant(p.tx) >= g
    ensures LeftBehind(rounds) >= |rounds| * g
  {
    if rounds != [] {
      var n := |rounds| - 1;
      WaitingCountsEveryRound(rounds[..n], p, g);
      GrantWithin(rounds[n].left, p, rounds[n].terms);
      assert |rounds| * g == n * g + g;
    }
  }

  lemma {:induction false} GrantWithin(s: seq<PooledTx>, p: PooledTx, t: Terms)
    requires t.Priced() && p in s
    ensures Grants(s, t) >= t.Grant(p.tx)
  {
    var init, last := s[..|s|-1], s[|s|-1];
    assert s == init + [last];
    GrantsSnoc(init, last, t);
    NoGrantsIff(init, t);
    if p != last { GrantWithin(init, p, t); }
  }

  /** Two transactions with a subsidy of 100 each: a block for one of them counts both. */
  lemma OneLeftBehindDoublesTheCount(a: PooledTx, b: PooledTx)
    requires a.tx.isCrossShard && b.tx.isCrossShard && a.tx.fromShard == b.tx.fromShard == 0
    requires a.tx.toShard == b.tx.toShard == 1
    ensures var t := Terms(0, map[1 := 100], 1.0, 1.0, 0.5);
            && t.Priced() && AllPriced([RoundRecord([a, b], 1, [a], [b], t)])
            && Issued([RoundRecord([a, b], 1, [a], [b], t)]) == 100
            && Issued([RoundRecord([a, b], 1, [a], [b], t)]) + LeftBehind([RoundRecord([a, b], 1, [a], [b], t)]) == 200
  {
    var t := Terms(0, map[1 := 100], 1.0, 1.0, 0.5);
    assert 100 as real * (1.0 / 1.0) == 100.0;
    assert t.Grant(a.tx) == 100 && t.Grant(b.tx) == 100;
    GrantsSnoc([], a, t);
    GrantsSnoc([], b, t);
    assert [] + [a] == [a] && [] + [b] == [b];
    RoundAdded([], RoundRecord([a, b], 1, [a], [b], t));
    assert [] + [RoundRecord([a, b], 1, [a], [b], t)] == [RoundRecord([a, b], 1, [a], [b], t)];
  }

  /** The price an epoch sets is never below the one that what it issued would have set. */
  lemma PriceNeverBelowIssued(p: LagrangianParams, price: real, issued: int, left: nat, limit: int)
    requires p.alpha >= 0.0
    ensures NextLambda(p, price, Violation(issued + left, limit)) >= NextLambda(p, price, Violation(issued, limit))
  {
    if limit > 0 {
      MoreOverLimit(issued - limit, left, limit as real);
      ScaleLess(p.alpha, Violation(issued, limit), Violation(issued + left, limit));
    }
  }

  lemma MoreOverLimit(x: int, left: nat, limit: real)
    requires limit > 0.0
    ensures x as real / limit <= (x + left) as real / limit
  {
  }

  /** The scheduler of a pool counts epochs in Lagrangian mode and has a price to divide by. */
  ghost predicate Ready(pool: PriorityTxPool)
    reads pool, pool.txQueue, pool.scheduler, if pool.scheduler == null then null else pool.scheduler.mechanism,
          if pool.scheduler == null then null else pool.scheduler.feeTracker
  {
    && pool.Valid() && pool.scheduler != null && pool.scheduler.Lagrangian()
    && pool.scheduler.Configured(pool.scheduler.Lambda()) && pool.scheduler.feeTracker.Valid()
  }

  datatype RoundInput = RoundInput(maxTxs: nat, arrivals: seq<Tx>, clock: seq<nat>, fees: seq<Option<int>>)

  /** The record of a round tells what the pool held, what was selected and what was scored and left. */
  ghost predicate Records(r: RoundRecord, items: seq<PooledTx>, capacity: int, t: Terms) {
    && r.pool == items && r.capacity == capacity && r.terms == t && FitLeavesNothing(r)
    && multiset(r.selected) + multiset(r.left) == (if capacity > 0 then multiset(items) else multiset{})
    && |r.selected| == Room(|items|, capacity)
  }

  lemma RecordSound(
    items: seq<PooledTx>, drained: seq<PooledTx>, selected: seq<PooledTx>, left: seq<PooledTx>,
    ordering: seq<TxWithScore>, capacity: int, t: Terms)
    requires t.Priced() && multiset(drained) == multiset(items) && |selected| == Room(|items|, capacity)
    requires multiset(selected) + multiset(left) == multiset(drained)
    requires capacity > 0 ==>
               IsSelection(selected, ordering, ScoredPool(drained, t), capacity, AvgFee(t.avg, t.shardID))
    ensures Records(RoundRecord(items, capacity, selected, if capacity > 0 then left else [], t), items, capacity, t)
  {
    if capacity <= 0 {
      NoGrantsIff([], t);
    } else if PoolFits(items, capacity, t) {
      FittingPoolLeavesNoGrant(items, drained, selected, left, ordering, capacity, t);
    }
  }

  /** The selection of a round. A block size that is 0 or negative as a signed word scores nothing. */
  method PackRound(pool: PriorityTxPool, input: RoundInput) returns (ghost round: RoundRecord)
    requires Ready(pool) && |input.clock| == |input.arrivals|
    modifies pool.txQueue, pool.txQueue.items, pool.scheduler, pool.scheduler.mechanism
    ensures Ready(pool) && pool.scheduler.Lambda() == old(pool.scheduler.Lambda())
    ensures Records(round, old(pool.txQueue.items), AsInt(input.maxTxs), old(pool.scheduler.CurrentTerms()))
    ensures pool.scheduler.epochSubsidyTotal == old(pool.scheduler.epochSubsidyTotal)
              + Grants(round.selected, round.terms) + Grants(round.left, round.terms)
    ensures forall i :: 0 <= i < |pool.txQueue.items| ==>
              pool.txQueue.items[i] in old(pool.txQueue.items) || fresh(pool.txQueue.items[i])
  {
    ghost var items, t, capacity := pool.txQueue.items, pool.scheduler.CurrentTerms(), AsInt(input.maxTxs);
    var selected; ghost var left, added, drained, scored, ordering, subs;
    selected, left, added, drained, scored, ordering, subs :=
      pool.PackTxsWithScheduler(input.maxTxs, input.arrivals, input.clock);
    assert pool.scheduler.CurrentTerms() == t;
    RecordSound(items, drained, selected, left, ordering, capacity, t);
    round := RoundRecord(items, capacity, selected, if capacity > 0 then left else [], t);
    if capacity <= 0 { NoGrantsIff([], t); }
  }

  /** One round, after which the block's fees move the shard's own average. */
  method RunRound(pool: PriorityTxPool, input: RoundInput) returns (ghost round: RoundRecord)
    requires Ready(pool) && |input.clock| == |input.arrivals|
    modifies pool.txQueue, pool.txQueue.items, pool.scheduler, pool.scheduler.mechanism, pool.scheduler.feeTracker
    ensures Ready(pool) && pool.scheduler.Lambda() == old(pool.scheduler.Lambda())
    ensures Records(round, old(pool.txQueue.items), AsInt(input.maxTxs), old(pool.scheduler.CurrentTerms()))
    ensures pool.scheduler.epochSubsidyTotal == old(pool.scheduler.epochSubsidyTotal)
              + Grants(round.selected, round.terms) + Grants(round.left, round.terms)
    ensures forall i :: 0 <= i < |pool.txQueue.items| ==>
              pool.txQueue.items[i] in old(pool.txQueue.items) || fresh(pool.txQueue.items[i])
  {
    round := PackRound(pool, input);
    pool.scheduler.feeTracker.OnBlockFinalized(pool.scheduler.shardID, input.fees);
  }

  /**
   * An epoch of any number of rounds, with arrivals in between and a moving average fee. The shadow price is set
   * by the subsidies of everything scored, selected or not, in every round.
   */
  method RunEpoch(pool: PriorityTxPool, inputs: seq<RoundInput>) returns (ghost rounds: seq<RoundRecord>)
    requires Ready(pool)
    requires forall i :: 0 <= i < |inputs| ==> |inputs[i].clock| == |inputs[i].arrivals|
    modifies pool.txQueue, pool.txQueue.items, pool.scheduler, pool.scheduler.mechanism, pool.scheduler.feeTracker
    ensures |rounds| == |inputs| && AllPriced(rounds) && AllSound(rounds)
    ensures pool.scheduler.mechanism.lambda == NextLambda(
              pool.scheduler.mechanism.lagrangian, old(pool.scheduler.Lambda()),
              Violation(old(pool.scheduler.epochSubsidyTotal) + Issued(rounds) + LeftBehind(rounds),
                        pool.scheduler.mechanism.maxInflation))
    ensures pool.scheduler.epochSubsidyTotal == 0
  {
    rounds := [];
    for i := 0 to |inputs|
      invariant Ready(pool) && pool.scheduler.Lambda() == old(pool.scheduler.Lambda())
      invariant |rounds| == i && AllPriced(rounds) && AllSound(rounds)
      invariant pool.scheduler.epochSubsidyTotal
             == old(pool.scheduler.epochSubsidyTotal) + Issued(rounds) + LeftBehind(rounds)
      invariant forall j :: 0 <= j < |pool.txQueue.items| ==>
                  pool.txQueue.items[j] in old(pool.txQueue.items) || fresh(pool.txQueue.items[j])
    {
      ghost var round := RunRound(pool, inputs[i]);
      RoundAdded(rounds, round);
      rounds := rounds + [round];
    }
    pool.scheduler.UpdateEpoch();
  }
}
