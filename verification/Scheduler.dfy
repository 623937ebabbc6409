/** Transaction selection for a block: scoring, three phases, epoch accounting (txpool/scheduler/select.go). */
module Scheduler {
  import opened Shards
  import opened Transactions
  import opened PooledTxs
  import opened Justitia
  import opened FeeTracker
  import opened Sums

  /** The queue length the scheduler assumes for the destination shard. */
  const ASSUMED_QUEUE := 600

  // ---------- what a transaction is worth to a shard ----------

  function AvgFee(avg: map<int, int>, shardID: int): int {
    if shardID in avg then avg[shardID] else 0
  }

  /** The average fees of the source and of the destination shard, as seen from shardID. */
  function Averages(tx: Tx, shardID: int, avg: map<int, int>): (int, int) {
    if tx.fromShard == shardID then (AvgFee(avg, shardID), AvgFee(avg, tx.toShard))
    else (AvgFee(avg, tx.fromShard), AvgFee(avg, shardID))
  }

  function Shares(tx: Tx, R: int, shardID: int, avg: map<int, int>): (int, int) {
    var e := Averages(tx, shardID, avg);
    Split2(FeeOf(tx), R, e.0, e.1)
  }

  /** The fee of an intra-shard transaction; the shard's own share of a cross-shard one. */
  function Score(tx: Tx, R: int, shardID: int, avg: map<int, int>): int {
    if !tx.isCrossShard then FeeOf(tx)
    else if tx.fromShard == shardID then Shares(tx, R, shardID, avg).0
    else Shares(tx, R, shardID, avg).1
  }

  /** The case of a cross-shard transaction: the shard's own average is the local one. */
  function CaseAt(tx: Tx, R: int, shardID: int, avg: map<int, int>): Case {
    var e := Averages(tx, shardID, avg);
    if tx.fromShard == shardID then Classify(Shares(tx, R, shardID, avg).0, e.0, e.1)
    else Classify(Shares(tx, R, shardID, avg).1, e.1, e.0)
  }

  /** In phase order: worth the average, worth having if there is room, deferred. */
  function Phase(tx: Tx, R: int, shardID: int, avg: map<int, int>): (p: nat)
    ensures 1 <= p <= 3
  {
    if !tx.isCrossShard then (if FeeOf(tx) >= AvgFee(avg, shardID) then 1 else 2)
    else match CaseAt(tx, R, shardID, avg) case Case1 => 1 case Case3 => 2 case Case2 => 3
  }

  /**
   * Source and destination put a cross-shard transaction in the same phase exactly when both averages are
   * positive or the total covers them; their scores are the two shares of one split.
   */
  lemma BothEndsSamePhaseIff(tx: Tx, R: int, avg: map<int, int>)
    requires tx.isCrossShard && tx.fromShard != tx.toShard && FeeOf(tx) + R >= 0
    requires forall s :: s in avg ==> avg[s] >= 0
    ensures var EA, EB := AvgFee(avg, tx.fromShard), AvgFee(avg, tx.toShard);
            && (Phase(tx, R, tx.fromShard, avg) == Phase(tx, R, tx.toShard, avg)
                <==> (EA >= 1 && EB >= 1) || FeeOf(tx) + R >= EA + EB)
            && (Score(tx, R, tx.fromShard, avg), Score(tx, R, tx.toShard, avg)) == Split2(FeeOf(tx), R, EA, EB)
  {
    BothEndsAgreeIff(FeeOf(tx), R, AvgFee(avg, tx.fromShard), AvgFee(avg, tx.toShard));
  }

  /** Under DestAvg the source shard holds a cross-shard transaction to the test an intra-shard one faces. */
  lemma DestAvgIsFair(tx: Tx, itx: Tx, shardID: int, avg: map<int, int>, customF: CustomF)
    requires tx.isCrossShard && tx.fromShard == shardID && !itx.isCrossShard && FeeOf(itx) == FeeOf(tx) >= 0
    requires forall s :: s in avg ==> avg[s] >= 0
    ensures var R := RAB(SubsidyDestAvg, AvgFee(avg, shardID), AvgFee(avg, tx.toShard), customF);
            Phase(tx, R, shardID, avg) == 1 <==> Phase(itx, 0, shardID, avg) == 1
  {
  }

  /** Paying more never puts a transaction in a later phase and never lowers its score. */
  lemma HigherFeeNeverRanksLower(tx: Tx, fee: int, R: int, shardID: int, avg: map<int, int>)
    requires FeeOf(tx) <= fee && (tx.isCrossShard ==> FeeOf(tx) + R >= 0)
    ensures Phase(tx.(fee := Some(fee)), R, shardID, avg) <= Phase(tx, R, shardID, avg)
    ensures Score(tx.(fee := Some(fee)), R, shardID, avg) >= Score(tx, R, shardID, avg)
  {
    var e := Averages(tx, shardID, avg);
    if tx.isCrossShard { SharesMonotone(FeeOf(tx), fee, R, e.0, e.1); }
  }

  // ---------- sorting ----------

  datatype TxWithScore = TxWithScore(tx: PooledTx, score: int, kase: Option<Case>)

  function RankOf(s: TxWithScore): Rank {
    Rank(s.score, s.tx.tx.arrivalTime)
  }

  /** The order that sort.Slice is asked for: nothing stands behind an entry it is ahead of. */
  predicate InRankOrder(s: seq<TxWithScore>) {
    forall i, j :: 0 <= i < j < |s| ==> !Ahead(RankOf(s[j]), RankOf(s[i]))
  }

  function Insert(s: seq<TxWithScore>, x: TxWithScore): seq<TxWithScore> {
    if s == [] || !Ahead(RankOf(x), RankOf(s[|s|-1])) then s + [x]
    else Insert(s[..|s|-1], x) + [s[|s|-1]]
  }

  lemma {:induction false} InsertIsPermutation(s: seq<TxWithScore>, x: TxWithScore)
    ensures multiset(Insert(s, x)) == multiset(s) + multiset{x}
  {
    if s != [] && Ahead(RankOf(x), RankOf(s[|s|-1])) {
      assert s == s[..|s|-1] + [s[|s|-1]];
      InsertIsPermutation(s[..|s|-1], x);
    }
  }

  lemma {:induction false} InsertKeepsOrder(s: seq<TxWithScore>, x: TxWithScore)
    requires InRankOrder(s)
    ensures InRankOrder(Insert(s, x))
  {
    if s != [] && Ahead(RankOf(x), RankOf(s[|s|-1])) {
      var init, last := s[..|s|-1], s[|s|-1];
      InsertKeepsOrder(init, x);
      InsertIsPermutation(init, x);
      forall y | y in Insert(init, x) ensures !Ahead(RankOf(last), RankOf(y)) {
        assert y in multiset(Insert(init, x));
        assert y in init || y == x;
      }
    }
  }

  function Sorted(s: seq<TxWithScore>): seq<TxWithScore> {
    if s == [] then [] else Insert(Sorted(s[..|s|-1]), s[|s|-1])
  }

  lemma {:induction false} SortedIsSort(s: seq<TxWithScore>)
    ensures multiset(Sorted(s)) == multiset(s) && InRankOrder(Sorted(s))
  {
    if s != [] {
      var init, last := s[..|s|-1], s[|s|-1];
      SortedIsSort(init);
      InsertSorts(init, Sorted(init), last);
      assert s == init + [last];
    }
  }

  lemma InsertSorts(s: seq<TxWithScore>, r: seq<TxWithScore>, x: TxWithScore)
    requires multiset(r) == multiset(s) && InRankOrder(r)
    ensures multiset(Insert(r, x)) == multiset(s + [x]) && InRankOrder(Insert(r, x))
  {
    InsertIsPermutation(r, x);
    InsertKeepsOrder(r, x);
  }

  /** sort.Slice: a permutation in the order asked for; callers may not rely on how ties fall. */
  method SortSlice(s: seq<TxWithScore>) returns (r: seq<TxWithScore>)
    ensures multiset(r) == multiset(s) && |r| == |s| && InRankOrder(r)
  {
    r := Sorted(s);
    SortedIsSort(s);
    assert |multiset(r)| == |multiset(s)|;
  }

  // ---------- three phases refine one sort ----------

  /** The phase of a scored entry in a shard whose average fee is EA. */
  function PhaseOf(s: TxWithScore, EA: int): nat {
    if s.tx.tx.isCrossShard then
      match s.kase
      case None => 0
      case Some(c) => (match c case Case1 => 1 case Case3 => 2 case Case2 => 3)
    else if s.score >= EA then 1
    else 2
  }

  /** a belongs in the block before b: an earlier phase or, in the same phase, a better rank. */
  predicate Outranks(a: TxWithScore, b: TxWithScore, EA: int) {
    PhaseOf(a, EA) < PhaseOf(b, EA) || (PhaseOf(a, EA) == PhaseOf(b, EA) && Ahead(RankOf(a), RankOf(b)))
  }

  predicate InBlockOrder(s: seq<TxWithScore>, EA: int) {
    forall i, j :: 0 <= i < j < |s| ==> !Outranks(s[j], s[i], EA)
  }

  /** Block order spelt out: earlier phases, then higher scores, then earlier arrivals. */
  lemma BlockOrderMeans(s: seq<TxWithScore>, EA: int)
    ensures InBlockOrder(s, EA) <==> forall i, j :: 0 <= i < j < |s| ==> InOrder(s[i], s[j], EA)
  {
  }

  predicate InOrder(a: TxWithScore, b: TxWithScore, EA: int) {
    var p, q := PhaseOf(a, EA), PhaseOf(b, EA);
    || p < q
    || (p == q && a.score > b.score)
    || (p == q && a.score == b.score && a.tx.tx.arrivalTime <= b.tx.tx.arrivalTime)
  }

  predicate AllInPhase(s: seq<TxWithScore>, p: nat, EA: int) {
    forall x :: x in s ==> PhaseOf(x, EA) == p
  }

  lemma PhasesConcatenate(p1: seq<TxWithScore>, p2: seq<TxWithScore>, p3: seq<TxWithScore>, EA: int)
    requires InRankOrder(p1) && InRankOrder(p2) && InRankOrder(p3)
    requires AllInPhase(p1, 1, EA) && AllInPhase(p2, 2, EA) && AllInPhase(p3, 3, EA)
    ensures InBlockOrder(p1 + p2 + p3, EA)
  {
  }

  /** Sorting a phase leaves every entry in it. */
  lemma PermutationKeepsPhase(s: seq<TxWithScore>, r: seq<TxWithScore>, p: nat, EA: int)
    requires multiset(r) == multiset(s) && AllInPhase(s, p, EA)
    ensures AllInPhase(r, p, EA)
  {
    forall x | x in r ensures PhaseOf(x, EA) == p {
      assert x in multiset(r);
    }
  }

  function Txs(s: seq<TxWithScore>): (r: seq<PooledTx>)
    ensures |r| == |s| && forall i :: 0 <= i < |r| ==> r[i] == s[i].tx
  {
    seq(|s|, i requires 0 <= i < |s| => s[i].tx)
  }

  function Room(n: nat, capacity: int): nat {
    if capacity <= 0 then 0 else if n < capacity then n else capacity
  }

  /** The entry at i of a scoring of txPool in which transaction i was granted the subsidy subs[i]. */
  predicate ScoredAt(s: TxWithScore, p: PooledTx, R: int, shardID: int, avg: map<int, int>) {
    && s.tx == p && s.score == Score(p.tx, R, shardID, avg)
    && s.kase == if p.tx.isCrossShard then Some(CaseAt(p.tx, R, shardID, avg)) else None
  }

  /** The phase an entry is filed under is the phase its transaction is worth. */
  lemma FiledUnderItsPhase(s: TxWithScore, p: PooledTx, R: int, shardID: int, avg: map<int, int>)
    requires ScoredAt(s, p, R, shardID, avg)
    ensures PhaseOf(s, AvgFee(avg, shardID)) == Phase(p.tx, R, shardID, avg)
  {
  }

  predicate IsScoring(
    scored: seq<TxWithScore>, txPool: seq<PooledTx>, subs: seq<int>, shardID: int, avg: map<int, int>)
  {
    && |scored| == |txPool| == |subs|
    && forall i :: 0 <= i < |scored| ==> ScoredAt(scored[i], txPool[i], subs[i], shardID, avg)
  }

  /** What the block gets: a prefix of an ordering of the whole pool, as long as the capacity allows. */
  ghost predicate IsSelection(
    selected: seq<PooledTx>, ordering: seq<TxWithScore>, scored: seq<TxWithScore>, capacity: int, EA: int)
  {
    && multiset(ordering) == multiset(scored) && |ordering| == |scored|
    && InBlockOrder(ordering, EA)
    && selected == Txs(ordering)[..Room(|ordering|, capacity)]
  }

  /** No transaction left in the pool outranks one that was selected, and none is lost or invented. */
  lemma NothingBetterLeftBehind(
    selected: seq<PooledTx>, ordering: seq<TxWithScore>, scored: seq<TxWithScore>, capacity: int, EA: int)
    requires IsSelection(selected, ordering, scored, capacity, EA)
    ensures var n := Room(|scored|, capacity);
            && |selected| == n
            && (forall i, j :: 0 <= i < n <= j < |ordering| ==> !Outranks(ordering[j], ordering[i], EA))
            && multiset(Txs(ordering)) == multiset(Txs(scored))
            && multiset(selected) + multiset(Txs(ordering)[n..]) == multiset(Txs(scored))
  {
    var n := Room(|scored|, capacity);
    PermutationOfTxs(ordering, scored);
    assert Txs(ordering) == selected + Txs(ordering)[n..];
  }

  /** What is selected comes from the pool, as much as there is room for. */
  lemma SelectedFromPool(
    selected: seq<PooledTx>, ordering: seq<TxWithScore>, scored: seq<TxWithScore>, subs: seq<int>,
    txPool: seq<PooledTx>, capacity: int, shardID: int, avg: map<int, int>)
    requires IsScoring(scored, txPool, subs, shardID, avg)
    requires IsSelection(selected, ordering, scored, capacity, AvgFee(avg, shardID))
    ensures multiset(selected) <= multiset(txPool) && |selected| == Room(|txPool|, capacity) && |selected| <= |ordering|
    ensures multiset(selected) + multiset(Txs(ordering)[|selected|..]) == multiset(txPool)
    ensures |selected| == if capacity <= 0 then 0 else if |txPool| < capacity then |txPool| else capacity
  {
    assert Txs(scored) == txPool;
    NothingBetterLeftBehind(selected, ordering, scored, capacity, AvgFee(avg, shardID));
  }

  lemma {:induction false} PermutationOfTxs(a: seq<TxWithScore>, b: seq<TxWithScore>)
    requires multiset(a) == multiset(b)
    ensures multiset(Txs(a)) == multiset(Txs(b))
    decreases |a|
  {
    if a == [] {
      assert |multiset(a)| == |multiset(b)|;
      assert Txs(a) == [] == Txs(b);
    } else {
      assert a[0] in multiset(b);
      var j :| 0 <= j < |b| && b[j] == a[0];
      TakeOut(a, 0);
      TakeOut(b, j);
      CancelOne(multiset(Without(a, 0)), multiset(Without(b, j)), a[0]);
      PermutationOfTxs(Without(a, 0), Without(b, j));
      TxsWithout(a, 0);
      TxsWithout(b, j);
    }
  }

  lemma TxsWithout(s: seq<TxWithScore>, j: nat)
    requires j < |s|
    ensures multiset(Txs(s)) == multiset(Txs(Without(s, j))) + multiset{s[j].tx}
  {
    TakeOut(Txs(s), j);
    assert Txs(Without(s, j)) == Without(Txs(s), j);
  }

  // ---------- the scheduler ----------

  /** The number a case is stored as. */
  function CaseNumber(c: Case): int {
    match c case Case1 => 1 case Case2 => 2 case Case3 => 3
  }

  class Scheduler {
    const shardID: int
    const feeTracker: Tracker
    const subsidyMode: SubsidyMode
    const customSubsidy: CustomF
    const mechanism: Mechanism?
    const congestion: real  // the power of the assumed utilization that Lagrangian mode multiplies with
    var epochSubsidyTotal: int
    var epochTxCount: nat

    constructor (
      shardID: int, feeTracker: Tracker, mode: SubsidyMode, customF: CustomF, mechanism: Mechanism?, congestion: real)
      requires mechanism == null <==> mode != SubsidyPID && mode != SubsidyLagrangian
      ensures this.shardID == shardID && this.feeTracker == feeTracker && subsidyMode == mode
      ensures customSubsidy == customF && this.mechanism == mechanism && this.congestion == congestion
      ensures epochSubsidyTotal == 0 && epochTxCount == 0
    {
      this.shardID, this.feeTracker, this.subsidyMode := shardID, feeTracker, mode;
      this.customSubsidy, this.mechanism, this.congestion := customF, mechanism, congestion;
      epochSubsidyTotal, epochTxCount := 0, 0;
    }

    predicate CountsEpochs() {
      mechanism != null && subsidyMode == SubsidyLagrangian
    }

    /** In Lagrangian mode the mechanism has a price to divide by. */
    predicate Configured(price: real) {
      mechanism != null ==> mechanism.Priced(price)
    }

    /** The shadow price in force; scoring does not change it. */
    function Lambda(): real
      reads mechanism
    {
      if mechanism == null then 1.0 else mechanism.lambda
    }

    /** The subsidy follows from the mode and the shadow price, except under PID, which depends on its clock. */
    ghost predicate SubsidyOk(R: int, EA: int, EB: int, price: real)
      requires Configured(price)
    {
      if mechanism == null then R == RAB(subsidyMode, EA, EB, customSubsidy)
      else
        match mechanism.mode
        case SubsidyPID =>
          && R >= 0
          && var lo, hi := mechanism.pid.minSubsidy, mechanism.pid.maxSubsidy;
             (EB >= 0 && lo <= hi ==> Truncated(EB as real * lo) <= R <= Truncated(EB as real * hi))
        case SubsidyLagrangian => R == LagrangianSubsidy(EB, congestion, price, mechanism.lagrangian.minLambda)
        case _ => R == RAB(mechanism.mode, EA, EB, mechanism.customF)
    }

    /** Epochs are counted and subsidies follow the Lagrangian formula. */
    predicate Lagrangian() {
      mechanism != null && subsidyMode == mechanism.mode == SubsidyLagrangian
    }

    /** The terms of the subsidies in force. */
    function CurrentTerms(): Terms
      requires mechanism != null
      reads feeTracker, mechanism
    {
      Terms(shardID, feeTracker.avg, congestion, mechanism.lambda, mechanism.lagrangian.minLambda)
    }

    /** The marks left on a cross-shard transaction describe one split of its fee and subsidy. */
    ghost predicate Marked(p: PooledTx, avg: map<int, int>, price: real)
      requires Configured(price)
      reads p
    {
      p.tx.isCrossShard ==>
        && SubsidyOk(p.subsidyR, Averages(p.tx, shardID, avg).0, Averages(p.tx, shardID, avg).1, price)
        && (p.utilityA, p.utilityB) == Shares(p.tx, p.subsidyR, shardID, avg)
        && (p.tx.fromShard == shardID ==> p.justitiaCase == CaseNumber(CaseAt(p.tx, p.subsidyR, shardID, avg)))
        && p.justitiaCase != 0
    }

    /**
     * What a transaction scored at either of its ends is granted without a mechanism, in terms of the two shards'
     * averages: which one counts as the source's and which as the destination's does not depend on the end.
     */
    lemma WhatIsGranted(p: PooledTx, avg: map<int, int>, price: real)
      requires Configured(price) && Marked(p, avg, price) && p.tx.isCrossShard && mechanism == null
      requires p.tx.fromShard == shardID || p.tx.toShard == shardID
      ensures var EA, EB := AvgFee(avg, p.tx.fromShard), AvgFee(avg, p.tx.toShard);
              && (subsidyMode == SubsidyNone ==> p.subsidyR == 0)
              && (subsidyMode == SubsidyDestAvg ==> p.subsidyR == EB)
              && (subsidyMode == SubsidySumAvg ==> p.subsidyR == EA + EB)
              && (subsidyMode == SubsidyExtremeFixed ==> p.subsidyR == 1_000_000_000_000_000_000)
              && (subsidyMode == SubsidyCustom && customSubsidy.Some? && customSubsidy.value(EA, EB).Some? ==>
                    p.subsidyR == customSubsidy.value(EA, EB).value)
              && (p.utilityA, p.utilityB) == Split2(FeeOf(p.tx), p.subsidyR, EA, EB)
    {
    }

    method SubsidyFor(EA: int, EB: int) returns (r: int)
      requires Configured(Lambda())
      modifies mechanism
      ensures Lambda() == old(Lambda()) && SubsidyOk(r, EA, EB, Lambda())
    {
      if mechanism != null {
        var elapsed: real := *;
        r := mechanism.CalculateRAB(EA, EB, ASSUMED_QUEUE, congestion, elapsed);
      } else {
        r := RAB(subsidyMode, EA, EB, customSubsidy);
      }
    }

    /** Scores one cross-shard transaction and marks it; the destination keeps a case the source has set. */
    method ScoreCTX(p: PooledTx, localAvg: int) returns (score: int, txCase: Case, ghost R: int)
      requires Configured(Lambda()) && p.tx.isCrossShard && localAvg == AvgFee(feeTracker.avg, shardID)
      modifies this, p, mechanism
      ensures Lambda() == old(Lambda()) && p.subsidyR == R && Marked(p, feeTracker.avg, Lambda())
      ensures score == Score(p.tx, R, shardID, feeTracker.avg) && txCase == CaseAt(p.tx, R, shardID, feeTracker.avg)
      ensures p.tx.fromShard != shardID && old(p.justitiaCase) != 0 ==> p.justitiaCase == old(p.justitiaCase)
      ensures epochSubsidyTotal == old(epochSubsidyTotal) + if CountsEpochs() then R else 0
      ensures epochTxCount == old(epochTxCount) + if CountsEpochs() then 1 else 0
    {
      var isSource := p.tx.fromShard == shardID;
      var EA, EB := localAvg, 0;
      if isSource {
        EB := feeTracker.GetAvgITXFee(p.tx.toShard);
      } else {
        EA := feeTracker.GetAvgITXFee(p.tx.fromShard);
        EB := feeTracker.GetAvgITXFee(shardID);
      }
      var r := SubsidyFor(EA, EB);
      R := r;
      p.subsidyR := r;
      if CountsEpochs() {
        epochSubsidyTotal := epochSubsidyTotal + r;
        epochTxCount := epochTxCount + 1;
      }
      var u := Split2(FeeOf(p.tx), r, EA, EB);
      p.utilityA, p.utilityB := u.0, u.1;
      if isSource {
        score, txCase := u.0, Classify(u.0, EA, EB);
        p.justitiaCase := CaseNumber(txCase);
      } else {
        score, txCase := u.1, Classify(u.1, EB, EA);
        if p.justitiaCase == 0 {
          p.justitiaCase := CaseNumber(txCase);
        }
      }
    }

    method ScoreOne(p: PooledTx, localAvg: int) returns (s: TxWithScore, ghost R: int)
      requires Configured(Lambda()) && localAvg == AvgFee(feeTracker.avg, shardID)
      modifies this, p, mechanism
      ensures ScoredAt(s, p, R, shardID, feeTracker.avg)
      ensures Lambda() == old(Lambda()) && Marked(p, feeTracker.avg, Lambda())
      ensures p.tx.isCrossShard ==> p.subsidyR == R
      ensures epochSubsidyTotal == old(epochSubsidyTotal) + if CountsEpochs() && p.tx.isCrossShard then R else 0
      ensures !p.tx.isCrossShard ==> unchanged(p)
    {
      R := 0;
      if p.tx.isCrossShard {
        var score, txCase;
        score, txCase, R := ScoreCTX(p, localAvg);
        s := TxWithScore(p, score, Some(txCase));
      } else {
        s := TxWithScore(p, FeeOf(p.tx), None);
      }
    }

    ghost predicate AllMarked(txPool: seq<PooledTx>, avg: map<int, int>, price: real)
      requires Configured(price)
      reads txPool
    {
      forall i :: 0 <= i < |txPool| ==> Marked(txPool[i], avg, price)
    }

    ghost predicate SubsidiesOk(txPool: seq<PooledTx>, subs: seq<int>, avg: map<int, int>, price: real)
      requires Configured(price)
    {
      && |subs| == |txPool|
      && forall i :: 0 <= i < |txPool| && txPool[i].tx.isCrossShard ==>
           SubsidyOk(subs[i], Averages(txPool[i].tx, shardID, avg).0, Averages(txPool[i].tx, shardID, avg).1, price)
    }

    lemma SubsidiesSnoc(txPool: seq<PooledTx>, subs: seq<int>, avg: map<int, int>, price: real, p: PooledTx, R: int)
      requires Configured(price) && SubsidiesOk(txPool, subs, avg, price)
      requires p.tx.isCrossShard ==> SubsidyOk(R, Averages(p.tx, shardID, avg).0, Averages(p.tx, shardID, avg).1, price)
      ensures SubsidiesOk(txPool + [p], subs + [R], avg, price)
    {
    }

    /** Scores the whole pool. Every cross-shard transaction in it counts towards the epoch, selected or not. */
    method ScoreAll(txPool: seq<PooledTx>, localAvg: int) returns (scored: seq<TxWithScore>, ghost subs: seq<int>)
      requires Configured(Lambda()) && localAvg == AvgFee(feeTracker.avg, shardID)
      modifies this, txPool, mechanism
      ensures IsScoring(scored, txPool, subs, shardID, feeTracker.avg)
      ensures Lambda() == old(Lambda()) && AllMarked(txPool, feeTracker.avg, Lambda())
      ensures SubsidiesOk(txPool, subs, feeTracker.avg, Lambda())
      ensures epochSubsidyTotal == old(epochSubsidyTotal) + if CountsEpochs() then Granted(txPool, subs) else 0
      ensures forall p :: p in txPool && !p.tx.isCrossShard ==> unchanged(p)
    {
      scored, subs := [], [];
      ghost var avg, price := feeTracker.avg, Lambda();
      for i := 0 to |txPool|
        invariant feeTracker.avg == avg && Lambda() == price
        invariant IsScoring(scored, txPool[..i], subs, shardID, avg)
        invariant forall j :: 0 <= j < i ==> Marked(txPool[j], avg, price)
        invariant SubsidiesOk(txPool[..i], subs, avg, price)
        invariant epochSubsidyTotal == old(epochSubsidyTotal) + if CountsEpochs() then Granted(txPool[..i], subs) else 0
        invariant forall p :: p in txPool && !p.tx.isCrossShard ==> unchanged(p)
      {
        scored, subs := ScoreNext(txPool, i, scored, subs, localAvg);
      }
      assert txPool[..|txPool|] == txPool;
    }

    /** Scores transaction i after the ones before it. */
    method ScoreNext(txPool: seq<PooledTx>, i: nat, scored0: seq<TxWithScore>, ghost subs0: seq<int>, localAvg: int)
      returns (scored: seq<TxWithScore>, ghost subs: seq<int>)
      requires i < |txPool| && Configured(Lambda()) && localAvg == AvgFee(feeTracker.avg, shardID)
      requires IsScoring(scored0, txPool[..i], subs0, shardID, feeTracker.avg)
      requires SubsidiesOk(txPool[..i], subs0, feeTracker.avg, Lambda())
      requires forall j :: 0 <= j < i ==> Marked(txPool[j], feeTracker.avg, Lambda())
      modifies this, txPool[i], mechanism
      ensures Lambda() == old(Lambda()) && forall j :: 0 <= j <= i ==> Marked(txPool[j], feeTracker.avg, Lambda())
      ensures IsScoring(scored, txPool[..i+1], subs, shardID, feeTracker.avg)
      ensures SubsidiesOk(txPool[..i+1], subs, feeTracker.avg, Lambda())
      ensures epochSubsidyTotal - old(epochSubsidyTotal)
           == if CountsEpochs() then Granted(txPool[..i+1], subs) - Granted(txPool[..i], subs0) else 0
      ensures !txPool[i].tx.isCrossShard ==> unchanged(txPool[i])
    {
      var p := txPool[i];
      ghost var R;
      var s;
      s, R := ScoreOne(p, localAvg);
      assert txPool[..i+1] == txPool[..i] + [p];
      GrantedSnoc(txPool[..i], subs0, p, R);
      ScoringSnoc(scored0, txPool[..i], subs0, shardID, feeTracker.avg, s, p, R);
      SubsidiesSnoc(txPool[..i], subs0, feeTracker.avg, Lambda(), p, R);
      scored, subs := scored0 + [s], subs0 + [R];
    }

    /** Selects transactions for a block and says, in ghost results, from which ordering of the pool. */
    method SelectForBlock(capacity: int, txPool: seq<PooledTx>)
      returns (selected: seq<PooledTx>,
               ghost scored: seq<TxWithScore>, ghost ordering: seq<TxWithScore>, ghost subs: seq<int>)
      requires Configured(Lambda())
      modifies this, txPool, mechanism
      ensures Lambda() == old(Lambda())
      ensures capacity <= 0 ==> selected == [] && epochSubsidyTotal == old(epochSubsidyTotal)
      ensures capacity > 0 ==>
                && IsScoring(scored, txPool, subs, shardID, feeTracker.avg)
                && AllMarked(txPool, feeTracker.avg, Lambda())
                && IsSelection(selected, ordering, scored, capacity, AvgFee(feeTracker.avg, shardID))
                && SubsidiesOk(txPool, subs, feeTracker.avg, Lambda())
                && epochSubsidyTotal == old(epochSubsidyTotal) + if CountsEpochs() then Granted(txPool, subs) else 0
      ensures capacity > 0 && Lagrangian() ==>
                && CurrentTerms().Priced()
                && epochSubsidyTotal == old(epochSubsidyTotal) + Grants(selected, CurrentTerms())
                                        + Grants(Txs(ordering)[|selected|..], CurrentTerms())
                && scored == ScoredPool(txPool, CurrentTerms())
    {
      if capacity <= 0 || |txPool| == 0 {
        selected, scored, ordering, subs := [], [], [], [];
        return;
      }
      var EA := feeTracker.GetAvgITXFee(shardID);
      var list;
      list, subs := ScoreAll(txPool, EA);
      scored := list;
      selected, ordering := TakeByPhase(list, capacity, EA);
      if Lagrangian() {
        EpochCountsPool(txPool, subs, scored, selected, ordering, capacity, feeTracker.avg, Lambda());
      }
    }

    /** In Lagrangian mode a scoring counts what is selected and what is left behind. */
    lemma EpochCountsPool(
      txPool: seq<PooledTx>, subs: seq<int>, scored: seq<TxWithScore>,
      selected: seq<PooledTx>, ordering: seq<TxWithScore>,
      capacity: int, avg: map<int, int>, price: real)
      requires Configured(price) && Lagrangian() && SubsidiesOk(txPool, subs, avg, price)
      requires IsScoring(scored, txPool, subs, shardID, avg)
      requires IsSelection(selected, ordering, scored, capacity, AvgFee(avg, shardID))
      ensures |selected| <= |ordering|
      ensures var t := Terms(shardID, avg, congestion, price, mechanism.lagrangian.minLambda);
              && t.Priced() && scored == ScoredPool(txPool, t)
              && Granted(txPool, subs) == Grants(selected, t) + Grants(Txs(ordering)[|selected|..], t)
    {
      var t := Terms(shardID, avg, congestion, price, mechanism.lagrangian.minLambda);
      NothingBetterLeftBehind(selected, ordering, scored, capacity, AvgFee(avg, shardID));
      assert Txs(scored) == txPool;
      GrantedIsGrants(txPool, subs, t);
      GrantsDivide(txPool, selected, Txs(ordering)[|selected|..], t);
    }

    method UpdateEpoch()
      modifies this, mechanism
      ensures CountsEpochs() ==>
                && mechanism.lambda == NextLambda(mechanism.lagrangian, old(mechanism.lambda),
                                                  Violation(old(epochSubsidyTotal), mechanism.maxInflation))
                && mechanism.totalSubsidy == 0 && epochSubsidyTotal == 0 && epochTxCount == 0
      ensures !CountsEpochs() ==>
                && epochSubsidyTotal == old(epochSubsidyTotal) && epochTxCount == old(epochTxCount)
                && (mechanism != null ==> unchanged(mechanism))
    {
      if mechanism == null || subsidyMode != SubsidyLagrangian {
        return;
      }
      mechanism.UpdateShadowPrice(epochSubsidyTotal, mechanism.maxInflation);
      mechanism.ResetEpoch();
      epochSubsidyTotal, epochTxCount := 0, 0;
    }
  }

  /** What a scoring grants the cross-shard transactions of a pool in total. */
  ghost function Granted(txPool: seq<PooledTx>, subs: seq<int>): int
    requires |txPool| == |subs|
  {
    if txPool == [] then 0
    else
      Granted(txPool[..|txPool|-1], subs[..|subs|-1])
      + if txPool[|txPool|-1].tx.isCrossShard then subs[|subs|-1] else 0
  }

  lemma GrantedSnoc(txPool: seq<PooledTx>, subs: seq<int>, p: PooledTx, R: int)
    requires |txPool| == |subs|
    ensures Granted(txPool + [p], subs + [R]) == Granted(txPool, subs) + if p.tx.isCrossShard then R else 0
  {
    assert (txPool + [p])[..|txPool|] == txPool && (subs + [R])[..|subs|] == subs;
  }

  // ---------- what an epoch in Lagrangian mode counts ----------

  /** Everything a Lagrangian subsidy depends on but the transaction. */
  datatype Terms = Terms(shardID: int, avg: map<int, int>, congestion: real, price: real, minLambda: real) {
    predicate Priced() {
      EffectivePrice(price, minLambda) != 0.0
    }

    /** The subsidy a cross-shard transaction is granted. */
    function Grant(tx: Tx): (g: int)
      requires Priced()
      ensures g >= 0
    {
      if tx.isCrossShard then LagrangianSubsidy(Averages(tx, shardID, avg).1, congestion, price, minLambda) else 0
    }
  }

  function Grants(s: seq<PooledTx>, t: Terms): int
    requires t.Priced()
  {
    SumOf(Contents(s), (tx: Tx) => if t.Priced() then t.Grant(tx) else 0)
  }

  /** The scoring of a pool, which the terms settle. */
  function ScoredPool(pool: seq<PooledTx>, t: Terms): (r: seq<TxWithScore>)
    requires t.Priced()
    ensures |r| == |pool| && forall i :: 0 <= i < |r| ==> r[i] == ScoredEntry(pool[i], t)
  {
    seq(|pool|, i requires 0 <= i < |pool| => ScoredEntry(pool[i], t))
  }

  function ScoredEntry(p: PooledTx, t: Terms): (s: TxWithScore)
    requires t.Priced()
    ensures ScoredAt(s, p, t.Grant(p.tx), t.shardID, t.avg)
  {
    TxWithScore(p, Score(p.tx, t.Grant(p.tx), t.shardID, t.avg),
                if p.tx.isCrossShard then Some(CaseAt(p.tx, t.Grant(p.tx), t.shardID, t.avg)) else None)
  }

  lemma GrantsSnoc(s: seq<PooledTx>, p: PooledTx, t: Terms)
    requires t.Priced()
    ensures Grants(s + [p], t) == Grants(s, t) + t.Grant(p.tx)
  {
    assert Contents(s + [p]) == Contents(s) + [p.tx];
    SumOfSnoc(Contents(s), p.tx, (tx: Tx) => if t.Priced() then t.Grant(tx) else 0);
  }

  /** Nothing is granted exactly if every transaction is granted nothing. */
  lemma {:induction false} NoGrantsIff(s: seq<PooledTx>, t: Terms)
    requires t.Priced()
    ensures Grants(s, t) >= 0
    ensures Grants(s, t) == 0 <==> forall p :: p in s ==> t.Grant(p.tx) == 0
  {
    if s != [] {
      var init, p := s[..|s|-1], s[|s|-1];
      NoGrantsIff(init, t);
      GrantsSnoc(init, p, t);
      assert s == init + [p];
    }
  }

  /** The grants of a pool are those of its parts, however it is divided. */
  lemma GrantsDivide(pool: seq<PooledTx>, a: seq<PooledTx>, b: seq<PooledTx>, t: Terms)
    requires t.Priced() && multiset(pool) == multiset(a) + multiset(b)
    ensures Grants(pool, t) == Grants(a, t) + Grants(b, t)
  {
    var f := (tx: Tx) => if t.Priced() then t.Grant(tx) else 0;
    ContentsPermutation(pool, a + b);
    SumOfMultiset(Contents(pool), f);
    SumOfMultiset(Contents(a + b), f);
    assert Contents(a + b) == Contents(a) + Contents(b);
    SumOfConcat(Contents(a), Contents(b), f);
  }

  /** Subsidies that follow the Lagrangian formula add up to the grants. */
  lemma {:induction false} GrantedIsGrants(txPool: seq<PooledTx>, subs: seq<int>, t: Terms)
    requires t.Priced() && |subs| == |txPool|
    requires forall i :: 0 <= i < |txPool| && txPool[i].tx.isCrossShard ==> subs[i] == t.Grant(txPool[i].tx)
    ensures Granted(txPool, subs) == Grants(txPool, t)
  {
    if txPool != [] {
      var n := |txPool| - 1;
      GrantedIsGrants(txPool[..n], subs[..n], t);
      GrantsSnoc(txPool[..n], txPool[n], t);
      assert txPool == txPool[..n] + [txPool[n]];
    }
  }

  lemma ScoringSnoc(
    scored: seq<TxWithScore>, txPool: seq<PooledTx>, subs: seq<int>, shardID: int, avg: map<int, int>,
    s: TxWithScore, p: PooledTx, R: int)
    requires IsScoring(scored, txPool, subs, shardID, avg) && ScoredAt(s, p, R, shardID, avg)
    ensures IsScoring(scored + [s], txPool + [p], subs + [R], shardID, avg)
  {
  }

  /** Divides the entries into the three phases, each in the order of the list. */
  method Divide(scored: seq<TxWithScore>, EA: int)
    returns (phase1: seq<TxWithScore>, phase2: seq<TxWithScore>, phase3: seq<TxWithScore>)
    requires forall s :: s in scored ==> PhaseOf(s, EA) != 0
    ensures AllInPhase(phase1, 1, EA) && AllInPhase(phase2, 2, EA) && AllInPhase(phase3, 3, EA)
    ensures multiset(phase1) + multiset(phase2) + multiset(phase3) == multiset(scored)
  {
    phase1, phase2, phase3 := [], [], [];
    for i := 0 to |scored|
      invariant AllInPhase(phase1, 1, EA) && AllInPhase(phase2, 2, EA) && AllInPhase(phase3, 3, EA)
      invariant multiset(phase1) + multiset(phase2) + multiset(phase3) == multiset(scored[..i])
    {
      var s := scored[i];
      assert scored[..i+1] == scored[..i] + [s];
      assert PhaseOf(s, EA) != 0;
      if s.tx.tx.isCrossShard {
        match s.kase.value
        case Case1 => phase1 := phase1 + [s];
        case Case2 => phase3 := phase3 + [s];
        case Case3 => phase2 := phase2 + [s];
      } else if s.score >= EA {
        phase1 := phase1 + [s];
      } else {
        phase2 := phase2 + [s];
      }
    }
    assert scored[..|scored|] == scored;
  }

  /** Appends the transactions of one sorted phase until the block is full. */
  method Fill(selected: seq<PooledTx>, phase: seq<TxWithScore>, capacity: nat) returns (r: seq<PooledTx>)
    requires |selected| <= capacity
    ensures r == selected + Txs(phase)[..Room(|phase|, capacity - |selected|)]
  {
    r := selected;
    for i := 0 to |phase|
      invariant r == selected + Txs(phase)[..i] && |r| <= capacity
    {
      if |r| >= capacity {
        return;
      }
      r := r + [phase[i].tx];
    }
  }

  /** A block filled from a and then from b is filled from a followed by b. */
  lemma FillContinues(selected: seq<PooledTx>, a: seq<TxWithScore>, b: seq<TxWithScore>, capacity: nat)
    requires selected == Txs(a)[..Room(|a|, capacity)]
    ensures |selected| <= capacity
    ensures selected + Txs(b)[..Room(|b|, capacity - |selected|)] == Txs(a + b)[..Room(|a + b|, capacity)]
  {
  }

  lemma PhasesArePermutation(
    scored: seq<TxWithScore>, p1: seq<TxWithScore>, p2: seq<TxWithScore>, p3: seq<TxWithScore>,
    o1: seq<TxWithScore>, o2: seq<TxWithScore>, o3: seq<TxWithScore>)
    requires multiset(p1) + multiset(p2) + multiset(p3) == multiset(scored)
    requires multiset(o1) == multiset(p1) && multiset(o2) == multiset(p2) && multiset(o3) == multiset(p3)
    ensures multiset(o1 + o2 + o3) == multiset(scored) && |o1 + o2 + o3| == |scored|
  {
    assert multiset(o1 + o2 + o3) == multiset(scored);
    assert |multiset(o1 + o2 + o3)| == |o1 + o2 + o3| && |multiset(scored)| == |scored|;
  }

  lemma PhasesAreSelection(
    scored: seq<TxWithScore>, p1: seq<TxWithScore>, p2: seq<TxWithScore>, p3: seq<TxWithScore>,
    o1: seq<TxWithScore>, o2: seq<TxWithScore>, o3: seq<TxWithScore>, EA: int)
    requires AllInPhase(p1, 1, EA) && AllInPhase(p2, 2, EA) && AllInPhase(p3, 3, EA)
    requires multiset(p1) + multiset(p2) + multiset(p3) == multiset(scored)
    requires multiset(o1) == multiset(p1) && multiset(o2) == multiset(p2) && multiset(o3) == multiset(p3)
    requires InRankOrder(o1) && InRankOrder(o2) && InRankOrder(o3)
    ensures InBlockOrder(o1 + o2 + o3, EA)
    ensures multiset(o1 + o2 + o3) == multiset(scored) && |o1 + o2 + o3| == |scored|
  {
    PermutationKeepsPhase(p1, o1, 1, EA);
    PermutationKeepsPhase(p2, o2, 2, EA);
    PermutationKeepsPhase(p3, o3, 3, EA);
    PhasesConcatenate(o1, o2, o3, EA);
    PhasesArePermutation(scored, p1, p2, p3, o1, o2, o3);
  }

  /** Three phases, each sorted only if the block still has room when it is reached. */
  method TakeByPhase(scored: seq<TxWithScore>, capacity: int, EA: int)
    returns (selected: seq<PooledTx>, ghost ordering: seq<TxWithScore>)
    requires capacity > 0 && forall s :: s in scored ==> PhaseOf(s, EA) != 0
    ensures IsSelection(selected, ordering, scored, capacity, EA)
  {
    var phase1, phase2, phase3 := Divide(scored, EA);
    ghost var p1, p2, p3 := phase1, phase2, phase3;
    phase1 := SortSlice(phase1);
    selected := Fill([], phase1, capacity);
    ghost var o1, full := phase1, selected;
    ghost var o2 := Sorted(phase2);
    SortedIsSort(phase2);
    if |selected| < capacity {
      phase2 := SortSlice(phase2);
      selected := Fill(selected, phase2, capacity);
      o2 := phase2;
    }
    FillContinues(full, o1, o2, capacity);
    full := selected;
    ghost var o3 := Sorted(phase3);
    SortedIsSort(phase3);
    if |selected| < capacity && |phase3| > 0 {
      phase3 := SortSlice(phase3);
      selected := Fill(selected, phase3, capacity);
      o3 := phase3;
    }
    FillContinues(full, o1 + o2, o3, capacity);
    PhasesAreSelection(scored, p1, p2, p3, o1, o2, o3, EA);
    ordering := o1 + o2 + o3;
  }
}
