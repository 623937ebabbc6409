/** The supervisor's injector feeds the relay protocol (supervisor/committee/committee_relay.go). */
module Injection {
  import opened Shards
  import opened Transactions
  import opened Chain
  import opened Relay
  import opened Committee
  import Scheduler

  predicate Fresh(txs: seq<Tx>) {
    forall i :: 0 <= i < |txs| ==> !txs[i].relayed
  }

  predicate Fits(tx: Tx, sid: nat, shardNum: nat)
    requires shardNum > 0
  {
    !tx.relayed && Addr2Shard(tx.sender, shardNum) == sid
  }

  lemma {:induction false} RoutedToFits(txs: seq<Tx>, sid: nat, shardNum: nat)
    requires shardNum > 0 && forall i :: 0 <= i < |txs| ==> Fits(txs[i], txs[i].fromShard, shardNum)
    ensures forall i :: 0 <= i < |RoutedTo(txs, sid)| ==> Fits(RoutedTo(txs, sid)[i], sid, shardNum)
  {
    if txs != [] { RoutedToFits(txs[..|txs|-1], sid, shardNum); }
  }

  lemma {:induction false} RoundFitsShards(txs: seq<Tx>, n: nat, shardNum: nat)
    requires shardNum > 0 && forall i :: 0 <= i < |txs| ==> Fits(txs[i], txs[i].fromShard, shardNum)
    ensures forall k :: 0 <= k < |Round(txs, n)| ==> MessageFits(Round(txs, n)[k], shardNum)
  {
    if n > 0 {
      RoundFitsShards(txs, n - 1, shardNum);
      RoutedToFits(txs, n - 1, shardNum);
    }
  }

  predicate MessageFits(m: InjectTxs, shardNum: nat)
    requires shardNum > 0
  {
    forall i :: 0 <= i < |m.txs| ==> Fits(m.txs[i], m.toShardID, shardNum)
  }

  lemma {:induction false} RoundsFitShards(txs: seq<Tx>, shardNum: nat, injectSpeed: nat)
    requires shardNum > 0 && injectSpeed > 0
    requires forall i :: 0 <= i < |txs| ==> Fits(txs[i], txs[i].fromShard, shardNum)
    ensures forall k :: 0 <= k < |Rounds(txs, shardNum, injectSpeed)| ==>
              MessageFits(Rounds(txs, shardNum, injectSpeed)[k], shardNum)
    decreases |txs|
  {
    if txs != [] {
      var n := if |txs| < injectSpeed then |txs| else injectSpeed;
      RoundFitsShards(txs[..n], shardNum, shardNum);
      RoundsFitShards(txs[n..], shardNum, injectSpeed);
    }
  }

  /**
   * Every message the injector sends for a list of fresh transactions is an injection step of the relay
   * protocol, so the protocol's theorems hold of the runs it starts.
   */
  lemma InjectorFollowsProtocol(
    txlist: seq<Tx>, shardNum: nat, injectSpeed: nat, clock: seq<nat>, k: nat, w: World, enableJustitia: bool)
    requires shardNum > 0 && injectSpeed > 0 && |clock| == |txlist| && Fresh(txlist)
    requires k < |Rounds(MarkedAll(txlist, shardNum, clock), shardNum, injectSpeed)|
    ensures var m := Rounds(MarkedAll(txlist, shardNum, clock), shardNum, injectSpeed)[k];
            var msg := Message(m.toShardID, m.txs, false);
            InjectStep(PlacedBy(map[], shardNum, enableJustitia), w, w.(net := w.net + multiset{msg}), msg)
  {
    var all := MarkedAll(txlist, shardNum, clock);
    RoundsFitShards(all, shardNum, injectSpeed);
    RoundsFit(all, shardNum, injectSpeed);
    assert MessageFits(Rounds(all, shardNum, injectSpeed)[k], shardNum);
  }

  /**
   * The marks the injector sets are what the schedulers of both shards go by: a transaction between two shards
   * carries a non-zero fee and lands in the same phase at both ends under the stated condition.
   */
  lemma InjectedTxBothEnds(tx: Tx, shardNum: nat, now: nat, R: int, avg: map<int, int>)
    requires shardNum > 0 && Addr2Shard(tx.sender, shardNum) != Addr2Shard(tx.recipient, shardNum)
    requires FeeOf(Marked(tx, shardNum, now)) + R >= 0 && forall s :: s in avg ==> avg[s] >= 0
    ensures FeeOf(Marked(tx, shardNum, now)) != 0
    ensures var m := Marked(tx, shardNum, now);
            var src, dst := Addr2Shard(tx.sender, shardNum), Addr2Shard(tx.recipient, shardNum);
            var EA, EB := Scheduler.AvgFee(avg, src), Scheduler.AvgFee(avg, dst);
            Scheduler.Phase(m, R, src, avg) == Scheduler.Phase(m, R, dst, avg)
            <==> (EA >= 1 && EB >= 1) || FeeOf(m) + R >= EA + EB
  {
    Scheduler.BothEndsSamePhaseIff(Marked(tx, shardNum, now), R, avg);
  }
}
