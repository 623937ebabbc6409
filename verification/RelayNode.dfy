/**
 * The leader of a shard in relay mode: its block chain state, its pool and what it does when a block is
 * generated and committed. Each method performs one step of the protocol in module Relay.
 */
module RelayNode {
  import opened Shards
  import opened Sums
  import opened Transactions
  import opened TxPools
  import opened Chain
  import opened Relay
  import opened FeeTracker

  datatype Kind = InnerShard | Relay1 | Relay2

  function KindOf(cfg: Config, s: nat, tx: Tx): Kind
    requires cfg.Valid()
  {
    if cfg.ShardOf(tx.recipient) != s then Relay1 else if tx.relayed then Relay2 else InnerShard
  }

  /** A transaction as it is reported: marked if it leaves the shard. */
  function ReportedTx(cfg: Config, s: nat, tx: Tx): Tx
    requires cfg.Valid()
  {
    if KindOf(cfg, s, tx) == Relay1 then Relayed(cfg, tx) else tx
  }

  function ReportedAs(cfg: Config, s: nat, tx: Tx, kind: Kind): seq<Tx>
    requires cfg.Valid()
  {
    if KindOf(cfg, s, tx) == kind then [ReportedTx(cfg, s, tx)] else []
  }

  /** The transactions of one kind, in block order, as they are reported. */
  function Reported(cfg: Config, s: nat, body: seq<Tx>, kind: Kind): seq<Tx>
    requires cfg.Valid()
  {
    if body == [] then []
    else Reported(cfg, s, body[..|body|-1], kind) + ReportedAs(cfg, s, body[|body|-1], kind)
  }

  lemma ReportedSnoc(cfg: Config, s: nat, body: seq<Tx>, tx: Tx)
    requires cfg.Valid()
    ensures forall kind ::
              Reported(cfg, s, body + [tx], kind) == Reported(cfg, s, body, kind) + ReportedAs(cfg, s, tx, kind)
  {
    assert (body + [tx])[..|body|] == body;
  }

  /** The whole body as it is reported. */
  function AsReported(cfg: Config, s: nat, body: seq<Tx>): seq<Tx>
    requires cfg.Valid()
  {
    if body == [] then [] else AsReported(cfg, s, body[..|body|-1]) + [ReportedTx(cfg, s, body[|body|-1])]
  }

  /** The three lists together hold every executed transaction exactly as often as the block does. */
  lemma {:induction false} ReportedOnce(cfg: Config, s: nat, body: seq<Tx>)
    requires cfg.Valid()
    ensures multiset(Reported(cfg, s, body, InnerShard)) + multiset(Reported(cfg, s, body, Relay1))
            + multiset(Reported(cfg, s, body, Relay2)) == multiset(AsReported(cfg, s, body))
  {
    if body != [] {
      var init, tx := body[..|body|-1], body[|body|-1];
      ReportedOnce(cfg, s, init);
      Regroup(Reported(cfg, s, init, InnerShard), Reported(cfg, s, init, Relay1), Reported(cfg, s, init, Relay2),
              ReportedAs(cfg, s, tx, InnerShard), ReportedAs(cfg, s, tx, Relay1), ReportedAs(cfg, s, tx, Relay2));
      ReportedAsOne(cfg, s, tx);
    }
  }

  lemma ReportedAsOne(cfg: Config, s: nat, tx: Tx)
    requires cfg.Valid()
    ensures multiset(ReportedAs(cfg, s, tx, InnerShard)) + multiset(ReportedAs(cfg, s, tx, Relay1))
            + multiset(ReportedAs(cfg, s, tx, Relay2)) == multiset{ReportedTx(cfg, s, tx)}
  {
  }

  lemma Regroup(a: seq<Tx>, b: seq<Tx>, c: seq<Tx>, x: seq<Tx>, y: seq<Tx>, z: seq<Tx>)
    ensures multiset(a + x) + multiset(b + y) + multiset(c + z)
         == multiset(a) + multiset(b) + multiset(c) + (multiset(x) + multiset(y) + multiset(z))
  {
  }

  /** Transaction by transaction: as it was executed, or marked on its way if its recipient lives elsewhere. */
  lemma {:induction false} HowReported(cfg: Config, s: nat, body: seq<Tx>)
    requires cfg.Valid()
    ensures |AsReported(cfg, s, body)| == |body|
    ensures forall i :: 0 <= i < |body| ==>
              AsReported(cfg, s, body)[i]
                == if cfg.ShardOf(body[i].recipient) != s then Relayed(cfg, body[i]) else body[i]
  {
    if body != [] { HowReported(cfg, s, body[..|body|-1]); }
  }

  /**
   * Each list holds its kind only: transactions inside the shard, transactions leaving it, and transactions that have
   * come from elsewhere. With ReportedOnce and HowReported each list holds all of its kind.
   */
  lemma {:induction false} ReportedWhere(cfg: Config, s: nat, body: seq<Tx>)
    requires cfg.Valid()
    ensures forall tx :: tx in Reported(cfg, s, body, InnerShard) ==> cfg.ShardOf(tx.recipient) == s && !tx.relayed
    ensures forall tx :: tx in Reported(cfg, s, body, Relay1) ==> cfg.ShardOf(tx.recipient) != s && tx.relayed
    ensures forall tx :: tx in Reported(cfg, s, body, Relay2) ==> cfg.ShardOf(tx.recipient) == s && tx.relayed
  {
    if body != [] { ReportedWhere(cfg, s, body[..|body|-1]); }
  }

  /** A shard's average fee, sent to another shard after a block. */
  datatype FeeInfo = FeeInfo(shardID: nat, avgFee: int, to: nat)

  /** The fees a block is averaged over: positive ones of transactions that stay in their shard. */
  function ItxFees(body: seq<Tx>): seq<Option<int>> {
    if body == [] then []
    else
      var tx := body[|body|-1];
      ItxFees(body[..|body|-1])
      + if !tx.isCrossShard && !tx.relayed && tx.fee.Some? && tx.fee.value > 0 then [tx.fee] else []
  }

  /** One copy for each of the first n shards other than s. */
  function FeeInfos(s: nat, avgFee: int, n: nat): seq<FeeInfo> {
    if n == 0 then [] else FeeInfos(s, avgFee, n - 1) + if n - 1 == s then [] else [FeeInfo(s, avgFee, n - 1)]
  }

  /** How often an amount is averaged: as often as a transaction that stays in its shard pays it, if it is positive. */
  lemma {:induction false} WhichFeesAveraged(body: seq<Tx>, fee: Option<int>)
    ensures multiset(ItxFees(body))[fee]
         == SumOf(body, (tx: Tx) => if tx.fee == fee && fee.Some? && fee.value > 0 && !tx.isCrossShard && !tx.relayed
                                    then 1 else 0)
  {
    if body != [] { WhichFeesAveraged(body[..|body|-1], fee); }
  }

  /** Every other shard is told once. */
  lemma {:induction false} OthersToldOnce(s: nat, avgFee: int, n: nat)
    ensures forall m :: m in FeeInfos(s, avgFee, n) <==> m.to < n && m == FeeInfo(s, avgFee, m.to) && m.to != s
    ensures |FeeInfos(s, avgFee, n)| == if s < n then n - 1 else n
  {
    if n > 0 { OthersToldOnce(s, avgFee, n - 1); }
  }

  lemma RoutedNext(cfg: Config, s: nat, body: seq<Tx>, i: nat)
    requires cfg.Valid() && i < |body| && AllRouted(cfg, s, body[..i])
    ensures AllRouted(cfg, s, body[..i+1]) <==> Routed(cfg, s, body[i])
    ensures !Routed(cfg, s, body[i]) ==> !AllRouted(cfg, s, body)
    ensures body[..i+1] == body[..i] + [body[i]]
  {
    if AllRouted(cfg, s, body[..i+1]) {
      assert Routed(cfg, s, body[..i+1][i]);
    }
  }

  class Leader {
    const cfg: Config
    const shardID: nat
    const txpool: TxPool
    const feeTracker: Tracker
    var seqIDMap: map<nat, nat>
    var accounts: Ledger
    var pending: Option<seq<Tx>>
    var pendingRoot: Ledger

    ghost predicate Valid()
      reads this
    {
      && cfg.Valid() && shardID < cfg.shardNum
      && (pending.Some? ==> pendingRoot == ExecAll(cfg, shardID, accounts, pending.value))
    }

    ghost function AsShard(): Shard
      reads this, txpool
    {
      Shard(accounts, multiset(txpool.txQueue), pending)
    }

    constructor (cfg: Config, shardID: nat, feeTracker: Tracker)
      requires cfg.Valid() && shardID < cfg.shardNum
      ensures Valid() && this.cfg == cfg && this.shardID == shardID && fresh(txpool) && this.feeTracker == feeTracker
      ensures seqIDMap == map[]
      ensures AsShard() == Shard(map[], multiset{}, None)
    {
      this.cfg, this.shardID, this.feeTracker, seqIDMap := cfg, shardID, feeTracker, map[];
      txpool := new TxPool();
      accounts, pending, pendingRoot := map[], None, map[];
    }

    /** A relay message: its transactions are marked and enter the pool, and the sender's height is noted. */
    method HandleRelay(txs: seq<Tx>, senderShardID: nat, senderSeq: nat, clock: seq<nat>)
      requires Valid() && |clock| == |txs|
      modifies this`seqIDMap, txpool`txQueue
      ensures Valid() && AsShard() == AfterDeliver(cfg, old(AsShard()), Message(shardID, txs, true), clock)
      ensures seqIDMap == old(seqIDMap)[senderShardID := senderSeq]
    {
      var marked: seq<Tx> := [];
      for i := 0 to |txs|
        invariant marked == Arrived(cfg, txs, true)[..i]
      {
        var tx := txs[i];
        if cfg.enableJustitia && tx.isCrossShard {
          tx := tx.(isRelay2 := true);
        }
        marked := marked + [tx];
      }
      assert marked == Arrived(cfg, txs, true);
      txpool.AddTxs2Pool(marked, clock);
      seqIDMap := seqIDMap[senderShardID := senderSeq];
    }

    /** An injection message: its transactions enter the pool. */
    method HandleInjectTx(txs: seq<Tx>, clock: seq<nat>)
      requires Valid() && |clock| == |txs|
      modifies txpool`txQueue
      ensures Valid() && AsShard() == AfterDeliver(cfg, old(AsShard()), Message(shardID, txs, false), clock)
    {
      assert Arrived(cfg, txs, false) == txs;
      txpool.AddTxs2Pool(txs, clock);
    }

    /** Another shard's average fee. */
    method HandleFeeInfoSync(m: FeeInfo)
      requires feeTracker.Valid()
      modifies feeTracker
      ensures feeTracker.Valid() && feeTracker.avg == old(feeTracker.avg)[m.shardID := m.avgFee]
    {
      feeTracker.UpdateRemoteShardFee(m.shardID, Some(m.avgFee));
    }

    /** A new block: the packed transactions and the state after executing them. */
    method GenerateBlock(blockSize: nat) returns (body: seq<Tx>)
      requires Valid() && pending == None
      modifies this`pending, this`pendingRoot, txpool
      ensures Valid() && CanPropose(old(AsShard()), body) && AsShard() == AfterPropose(old(AsShard()), body)
      ensures body <= old(txpool.txQueue)
      ensures |body| == if |old(txpool.txQueue)| < blockSize then |old(txpool.txQueue)| else blockSize
    {
      body := txpool.PackTxs(blockSize);
      assert multiset(old(txpool.txQueue)) == multiset(body) + multiset(txpool.txQueue);
      pendingRoot := GetUpdateStatusTrie(cfg, shardID, accounts, body);
      pending := Some(body);
    }

    /**
     * The pending block is committed. The two stops on an "incorrect tx" happen exactly when the body is not
     * routed to this shard; otherwise every other shard gets one message with its recipients' transactions. With
     * incentives on, the fee window moves first and every other shard is told the shard's average.
     */
    method HandleInCommit()
      returns (panicked: bool, sent: seq<Message>, inner: seq<Tx>, relay1: seq<Tx>, relay2: seq<Tx>,
               feeInfos: seq<FeeInfo>)
      requires Valid() && pending.Some? && feeTracker.Valid()
      modifies this`accounts, this`pending, txpool`relayPool, feeTracker
      ensures Valid() && feeTracker.Valid()
      ensures feeInfos
           == if cfg.enableJustitia then FeeInfos(shardID, feeTracker.GetAvgITXFee(shardID), cfg.shardNum) else []
      ensures !cfg.enableJustitia || ItxFees(old(pending.value)) == [] ==> unchanged(feeTracker)
      ensures cfg.enableJustitia && ItxFees(old(pending.value)) != [] ==> WindowMoved(ItxFees(old(pending.value)))
      ensures panicked <==> !AllRouted(cfg, shardID, old(pending.value))
      ensures !panicked ==> AsShard() == AfterCommit(cfg, shardID, old(AsShard()))
      ensures !panicked ==> sent == Outbox(cfg, shardID, old(pending.value), cfg.shardNum)
      ensures !panicked ==> IsReport(old(pending.value), inner, relay1, relay2)
    {
      var body := pending.value;
      accounts, pending := pendingRoot, None;
      sent, feeInfos := [], [];
      if cfg.enableJustitia {
        UpdateFeeTracker(body);
        feeInfos := BroadcastFeeInfo();
      }
      panicked, inner, relay1, relay2 := ClassifyBody(body);
      if !panicked {
        sent := RelayMsgSend(body);
      }
    }

    /** The shard's window took in one more block average; no other shard's average changed. */
    twostate predicate WindowMoved(new fees: seq<Option<int>>)
      reads feeTracker
    {
      var h := old(feeTracker.HistoryOf(shardID)) + [Mean(CountedFees(fees))];
      && feeTracker.history == old(feeTracker.history)[shardID := h]
      && feeTracker.avg == old(feeTracker.avg)[shardID := Mean(Last(h, feeTracker.windowSize))]
    }

    method UpdateFeeTracker(body: seq<Tx>)
      requires feeTracker.Valid()
      modifies feeTracker
      ensures feeTracker.Valid() && (ItxFees(body) == [] ==> unchanged(feeTracker))
      ensures ItxFees(body) != [] ==> WindowMoved(ItxFees(body))
    {
      var itxFees: seq<Option<int>> := [];
      for i := 0 to |body|
        invariant itxFees == ItxFees(body[..i])
      {
        assert body[..i+1][..i] == body[..i];
        var tx := body[i];
        if !tx.isCrossShard && !tx.relayed {
          if tx.fee.Some? && tx.fee.value > 0 {
            itxFees := itxFees + [tx.fee];
          }
        }
      }
      assert body[..|body|] == body;
      if |itxFees| > 0 {
        feeTracker.OnBlockFinalized(shardID, itxFees);
      }
    }

    method BroadcastFeeInfo() returns (feeInfos: seq<FeeInfo>)
      ensures feeInfos == FeeInfos(shardID, feeTracker.GetAvgITXFee(shardID), cfg.shardNum)
    {
      feeInfos := [];
      for sid := 0 to cfg.shardNum
        invariant feeInfos == FeeInfos(shardID, feeTracker.GetAvgITXFee(shardID), sid)
      {
        if sid != shardID {
          feeInfos := feeInfos + [FeeInfo(shardID, feeTracker.GetAvgITXFee(shardID), sid)];
        }
      }
    }

    /** The loop over the committed body, filling the relay pool. */
    method ClassifyBody(body: seq<Tx>) returns (panicked: bool, inner: seq<Tx>, relay1: seq<Tx>, relay2: seq<Tx>)
      requires Valid()
      modifies txpool`relayPool
      ensures panicked <==> !AllRouted(cfg, shardID, body)
      ensures !panicked ==> PoolHolds(body)
      ensures !panicked ==> IsReport(body, inner, relay1, relay2)
      ensures txpool.relayPool.Some?
    {
      txpool.InitRelayPool();
      panicked, inner, relay1, relay2 := false, [], [], [];
      for i := 0 to |body|
        invariant txpool.relayPool.Some?
        invariant AllRouted(cfg, shardID, body[..i]) && PoolHolds(body[..i])
        invariant IsReport(body[..i], inner, relay1, relay2)
      {
        var tx := body[i];
        var ssid, rsid := cfg.ShardOf(tx.sender), cfg.ShardOf(tx.recipient);
        RoutedNext(cfg, shardID, body, i);
        if !tx.relayed && ssid != shardID {
          panicked := true;
          return;
        }
        if tx.relayed && rsid != shardID {
          panicked := true;
          return;
        }
        inner, relay1, relay2 := FileTx(tx, body[..i], inner, relay1, relay2);
      }
      assert body[..|body|] == body;
    }

    /** One checked transaction goes to its list, and to the relay pool if it leaves the shard. */
    method FileTx(tx: Tx, ghost done: seq<Tx>, inner0: seq<Tx>, relay10: seq<Tx>, relay20: seq<Tx>)
      returns (inner: seq<Tx>, relay1: seq<Tx>, relay2: seq<Tx>)
      requires Valid() && PoolHolds(done) && IsReport(done, inner0, relay10, relay20) && txpool.relayPool.Some?
      modifies txpool`relayPool
      ensures txpool.relayPool.Some?
      ensures PoolHolds(done + [tx]) && IsReport(done + [tx], inner, relay1, relay2)
    {
      inner, relay1, relay2 := inner0, relay10, relay20;
      var rsid := cfg.ShardOf(tx.recipient);
      ReportedSnoc(cfg, shardID, done, tx);
      assert (done + [tx])[..|done|] == done;
      OutgoingSteps(done + [tx]);
      if rsid != shardID {
        var marked := tx.(relayed := true);
        if cfg.enableJustitia {
          marked := marked.(isCrossShard := true);
        }
        relay1 := relay1 + [marked];
        txpool.AddRelayTx(marked, rsid);
      } else if tx.relayed {
        relay2 := relay2 + [tx];
      } else {
        inner := inner + [tx];
      }
    }

    ghost predicate PoolHolds(body: seq<Tx>)
      requires cfg.Valid()
      reads txpool
    {
      forall t: nat :: t != shardID ==> txpool.GetRelayPoolTxs(t) == Outgoing(cfg, body, t)
    }

    ghost predicate IsReport(body: seq<Tx>, inner: seq<Tx>, relay1: seq<Tx>, relay2: seq<Tx>)
      requires cfg.Valid()
    {
      && inner == Reported(cfg, shardID, body, InnerShard)
      && relay1 == Reported(cfg, shardID, body, Relay1)
      && relay2 == Reported(cfg, shardID, body, Relay2)
    }

    lemma OutgoingSteps(body: seq<Tx>)
      requires cfg.Valid() && body != []
      ensures forall t: nat :: Outgoing(cfg, body, t)
                == if cfg.ShardOf(body[|body|-1].recipient) == t
                   then Outgoing(cfg, body[..|body|-1], t) + [Relayed(cfg, body[|body|-1])]
                   else Outgoing(cfg, body[..|body|-1], t)
    {
      forall t: nat { OutgoingStep(cfg, body, t); }
    }

    /** One relay message per other shard; then the relay pool is emptied. */
    method RelayMsgSend(ghost body: seq<Tx>) returns (sent: seq<Message>)
      requires Valid() && PoolHolds(body)
      modifies txpool`relayPool
      ensures sent == Outbox(cfg, shardID, body, cfg.shardNum)
    {
      sent := [];
      for sid := 0 to cfg.shardNum
        invariant sent == Outbox(cfg, shardID, body, sid)
      {
        if sid == shardID {
          continue;
        }
        sent := sent + [Message(sid, txpool.GetRelayPoolTxs(sid), true)];
      }
      txpool.ClearRelayPool();
    }
  }
}
