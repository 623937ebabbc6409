/** The first-in first-out transaction pool (core/txpool.go). */
module TxPools {
  import opened Shards
  import opened Transactions

  /** Every transaction is stamped by the clock as it reads when its turn comes. */
  function StampAll(txs: seq<Tx>, clock: seq<nat>): (r: seq<Tx>)
    requires |clock| == |txs|
    ensures |r| == |txs| && forall i :: 0 <= i < |r| ==> r[i] == Stamped(txs[i], clock[i])
  {
    seq(|txs|, i requires 0 <= i < |txs| => Stamped(txs[i], clock[i]))
  }

  class TxPool {
    var txQueue: seq<Tx>
    var relayPool: Option<map<nat, seq<Tx>>>  // None is the nil map left by ClearRelayPool

    constructor ()
      ensures txQueue == [] && relayPool == Some(map[])
    {
      txQueue, relayPool := [], Some(map[]);
    }

    method AddTxs2Pool(txs: seq<Tx>, clock: seq<nat>)
      requires |clock| == |txs|
      modifies this`txQueue
      ensures txQueue == old(txQueue) + StampAll(txs, clock)
    {
      for i := 0 to |txs|
        invariant txQueue == old(txQueue) + StampAll(txs, clock)[..i]
      {
        txQueue := txQueue + [Stamped(txs[i], clock[i])];
      }
    }

    /** The block takes the oldest transactions; nothing else changes place. */
    method PackTxs(maxTxs: nat) returns (packed: seq<Tx>)
      modifies this`txQueue
      ensures packed + txQueue == old(txQueue)
      ensures |packed| == if |old(txQueue)| < maxTxs then |old(txQueue)| else maxTxs
    {
      var txNum := maxTxs;
      if |txQueue| < txNum {
        txNum := |txQueue|;
      }
      packed, txQueue := txQueue[..txNum], txQueue[txNum..];
    }

    method InitRelayPool()
      modifies this`relayPool
      ensures relayPool == Some(map[])
    {
      relayPool := Some(map[]);
    }

    /** Writing to the nil map would stop the program, so the pool has to be initialized again after clearing. */
    method AddRelayTx(tx: Tx, shardID: nat)
      requires relayPool.Some?
      modifies this`relayPool
      ensures relayPool == Some(old(relayPool).value[shardID := old(GetRelayPoolTxs(shardID)) + [tx]])
    {
      var lists := relayPool.value;
      if shardID !in lists {
        lists := lists[shardID := []];
      }
      lists := lists[shardID := lists[shardID] + [tx]];
      assert lists == old(relayPool).value[shardID := old(GetRelayPoolTxs(shardID)) + [tx]];
      relayPool := Some(lists);
    }

    function GetRelayPoolTxs(shardID: nat): seq<Tx>
      reads this
    {
      if relayPool.Some? && shardID in relayPool.value then relayPool.value[shardID] else []
    }

    method ClearRelayPool()
      modifies this`relayPool
      ensures relayPool == None
    {
      relayPool := None;
    }
  }
}
