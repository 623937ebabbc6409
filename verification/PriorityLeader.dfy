/** A shard's leader over the priority pool, as a participant of the relay protocol (chain/blockchain.go). */
module PriorityLeader {
  import opened Shards
  import opened Transactions
  import opened PooledTxs
  import opened TxPools
  import opened Chain
  import opened Relay
  import opened PriorityPool

  /**
   * A packing round on the pool's contents: with the selected transactions counted in, the pool holds what it
   * held and what arrived, exactly when no unselected entry shared a hash with a selected one.
   */
  lemma RoundConservesIff(
    was: seq<PooledTx>, all: seq<PooledTx>, selected: seq<PooledTx>, added: seq<PooledTx>, items: seq<PooledTx>)
    requires multiset(all) == multiset(was) && multiset(selected) <= multiset(was)
    requires multiset(items) == multiset(added) + multiset(Others(all, Hashes(selected)))
    ensures multiset(Contents(items)) + multiset(Contents(selected))
            == multiset(Contents(was)) + multiset(Contents(added))
       <==> !HashShared(multiset(was), selected)
  {
    RoundOutcome(was, all, selected, added, multiset(added), items);
    var now, before := items + selected, was + added;
    ContentsAppend(items, selected);
    ContentsAppend(was, added);
    if HashShared(multiset(was), selected) {
      NeverMore(was, all, selected, added, items);
      assert multiset(now) < multiset(before);
      FewerIfLess(now, before);
      assert |multiset(Contents(now))| < |multiset(Contents(before))|;
    } else {
      ContentsPermutation(now, before);
    }
  }

  lemma ContentsAppend(a: seq<PooledTx>, b: seq<PooledTx>)
    ensures multiset(Contents(a + b)) == multiset(Contents(a)) + multiset(Contents(b))
  {
    assert Contents(a + b) == Contents(a) + Contents(b);
  }

  lemma NeverMore(
    was: seq<PooledTx>, all: seq<PooledTx>, selected: seq<PooledTx>, added: seq<PooledTx>, items: seq<PooledTx>)
    requires multiset(all) == multiset(was) && multiset(selected) <= multiset(was)
    requires multiset(items) == multiset(added) + multiset(Others(all, Hashes(selected)))
    ensures multiset(items) + multiset(selected) <= multiset(was) + multiset(added)
  {
    forall p: PooledTx ensures (multiset(items) + multiset(selected))[p] <= (multiset(was) + multiset(added))[p] {
      OthersCount(all, Hashes(selected), p);
      if p.tx.txHash !in Hashes(selected) { NotSelected(selected, p); }
    }
  }

  lemma FewerIfLess<T>(a: seq<T>, b: seq<T>)
    requires multiset(a) < multiset(b)
    ensures |a| < |b|
  {
    var rest := multiset(b) - multiset(a);
    assert multiset(b) == multiset(a) + rest && rest != multiset{};
    assert |multiset(b)| == |multiset(a)| + |rest|;
  }

  /** The shard has taken a message in and then proposed the body. */
  predicate Proposed(cfg: Config, before: Shard, m: Message, clock: seq<nat>, after: Shard, body: seq<Tx>)
    requires |clock| == |m.txs|
  {
    after == AfterPropose(AfterDeliver(cfg, before, m, clock), body)
  }

  /** The leader's state: the current accounts, and the block proposed but not yet committed. */
  class PriorityLeader {
    const cfg: Config
    const shardID: nat
    const txpool: PriorityTxPool
    var accounts: Ledger
    var pending: Option<seq<Tx>>
    var pendingRoot: Ledger

    ghost predicate Valid()
      reads this, txpool, txpool.txQueue
    {
      && cfg.Valid() && shardID < cfg.shardNum && txpool.Valid()
      && (pending.Some? ==> pendingRoot == ExecAll(cfg, shardID, accounts, pending.value))
    }

    ghost function AsShard(): Shard
      reads this, txpool, txpool.txQueue
    {
      Shard(accounts, multiset(Contents(txpool.txQueue.items)), pending)
    }

    constructor (cfg: Config, shardID: nat, txpool: PriorityTxPool)
      requires cfg.Valid() && shardID < cfg.shardNum && txpool.Valid()
      ensures Valid() && this.cfg == cfg && this.shardID == shardID && this.txpool == txpool
      ensures accounts == map[] && pending == None
    {
      this.cfg, this.shardID, this.txpool := cfg, shardID, txpool;
      accounts, pending, pendingRoot := map[], None, map[];
    }

    /**
     * A new block from the scheduler's choice, while the message m arrives: a delivery and a proposal of the
     * relay protocol exactly when no unselected entry shared a hash with a selected one.
     */
    method GenerateBlock(blockSize: nat, m: Message, clock: seq<nat>)
      returns (body: seq<Tx>, ghost selected: seq<PooledTx>)
      requires Valid() && pending == None && |clock| == |m.txs|
      requires txpool.scheduler != null && txpool.scheduler.Configured(txpool.scheduler.Lambda())
      modifies this`pending, this`pendingRoot
      modifies txpool.txQueue, txpool.txQueue.items, txpool.scheduler, txpool.scheduler.mechanism
      ensures Valid() && body == Contents(selected) && CanPropose(old(AsShard()), body)
      ensures Proposed(cfg, old(AsShard()), m, clock, AsShard(), body)
         <==> !HashShared(old(multiset(txpool.txQueue.items)), selected)
      ensures DistinctHashes(old(multiset(txpool.txQueue.items))) ==>
                !HashShared(old(multiset(txpool.txQueue.items)), selected)
    {
      ghost var sh := AsShard();
      body, selected := Pack(blockSize, m, clock, sh);
      ghost var after := Shard(accounts, multiset(Contents(txpool.txQueue.items)), Some(body));
      Execute(body);
      assert AsShard() == after;
    }

    /** The block's part: the state after the body is kept for the commit. */
    method Execute(body: seq<Tx>)
      requires cfg.Valid() && shardID < cfg.shardNum
      modifies this`pending, this`pendingRoot
      ensures pending == Some(body) && pendingRoot == ExecAll(cfg, shardID, accounts, body)
    {
      pendingRoot := GetUpdateStatusTrie(cfg, shardID, accounts, body);
      pending := Some(body);
    }

    /** The pool's part of a new block. */
    method Pack(blockSize: nat, m: Message, clock: seq<nat>, ghost sh: Shard)
      returns (body: seq<Tx>, ghost selected: seq<PooledTx>)
      requires txpool.Valid() && |clock| == |m.txs|
      requires sh.pool == multiset(Contents(txpool.txQueue.items)) && sh.pending == None
      requires txpool.scheduler != null && txpool.scheduler.Configured(txpool.scheduler.Lambda())
      modifies txpool.txQueue, txpool.txQueue.items, txpool.scheduler, txpool.scheduler.mechanism
      ensures txpool.Valid() && body == Contents(selected) && multiset(body) <= sh.pool
      ensures Proposed(cfg, sh, m, clock,
                       Shard(sh.accounts, multiset(Contents(txpool.txQueue.items)), Some(body)), body)
         <==> !HashShared(old(multiset(txpool.txQueue.items)), selected)
      ensures DistinctHashes(old(multiset(txpool.txQueue.items))) ==>
                !HashShared(old(multiset(txpool.txQueue.items)), selected)
    {
      ghost var was := txpool.txQueue.items;
      var arrivals := Arrived(cfg, m.txs, m.relay);
      var packed, left, added, drained, _, _, _ := txpool.PackTxsWithScheduler(blockSize, arrivals, clock);
      selected, body := packed, Contents(packed);
      RoundIsStepIff(cfg, sh, m, clock, was, drained, packed, left, added, txpool.txQueue.items);
    }
  }

  /** What a packing round leaves in the pool, as a delivery and a proposal. */
  lemma RoundIsStepIff(
    cfg: Config, sh: Shard, m: Message, clock: seq<nat>, was: seq<PooledTx>, all: seq<PooledTx>,
    selected: seq<PooledTx>, left: seq<PooledTx>, added: seq<PooledTx>, items: seq<PooledTx>)
    requires |clock| == |m.txs| == |added| && sh.pool == multiset(Contents(was)) && sh.pending == None
    requires multiset(all) == multiset(was) && multiset(selected) + multiset(left) == multiset(all)
    requires forall i :: 0 <= i < |added| ==> added[i].tx == Stamped(Arrived(cfg, m.txs, m.relay)[i], clock[i])
    requires multiset(items) == multiset(added) + multiset(Others(all, Hashes(selected)))
    ensures multiset(Contents(selected)) <= sh.pool
    ensures Proposed(cfg, sh, m, clock, Shard(sh.accounts, multiset(Contents(items)), Some(Contents(selected))),
                     Contents(selected))
       <==> !HashShared(multiset(was), selected)
  {
    RoundConservesIff(was, all, selected, added, items);
    assert Contents(added) == StampAll(Arrived(cfg, m.txs, m.relay), clock);
    SelectedContents(was, selected, left);
    TakenOut(multiset(Contents(items)), multiset(Contents(selected)), AfterDeliver(cfg, sh, m, clock).pool);
    ProposedIff(sh, AfterDeliver(cfg, sh, m, clock), multiset(Contents(items)), Contents(selected));
  }

  lemma SelectedContents(was: seq<PooledTx>, selected: seq<PooledTx>, left: seq<PooledTx>)
    requires multiset(selected) + multiset(left) == multiset(was)
    ensures multiset(Contents(selected)) <= multiset(Contents(was))
  {
    ContentsAppend(selected, left);
    ContentsPermutation(selected + left, was);
  }

  /** Only the pool tells whether a block was proposed. */
  lemma ProposedIff(before: Shard, delivered: Shard, pool: multiset<Tx>, body: seq<Tx>)
    requires before.pending == None && delivered == before.(pool := delivered.pool)
    ensures Shard(before.accounts, pool, Some(body)) == AfterPropose(delivered, body)
       <==> pool == delivered.pool - multiset(body)
  {
  }

  lemma TakenOut(after: multiset<Tx>, body: multiset<Tx>, before: multiset<Tx>)
    requires body <= before
    ensures after == before - body <==> after + body == before
  {
    assert after == after + body - body && before == before - body + body;
  }
}
