/** What execution does to one account: per transaction, per block and over a whole run (chain/blockchain.go). */
module Accounts {
  import opened Shards
  import opened Transactions
  import opened Chain
  import opened Relay

  /** The sender lives in this shard and has not paid elsewhere. */
  predicate PaysHere(cfg: Config, sid: nat, tx: Tx, a: Address)
    requires cfg.Valid()
  {
    !tx.relayed && cfg.ShardOf(tx.sender) == sid && a == tx.sender
  }

  predicate PaidHere(cfg: Config, sid: nat, tx: Tx, a: Address)
    requires cfg.Valid()
  {
    cfg.ShardOf(tx.recipient) == sid && a == tx.recipient
  }

  /** What a transaction that goes through moves on account a. */
  function Share(cfg: Config, sid: nat, tx: Tx, a: Address): int
    requires cfg.Valid()
  {
    (if PaidHere(cfg, sid, tx, a) then tx.value else 0) - (if PaysHere(cfg, sid, tx, a) then tx.value else 0)
  }

  /** A sender charged here holds less than the value; an account without an entry holds the initial balance. */
  predicate ShortOfFunds(cfg: Config, sid: nat, st: Ledger, tx: Tx)
    requires cfg.Valid()
  {
    && PaysHere(cfg, sid, tx, tx.sender)
    && (if tx.sender in st then st[tx.sender].balance else INIT_BALANCE) < tx.value
  }

  /**
   * One transaction, account by account. If the sender is charged here and short of funds, nothing changes at all.
   * Otherwise the sender charged here pays the value, the recipient living here receives it, and no other account
   * changes. An account opened on the way gets the transaction's number in the block as its nonce.
   */
  lemma WhoPaysAndIsPaid(cfg: Config, sid: nat, st: Ledger, tx: Tx, i: nat, a: Address)
    requires cfg.Valid()
    ensures ShortOfFunds(cfg, sid, st, tx) ==> ExecTx(cfg, sid, st, tx, i) == st
    ensures !ShortOfFunds(cfg, sid, st, tx) ==>
              var after := ExecTx(cfg, sid, st, tx, i);
              && (a in after <==> a in st || PaysHere(cfg, sid, tx, a) || PaidHere(cfg, sid, tx, a))
              && (a in after ==>
                    after[a] == Account(if a in st then st[a].nonce else i,
                                        (if a in st then st[a].balance else INIT_BALANCE) + Share(cfg, sid, tx, a)))
  {
  }

  /** Between two accounts of one shard, on an empty ledger: the one pays what the other receives. */
  lemma TransferInsideShard(cfg: Config, sid: nat, tx: Tx)
    requires cfg.Valid() && !tx.relayed && tx.sender != tx.recipient && 0 <= tx.value <= INIT_BALANCE
    requires cfg.ShardOf(tx.sender) == cfg.ShardOf(tx.recipient) == sid
    ensures ExecAll(cfg, sid, map[], [tx])
         == map[tx.sender := Account(0, INIT_BALANCE - tx.value), tx.recipient := Account(0, INIT_BALANCE + tx.value)]
  {
    assert [tx][..0] == [];
  }

  /** What a body moves on account a; a transaction short of funds at its turn moves nothing. */
  function NetFor(cfg: Config, sid: nat, st: Ledger, txs: seq<Tx>, a: Address): int
    requires cfg.Valid()
  {
    if txs == [] then 0
    else
      var init, tx := txs[..|txs|-1], txs[|txs|-1];
      NetFor(cfg, sid, st, init, a)
      + if ShortOfFunds(cfg, sid, ExecAll(cfg, sid, st, init), tx) then 0 else Share(cfg, sid, tx, a)
  }

  /** A body changes an account by the sum of what its transactions move on it. */
  lemma {:induction false} BalanceAfterBody(cfg: Config, sid: nat, st: Ledger, txs: seq<Tx>, a: Address)
    requires cfg.Valid()
    ensures BalanceOf(ExecAll(cfg, sid, st, txs), a)
         == (if a in st then st[a].balance else INIT_BALANCE) + NetFor(cfg, sid, st, txs, a)
  {
    if txs != [] {
      var init, tx := txs[..|txs|-1], txs[|txs|-1];
      BalanceAfterBody(cfg, sid, st, init, a);
      WhoPaysAndIsPaid(cfg, sid, ExecAll(cfg, sid, st, init), tx, |init|, a);
    }
  }

  /** An account nobody has touched holds 10^44. */
  lemma Untouched(st: Ledger, a: Address)
    requires a !in st
    ensures BalanceOf(st, a) == 100_000_000_000_000_000_000_000_000_000_000_000_000_000_000
  {
  }

  // ---------- over a run ----------

  /** What the blocks committed by shard s in the first k steps move on account a. */
  function NetOverRun(cfg: Config, ws: seq<World>, acts: seq<Action>, k: nat, s: nat, a: Address): int
    requires cfg.Valid() && |ws| == |acts| + 1 && k <= |acts|
  {
    if k == 0 then 0
    else
      NetOverRun(cfg, ws, acts, k - 1, s, a)
      + if acts[k-1] == Commit(s) && s < |ws[k-1].shards| && ws[k-1].shards[s].pending.Some?
        then NetFor(cfg, s, ws[k-1].shards[s].accounts, ws[k-1].shards[s].pending.value, a) else 0
  }

  /** In every run an account's balance is the initial one plus what its shard's committed blocks moved on it. */
  lemma {:induction false} BalanceOverRun(cfg: Config, ws: seq<World>, acts: seq<Action>, k: nat, s: nat, a: Address)
    requires IsRun(cfg, ws, acts) && k <= |acts| && s < cfg.shardNum
    ensures |ws[k].shards| == cfg.shardNum
    ensures BalanceOf(ws[k].shards[s].accounts, a) == INIT_BALANCE + NetOverRun(cfg, ws, acts, k, s, a)
  {
    MoneyConserved(cfg, ws, acts, k);
    if k > 0 {
      BalanceOverRun(cfg, ws, acts, k - 1, s, a);
      MoneyConserved(cfg, ws, acts, k - 1);
      assert StepAt(cfg, ws, acts, k - 1);
      BalanceOverStep(cfg, ws[k-1], ws[k], acts[k-1], s, a);
    }
  }

  lemma BalanceOverStep(cfg: Config, w: World, w': World, act: Action, s: nat, a: Address)
    requires cfg.Valid() && WellRouted(cfg, w) && Step(cfg, w, w', act) && s < |w.shards| == |w'.shards|
    ensures BalanceOf(w'.shards[s].accounts, a) == BalanceOf(w.shards[s].accounts, a)
              + if act == Commit(s) && w.shards[s].pending.Some?
                then NetFor(cfg, s, w.shards[s].accounts, w.shards[s].pending.value, a) else 0
  {
    if act.Commit? {
      CommittedAccounts(cfg, w, w', act.s);
      if act.s == s { BalanceAfterBody(cfg, s, w.shards[s].accounts, w.shards[s].pending.value, a); }
    } else {
      OthersKeepAccounts(cfg, w, w', act);
    }
  }
}
