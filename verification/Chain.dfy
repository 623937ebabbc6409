/** Account states and the execution of a block body (core/account.go, chain/blockchain.go). */
module Chain {
  import opened Shards
  import opened Sums
  import opened Transactions

  const INIT_BALANCE := 100_000_000_000_000_000_000_000_000_000_000_000_000_000_000

  datatype Account = Account(nonce: nat, balance: int)

  /** The state trie of one shard. Accounts without an entry hold INIT_BALANCE. */
  type Ledger = map<Address, Account>

  /** A run without re-partition: where accounts live is fixed and every shard agrees on it. */
  datatype Config = Config(shardNum: nat, place: Address -> nat, enableJustitia: bool) {
    ghost predicate Valid() {
      shardNum > 0 && forall a :: place(a) < shardNum
    }

    function ShardOf(a: Address): (s: nat)
      requires Valid()
      ensures s < shardNum
    {
      place(a)
    }
  }

  /** The placement given by a partition map; with an empty map, the default one. */
  function PlacedBy(pm: AccountMap, shardNum: nat, enableJustitia: bool): (cfg: Config)
    requires shardNum > 0 && forall a :: a in pm ==> pm[a] < shardNum
    ensures cfg.Valid() && cfg.shardNum == shardNum && forall a :: cfg.ShardOf(a) == Fetch(pm, a, shardNum)
  {
    Config(shardNum, (a: Address) => Fetch(pm, a, shardNum), enableJustitia)
  }

  /** An account object while a transaction is being applied. */
  class AccountState {
    var nonce: nat
    var balance: int

    constructor (a: Account)
      ensures nonce == a.nonce && balance == a.balance
    {
      nonce, balance := a.nonce, a.balance;
    }

    method Deduct(val: int) returns (ok: bool)
      modifies this`balance
      ensures ok <==> old(balance) >= val
      ensures balance == if ok then old(balance) - val else old(balance)
    {
      if balance < val {
        return false;
      }
      balance := balance - val;
      return true;
    }

    method Deposit(val: int)
      modifies this`balance
      ensures balance == old(balance) + val
    {
      balance := balance + val;
    }

    function Encode(): Account
      reads this
    {
      Account(nonce, balance)
    }
  }

  function Opened(st: Ledger, a: Address, i: nat): Account {
    if a in st then st[a] else Account(i, INIT_BALANCE)
  }

  function BalanceOf(st: Ledger, a: Address): int {
    Opened(st, a, 0).balance
  }

  /** The sender is charged in this shard. */
  predicate Charged(cfg: Config, sid: nat, tx: Tx)
    requires cfg.Valid()
  {
    !tx.relayed && cfg.ShardOf(tx.sender) == sid
  }

  predicate Refused(cfg: Config, sid: nat, st: Ledger, tx: Tx)
    requires cfg.Valid()
  {
    Charged(cfg, sid, tx) && BalanceOf(st, tx.sender) < tx.value
  }

  /** The effect of transaction number i of a block. */
  function ExecTx(cfg: Config, sid: nat, st: Ledger, tx: Tx, i: nat): Ledger
    requires cfg.Valid()
  {
    if Refused(cfg, sid, st, tx) then st
    else
      var paid := if Charged(cfg, sid, tx) then Moved(st, tx.sender, i, -tx.value) else st;
      if cfg.ShardOf(tx.recipient) == sid then Moved(paid, tx.recipient, i, tx.value) else paid
  }

  function Moved(st: Ledger, a: Address, i: nat, amount: int): Ledger {
    var acc := Opened(st, a, i);
    st[a := Account(acc.nonce, acc.balance + amount)]
  }

  function ExecAll(cfg: Config, sid: nat, st: Ledger, txs: seq<Tx>): Ledger
    requires cfg.Valid()
  {
    if txs == [] then st
    else ExecTx(cfg, sid, ExecAll(cfg, sid, st, txs[..|txs|-1]), txs[|txs|-1], |txs| - 1)
  }

  /** One round of the program's loop, on account objects read from and written back to the trie. */
  method ApplyTx(cfg: Config, sid: nat, st0: Ledger, tx: Tx, i: nat) returns (st: Ledger, cnt: nat)
    requires cfg.Valid()
    ensures st == ExecTx(cfg, sid, st0, tx, i)
    ensures cnt == 0 ==> st == st0
  {
    st, cnt := st0, 0;
    if !tx.relayed && cfg.ShardOf(tx.sender) == sid {
      var sender := new AccountState(Opened(st, tx.sender, i));
      if sender.balance < tx.value {
        return;
      }
      var ok := sender.Deduct(tx.value);
      st := st[tx.sender := sender.Encode()];
      cnt := cnt + 1;
    }
    if cfg.ShardOf(tx.recipient) == sid {
      var recipient := new AccountState(Opened(st, tx.recipient, i));
      recipient.Deposit(tx.value);
      st := st[tx.recipient := recipient.Encode()];
      cnt := cnt + 1;
    }
  }

  /** The program's loop over a block body; when no account changed, the old state is kept. */
  method GetUpdateStatusTrie(cfg: Config, sid: nat, st0: Ledger, txs: seq<Tx>) returns (st: Ledger)
    requires cfg.Valid()
    ensures st == ExecAll(cfg, sid, st0, txs)
  {
    st := st0;
    var cnt := 0;
    for i := 0 to |txs|
      invariant st == ExecAll(cfg, sid, st0, txs[..i])
      invariant cnt >= 0 && (cnt == 0 ==> st == st0)
    {
      assert txs[..i+1][..i] == txs[..i];
      var c;
      st, c := ApplyTx(cfg, sid, st, txs[i], i);
      cnt := cnt + c;
    }
    assert txs[..|txs|] == txs;
    if cnt == 0 {
      st := st0;
    }
  }

  // ---------- what execution does to the money of a shard ----------

  ghost function Excess(st: Ledger): Address -> int {
    (a: Address) => BalanceOf(st, a) - INIT_BALANCE
  }

  /** The shard's total balance relative to every account holding INIT_BALANCE. */
  ghost function Delta(st: Ledger): int {
    SumSet(st.Keys, Excess(st))
  }

  lemma DeltaMoved(st: Ledger, a: Address, i: nat, amount: int)
    ensures Delta(Moved(st, a, i, amount)) == Delta(st) + amount
  {
    var after := Moved(st, a, i, amount);
    SumSetCongruence(st.Keys - {a}, Excess(st), Excess(after));
    SumSetRemove(after.Keys, Excess(after), a);
    assert after.Keys - {a} == st.Keys - {a};
    if a in st {
      SumSetRemove(st.Keys, Excess(st), a);
    } else {
      assert st.Keys - {a} == st.Keys;
    }
  }

  /** In a shard's pool belong its own senders' fresh transactions and relayed ones to its own recipients. */
  predicate Routed(cfg: Config, sid: nat, tx: Tx)
    requires cfg.Valid()
  {
    if tx.relayed then cfg.ShardOf(tx.recipient) == sid else cfg.ShardOf(tx.sender) == sid
  }

  predicate AllRouted(cfg: Config, sid: nat, txs: seq<Tx>)
    requires cfg.Valid()
  {
    forall i :: 0 <= i < |txs| ==> Routed(cfg, sid, txs[i])
  }

  /** Value on its way: a relayed transaction has been charged and not yet paid out. */
  function Underway(tx: Tx): int {
    if tx.relayed then tx.value else 0
  }

  /** Value that leaves shard sid with this transaction. */
  function Outbound(cfg: Config, sid: nat): Tx -> int
    requires cfg.Valid()
  {
    (tx: Tx) => if cfg.ShardOf(tx.recipient) != sid then tx.value else 0
  }

  /** The summed value of the cross-shard transfers of a body whose deduction is refused. */
  function RefusedCross(cfg: Config, sid: nat, st: Ledger, txs: seq<Tx>): int
    requires cfg.Valid()
  {
    if txs == [] then 0
    else
      var init, tx := txs[..|txs|-1], txs[|txs|-1];
      RefusedCross(cfg, sid, st, init)
      + if Refused(cfg, sid, ExecAll(cfg, sid, st, init), tx) then Outbound(cfg, sid)(tx) else 0
  }

  /**
   * Executing a well routed body: the shard gains what relayed transactions pay out and loses what it sends
   * away, except that a refused cross-shard transfer is sent away without being charged.
   */
  lemma {:induction false} ExecutionBalance(cfg: Config, sid: nat, st: Ledger, txs: seq<Tx>)
    requires cfg.Valid() && AllRouted(cfg, sid, txs)
    ensures Delta(ExecAll(cfg, sid, st, txs)) + SumOf(txs, Outbound(cfg, sid))
         == Delta(st) + SumOf(txs, Underway) + RefusedCross(cfg, sid, st, txs)
  {
    if txs != [] {
      var init, tx := txs[..|txs|-1], txs[|txs|-1];
      ExecutionBalance(cfg, sid, st, init);
      TxBalance(cfg, sid, ExecAll(cfg, sid, st, init), tx, |init|);
    }
  }

  lemma TxBalance(cfg: Config, sid: nat, st: Ledger, tx: Tx, i: nat)
    requires cfg.Valid() && Routed(cfg, sid, tx)
    ensures Delta(ExecTx(cfg, sid, st, tx, i)) + Outbound(cfg, sid)(tx)
         == Delta(st) + Underway(tx) + if Refused(cfg, sid, st, tx) then Outbound(cfg, sid)(tx) else 0
  {
    var paid := if Charged(cfg, sid, tx) then Moved(st, tx.sender, i, -tx.value) else st;
    if !Refused(cfg, sid, st, tx) {
      if Charged(cfg, sid, tx) { DeltaMoved(st, tx.sender, i, -tx.value); }
      if cfg.ShardOf(tx.recipient) == sid { DeltaMoved(paid, tx.recipient, i, tx.value); }
    }
  }

  /** Only accounts of this shard get entries. */
  lemma {:induction false} ExecutionStaysHome(cfg: Config, sid: nat, st: Ledger, txs: seq<Tx>)
    requires cfg.Valid() && forall a :: a in st ==> cfg.ShardOf(a) == sid
    ensures forall a :: a in ExecAll(cfg, sid, st, txs) ==> cfg.ShardOf(a) == sid
  {
    if txs != [] {
      ExecutionStaysHome(cfg, sid, st, txs[..|txs|-1]);
    }
  }

  ghost predicate NonNegative(st: Ledger) {
    forall a :: a in st ==> st[a].balance >= 0
  }

  /** Transfers of non-negative value never overdraw an account. */
  lemma {:induction false} ExecutionNonNegative(cfg: Config, sid: nat, st: Ledger, txs: seq<Tx>)
    requires cfg.Valid() && NonNegative(st) && forall i :: 0 <= i < |txs| ==> txs[i].value >= 0
    ensures NonNegative(ExecAll(cfg, sid, st, txs))
  {
    if txs != [] {
      ExecutionNonNegative(cfg, sid, st, txs[..|txs|-1]);
    }
  }

  // ---------- exactly when no balance goes negative ----------

  /** The transaction can be applied without overdrawing its recipient. */
  predicate Covered(cfg: Config, sid: nat, st: Ledger, tx: Tx)
    requires cfg.Valid()
  {
    || Refused(cfg, sid, st, tx)
    || cfg.ShardOf(tx.recipient) != sid
    || (Charged(cfg, sid, tx) && tx.sender == tx.recipient)
    || BalanceOf(st, tx.recipient) + tx.value >= 0
  }

  lemma TxSolventIff(cfg: Config, sid: nat, st: Ledger, tx: Tx, i: nat)
    requires cfg.Valid() && NonNegative(st)
    ensures NonNegative(ExecTx(cfg, sid, st, tx, i)) <==> Covered(cfg, sid, st, tx)
  {
    if Refused(cfg, sid, st, tx) {
    } else if cfg.ShardOf(tx.recipient) == sid {
      assert tx.recipient in ExecTx(cfg, sid, st, tx, i);
    }
  }

  /** No balance is negative before, between or after the transactions of a body. */
  ghost predicate SolventThroughout(cfg: Config, sid: nat, st: Ledger, txs: seq<Tx>)
    requires cfg.Valid()
  {
    NonNegative(ExecAll(cfg, sid, st, txs)) && (txs != [] ==> SolventThroughout(cfg, sid, st, txs[..|txs|-1]))
  }

  /** Every transaction of a body is covered when its turn comes. */
  predicate AllCovered(cfg: Config, sid: nat, st: Ledger, txs: seq<Tx>)
    requires cfg.Valid()
  {
    txs != [] ==>
      && AllCovered(cfg, sid, st, txs[..|txs|-1])
      && Covered(cfg, sid, ExecAll(cfg, sid, st, txs[..|txs|-1]), txs[|txs|-1])
  }

  lemma {:induction false} ExecutionSolventIff(cfg: Config, sid: nat, st: Ledger, txs: seq<Tx>)
    requires cfg.Valid() && NonNegative(st)
    ensures SolventThroughout(cfg, sid, st, txs) <==> AllCovered(cfg, sid, st, txs)
  {
    if txs != [] {
      var init, tx := txs[..|txs|-1], txs[|txs|-1];
      ExecutionSolventIff(cfg, sid, st, init);
      if AllCovered(cfg, sid, st, init) { TxSolventIff(cfg, sid, ExecAll(cfg, sid, st, init), tx, |init|); }
    }
  }

  /** A body that is never insolvent starts and ends solvent. */
  lemma {:induction false} SolventEnds(cfg: Config, sid: nat, st: Ledger, txs: seq<Tx>)
    requires cfg.Valid() && SolventThroughout(cfg, sid, st, txs)
    ensures NonNegative(st) && NonNegative(ExecAll(cfg, sid, st, txs))
  {
    if txs != [] { SolventEnds(cfg, sid, st, txs[..|txs|-1]); }
  }
}
