/**
 * The relay protocol between shards as a state machine: transactions enter at their sender's shard, are
 * packed, executed and, when they cross shards, relayed to the recipient's shard
 * (consensus_shard/pbft_all/pbftInside_module.go, pbftOutside_module.go, toolFuncs.go).
 */
module Relay {
  import opened Shards
  import opened Sums
  import opened Transactions
  import opened TxPools
  import opened Chain

  /** What one shard's leader holds: the current state, the pool, and the body of a block not yet committed. */
  datatype Shard = Shard(accounts: Ledger, pool: multiset<Tx>, pending: Option<seq<Tx>>)

  /** Injected by the supervisor, or relayed by another shard. */
  datatype Message = Message(to: nat, txs: seq<Tx>, relay: bool)

  /** net holds messages sent and not yet handled; refused and panicked are history. */
  datatype World = World(shards: seq<Shard>, net: multiset<Message>, refused: int, panicked: bool)

  ghost predicate Init(cfg: Config, w: World) {
    && cfg.Valid()
    && w == World(seq(cfg.shardNum, _ => Shard(map[], multiset{}, None)), multiset{}, 0, false)
  }

  // ---------- steps ----------

  /** The supervisor sends fresh transactions to the shard of their sender. */
  ghost predicate InjectStep(cfg: Config, w: World, w': World, m: Message)
    requires cfg.Valid()
  {
    && m.to < cfg.shardNum && !m.relay
    && (forall i :: 0 <= i < |m.txs| ==> !m.txs[i].relayed && cfg.ShardOf(m.txs[i].sender) == m.to)
    && w' == w.(net := w.net + multiset{m})
  }

  /** A message reaches its shard, whose pool takes the transactions in. */
  ghost predicate DeliverStep(cfg: Config, w: World, w': World, m: Message, clock: seq<nat>) {
    && m in w.net && m.to < |w.shards| && |clock| == |m.txs|
    && w' == w.(net := w.net - multiset{m}, shards := w.shards[m.to := AfterDeliver(cfg, w.shards[m.to], m, clock)])
  }

  function AfterDeliver(cfg: Config, sh: Shard, m: Message, clock: seq<nat>): Shard
    requires |clock| == |m.txs|
  {
    sh.(pool := sh.pool + multiset(StampAll(Arrived(cfg, m.txs, m.relay), clock)))
  }

  /** With incentives on, a relayed cross-shard transaction is marked as in its second phase. */
  function Arrived(cfg: Config, txs: seq<Tx>, relay: bool): (r: seq<Tx>)
    ensures |r| == |txs| && forall i :: 0 <= i < |r| ==> r[i] == ArrivedTx(cfg, txs[i], relay)
  {
    seq(|txs|, i requires 0 <= i < |txs| => ArrivedTx(cfg, txs[i], relay))
  }

  function ArrivedTx(cfg: Config, tx: Tx, relay: bool): Tx {
    if relay && cfg.enableJustitia && tx.isCrossShard then tx.(isRelay2 := true) else tx
  }

  /** The leader packs some transactions of its pool, whichever pool and order is in use. */
  ghost predicate ProposeStep(w: World, w': World, s: nat, body: seq<Tx>) {
    && s < |w.shards| && CanPropose(w.shards[s], body)
    && w' == w.(shards := w.shards[s := AfterPropose(w.shards[s], body)])
  }

  predicate CanPropose(sh: Shard, body: seq<Tx>) {
    sh.pending == None && multiset(body) <= sh.pool
  }

  function AfterPropose(sh: Shard, body: seq<Tx>): Shard {
    sh.(pool := sh.pool - multiset(body), pending := Some(body))
  }

  /** The block is committed: its state becomes current and its outgoing transactions are sent. */
  ghost predicate CommitStep(cfg: Config, w: World, w': World, s: nat)
    requires cfg.Valid()
  {
    && s < |w.shards| && w.shards[s].pending.Some?
    && var sh := w.shards[s];
       var body := sh.pending.value;
       if !AllRouted(cfg, s, body) then
         w' == w.(panicked := true)
       else
         w' == World(w.shards[s := AfterCommit(cfg, s, sh)],
                     w.net + multiset(Outbox(cfg, s, body, cfg.shardNum)),
                     w.refused + RefusedCross(cfg, s, sh.accounts, body), w.panicked)
  }

  function AfterCommit(cfg: Config, s: nat, sh: Shard): Shard
    requires cfg.Valid() && sh.pending.Some?
  {
    Shard(ExecAll(cfg, s, sh.accounts, sh.pending.value), sh.pool, None)
  }

  /** A transaction leaving its shard: relayed and, with incentives on, marked as cross-shard. */
  function Relayed(cfg: Config, tx: Tx): Tx {
    tx.(relayed := true, isCrossShard := cfg.enableJustitia || tx.isCrossShard)
  }

  /** The body's transactions for recipients in shard t, marked as relayed. */
  function Outgoing(cfg: Config, body: seq<Tx>, t: nat): seq<Tx>
    requires cfg.Valid()
  {
    if body == [] then []
    else
      var tx := body[|body|-1];
      Outgoing(cfg, body[..|body|-1], t) + if cfg.ShardOf(tx.recipient) == t then [Relayed(cfg, tx)] else []
  }

  /** One relay message for each of the first n shards other than s, in shard order. */
  function Outbox(cfg: Config, s: nat, body: seq<Tx>, n: nat): seq<Message>
    requires cfg.Valid()
  {
    if n == 0 then [] else Outbox(cfg, s, body, n - 1) + SentTo(cfg, s, body, n - 1)
  }

  function SentTo(cfg: Config, s: nat, body: seq<Tx>, t: nat): seq<Message>
    requires cfg.Valid()
  {
    if t == s then [] else [Message(t, Outgoing(cfg, body, t), true)]
  }

  datatype Action =
    | Inject(m: Message)
    | Deliver(m: Message, clock: seq<nat>)
    | Propose(s: nat, body: seq<Tx>)
    | Commit(s: nat)

  ghost predicate Step(cfg: Config, w: World, w': World, a: Action)
    requires cfg.Valid()
  {
    match a
    case Inject(m) => InjectStep(cfg, w, w', m)
    case Deliver(m, clock) => DeliverStep(cfg, w, w', m, clock)
    case Propose(s, body) => ProposeStep(w, w', s, body)
    case Commit(s) => CommitStep(cfg, w, w', s)
  }

  /** A run: worlds linked by steps, from the initial world. */
  ghost predicate IsRun(cfg: Config, ws: seq<World>, acts: seq<Action>) {
    && |ws| == |acts| + 1 && Init(cfg, ws[0])
    && forall i :: 0 <= i < |acts| ==> StepAt(cfg, ws, acts, i)
  }

  ghost predicate StepAt(cfg: Config, ws: seq<World>, acts: seq<Action>, i: nat)
    requires cfg.Valid() && |ws| == |acts| + 1 && i < |acts|
  {
    Step(cfg, ws[i], ws[i+1], acts[i])
  }

  // ---------- the money in the world ----------

  ghost function Held(sh: Shard): int {
    Delta(sh.accounts) + SumMultiset(sh.pool, Underway)
    + if sh.pending.Some? then SumOf(sh.pending.value, Underway) else 0
  }

  ghost function HeldBy(shards: seq<Shard>): (r: seq<int>)
    ensures |r| == |shards| && forall s :: 0 <= s < |r| ==> r[s] == Held(shards[s])
  {
    seq(|shards|, s requires 0 <= s < |shards| => Held(shards[s]))
  }

  ghost function Carried(m: Message): int {
    SumOf(m.txs, Underway)
  }

  /** Balance changes at the home shards plus value in flight. */
  ghost function Total(w: World): int {
    SumSeq(HeldBy(w.shards)) + SumMultiset(w.net, Carried)
  }

  lemma HeldUpdate(shards: seq<Shard>, s: nat, sh: Shard)
    requires s < |shards|
    ensures SumSeq(HeldBy(shards[s := sh])) == SumSeq(HeldBy(shards)) - Held(shards[s]) + Held(sh)
  {
    SumSeqUpdate(HeldBy(shards), s, Held(sh));
    assert HeldBy(shards[s := sh]) == HeldBy(shards)[s := Held(sh)];
  }

  /** Entering a pool changes marks and times, not the value under way. */
  lemma {:induction false} EnteringKeeps(cfg: Config, txs: seq<Tx>, relay: bool, clock: seq<nat>)
    requires |clock| == |txs|
    ensures SumOf(StampAll(Arrived(cfg, txs, relay), clock), Underway) == SumOf(txs, Underway)
  {
    if txs != [] {
      var n := |txs| - 1;
      EnteringKeeps(cfg, txs[..n], relay, clock[..n]);
      assert StampAll(Arrived(cfg, txs, relay), clock)[..n] == StampAll(Arrived(cfg, txs[..n], relay), clock[..n]);
    }
  }

  // ---------- routing ----------

  /** Where every transaction in the world is. */
  ghost predicate WellRouted(cfg: Config, w: World)
    requires cfg.Valid()
  {
    && |w.shards| == cfg.shardNum && !w.panicked
    && (forall s, tx :: 0 <= s < |w.shards| && tx in w.shards[s].pool ==> Routed(cfg, s, tx))
    && (forall s :: 0 <= s < |w.shards| && w.shards[s].pending.Some? ==> AllRouted(cfg, s, w.shards[s].pending.value))
    && (forall m :: m in w.net ==> m.to < cfg.shardNum && AllRouted(cfg, m.to, m.txs))
    && (forall s, a :: 0 <= s < |w.shards| && a in w.shards[s].accounts ==> cfg.ShardOf(a) == s)
  }

  lemma {:induction false} OutgoingRouted(cfg: Config, body: seq<Tx>, t: nat)
    requires cfg.Valid()
    ensures AllRouted(cfg, t, Outgoing(cfg, body, t))
    ensures forall i :: 0 <= i < |Outgoing(cfg, body, t)| ==> Outgoing(cfg, body, t)[i].relayed
  {
    if body != [] { OutgoingRouted(cfg, body[..|body|-1], t); }
  }

  ghost predicate MessagesRouted(cfg: Config, s: nat, n: nat, ms: seq<Message>)
    requires cfg.Valid()
  {
    forall i :: 0 <= i < |ms| ==> ms[i].to < n && ms[i].to != s && AllRouted(cfg, ms[i].to, ms[i].txs)
  }

  lemma RoutedSnoc(cfg: Config, s: nat, t: nat, before: seq<Message>, last: seq<Message>)
    requires cfg.Valid() && MessagesRouted(cfg, s, t, before) && MessagesRouted(cfg, s, t + 1, last)
    ensures MessagesRouted(cfg, s, t + 1, before + last)
  {
  }

  lemma {:induction false} OutboxRouted(cfg: Config, s: nat, body: seq<Tx>, n: nat)
    requires cfg.Valid() && n <= cfg.shardNum
    ensures MessagesRouted(cfg, s, n, Outbox(cfg, s, body, n))
  {
    if n > 0 {
      OutboxRouted(cfg, s, body, n - 1);
      OutgoingRouted(cfg, body, n - 1);
      RoutedSnoc(cfg, s, n - 1, Outbox(cfg, s, body, n - 1), SentTo(cfg, s, body, n - 1));
    }
  }

  /** Every step keeps the routing; in particular the two checks on a committed body never fail. */
  lemma RoutingKept(cfg: Config, w: World, w': World, a: Action)
    requires cfg.Valid() && WellRouted(cfg, w) && Step(cfg, w, w', a)
    ensures WellRouted(cfg, w')
  {
    match a
    case Inject(m) =>
    case Deliver(m, clock) => DeliverKeepsRouting(cfg, w, w', m, clock);
    case Propose(s, body) => ProposeKeepsRouting(cfg, w, w', s, body);
    case Commit(s) => CommitKeepsRouting(cfg, w, w', s);
  }

  lemma DeliverKeepsRouting(cfg: Config, w: World, w': World, m: Message, clock: seq<nat>)
    requires cfg.Valid() && WellRouted(cfg, w) && DeliverStep(cfg, w, w', m, clock)
    ensures WellRouted(cfg, w')
  {
    var entered := StampAll(Arrived(cfg, m.txs, m.relay), clock);
    forall tx | tx in multiset(entered) ensures Routed(cfg, m.to, tx) {
      var i :| 0 <= i < |m.txs| && entered[i] == tx;
      assert Routed(cfg, m.to, m.txs[i]);
    }
  }

  lemma ProposeKeepsRouting(cfg: Config, w: World, w': World, s: nat, body: seq<Tx>)
    requires cfg.Valid() && WellRouted(cfg, w) && ProposeStep(w, w', s, body)
    ensures WellRouted(cfg, w')
  {
    forall i | 0 <= i < |body| ensures Routed(cfg, s, body[i]) {
      assert body[i] in multiset(body);
    }
  }

  lemma CommitKeepsRouting(cfg: Config, w: World, w': World, s: nat)
    requires cfg.Valid() && WellRouted(cfg, w) && CommitStep(cfg, w, w', s)
    ensures WellRouted(cfg, w')
  {
    var body := w.shards[s].pending.value;
    OutboxRouted(cfg, s, body, cfg.shardNum);
    ExecutionStaysHome(cfg, s, w.shards[s].accounts, body);
    forall m | m in w'.net ensures m.to < cfg.shardNum && AllRouted(cfg, m.to, m.txs) {
      if m !in w.net {
        var out := Outbox(cfg, s, body, cfg.shardNum);
        assert m in out;
        var i :| 0 <= i < |out| && out[i] == m;
      }
    }
  }

  // ---------- conservation ----------

  /** What leaves shard s for the first n shards. */
  function OutboundBelow(cfg: Config, s: nat, n: nat): Tx -> int
    requires cfg.Valid()
  {
    (tx: Tx) => if cfg.ShardOf(tx.recipient) != s && cfg.ShardOf(tx.recipient) < n then tx.value else 0
  }

  function InboundAt(cfg: Config, t: nat): Tx -> int
    requires cfg.Valid()
  {
    (tx: Tx) => if cfg.ShardOf(tx.recipient) == t then tx.value else 0
  }

  lemma OutgoingStep(cfg: Config, body: seq<Tx>, t: nat)
    requires cfg.Valid() && body != []
    ensures var init, tx := body[..|body|-1], body[|body|-1];
            Outgoing(cfg, body, t) == if cfg.ShardOf(tx.recipient) == t then Outgoing(cfg, init, t) + [Relayed(cfg, tx)]
                                      else Outgoing(cfg, init, t)
  {
  }

  lemma {:induction false} OutgoingValue(cfg: Config, body: seq<Tx>, t: nat)
    requires cfg.Valid()
    ensures SumOf(Outgoing(cfg, body, t), Underway) == SumOf(body, InboundAt(cfg, t))
  {
    if body != [] {
      var init, tx := body[..|body|-1], body[|body|-1];
      OutgoingValue(cfg, init, t);
      SumOfSnoc(Outgoing(cfg, init, t), Relayed(cfg, tx), Underway);
      OutgoingStep(cfg, body, t);
    }
  }

  lemma {:induction false} SumOfEqual(txs: seq<Tx>, f: Tx -> int, g: Tx -> int)
    requires forall tx :: f(tx) == g(tx)
    ensures SumOf(txs, f) == SumOf(txs, g)
  {
    if txs != [] { SumOfEqual(txs[..|txs|-1], f, g); }
  }

  lemma OutboundBelowStep(cfg: Config, s: nat, body: seq<Tx>, n: nat)
    requires cfg.Valid() && n > 0
    ensures SumOf(body, OutboundBelow(cfg, s, n)) == SumOf(body, OutboundBelow(cfg, s, n - 1))
              + if n - 1 == s then 0 else SumOf(body, InboundAt(cfg, n - 1))
  {
  }

  /** The relay messages carry exactly the value of the transactions bound for the first n shards. */
  lemma {:induction false} OutboxValue(cfg: Config, s: nat, body: seq<Tx>, n: nat)
    requires cfg.Valid()
    ensures SumOf(Outbox(cfg, s, body, n), Carried) == SumOf(body, OutboundBelow(cfg, s, n))
  {
    if n == 0 {
      SumOfEqual(body, OutboundBelow(cfg, s, n), (tx: Tx) => 0);
      SumOfZero(body);
    } else {
      OutboxValue(cfg, s, body, n - 1);
      OutboundBelowStep(cfg, s, body, n);
      OutboxStep(cfg, s, body, n);
    }
  }

  lemma OutboxStep(cfg: Config, s: nat, body: seq<Tx>, n: nat)
    requires cfg.Valid() && n > 0
    ensures SumOf(Outbox(cfg, s, body, n), Carried) == SumOf(Outbox(cfg, s, body, n - 1), Carried)
              + if n - 1 == s then 0 else SumOf(body, InboundAt(cfg, n - 1))
  {
    SentValue(cfg, s, body, n - 1);
    AppendedValue(Outbox(cfg, s, body, n - 1), SentTo(cfg, s, body, n - 1), Outbox(cfg, s, body, n));
  }

  lemma AppendedValue(before: seq<Message>, last: seq<Message>, after: seq<Message>)
    requires after == before + last
    ensures SumOf(after, Carried) == SumOf(before, Carried) + SumOf(last, Carried)
  {
    SumOfConcat(before, last, Carried);
  }

  lemma SentValue(cfg: Config, s: nat, body: seq<Tx>, t: nat)
    requires cfg.Valid()
    ensures SumOf(SentTo(cfg, s, body, t), Carried) == if t == s then 0 else SumOf(body, InboundAt(cfg, t))
  {
    OutgoingValue(cfg, body, t);
    var m := Message(t, Outgoing(cfg, body, t), true);
    SumOfSnoc([], m, Carried);
    assert [] + [m] == [m];
  }

  lemma {:induction false} SumOfZero(txs: seq<Tx>)
    ensures SumOf(txs, (tx: Tx) => 0) == 0
  {
    if txs != [] { SumOfZero(txs[..|txs|-1]); }
  }

  /** Every step changes the total by exactly the cross-shard value it sends without charging for it. */
  lemma StepBalance(cfg: Config, w: World, w': World, a: Action)
    requires cfg.Valid() && WellRouted(cfg, w) && Step(cfg, w, w', a)
    ensures Total(w') - w'.refused == Total(w) - w.refused
  {
    match a
    case Inject(m) => InjectBalance(cfg, w, w', m);
    case Deliver(m, clock) => DeliverBalance(cfg, w, w', m, clock);
    case Propose(s, body) => ProposeBalance(w, w', s, body);
    case Commit(s) => CommitBalance(cfg, w, w', s);
  }

  lemma {:induction false} FreshValue(txs: seq<Tx>)
    requires forall i :: 0 <= i < |txs| ==> !txs[i].relayed
    ensures SumOf(txs, Underway) == 0
  {
    if txs != [] { FreshValue(txs[..|txs|-1]); }
  }

  lemma InjectBalance(cfg: Config, w: World, w': World, m: Message)
    requires cfg.Valid() && InjectStep(cfg, w, w', m)
    ensures Total(w') == Total(w) && w'.refused == w.refused
  {
    FreshValue(m.txs);
    SumMultisetUnion(w.net, multiset{m}, Carried);
    SumMultisetRemove(multiset{m}, Carried, m);
  }

  lemma DeliverBalance(cfg: Config, w: World, w': World, m: Message, clock: seq<nat>)
    requires DeliverStep(cfg, w, w', m, clock)
    ensures Total(w') == Total(w) && w'.refused == w.refused
  {
    var sh := w.shards[m.to];
    SumMultisetRemove(w.net, Carried, m);
    var entered := StampAll(Arrived(cfg, m.txs, m.relay), clock);
    SumMultisetUnion(sh.pool, multiset(entered), Underway);
    SumOfMultiset(entered, Underway);
    EnteringKeeps(cfg, m.txs, m.relay, clock);
    HeldUpdate(w.shards, m.to, w'.shards[m.to]);
  }

  lemma ProposeBalance(w: World, w': World, s: nat, body: seq<Tx>)
    requires ProposeStep(w, w', s, body)
    ensures Total(w') == Total(w) && w'.refused == w.refused
  {
    SumMultisetMinus(w.shards[s].pool, multiset(body), Underway);
    SumOfMultiset(body, Underway);
    HeldUpdate(w.shards, s, w'.shards[s]);
  }

  lemma CommitBalance(cfg: Config, w: World, w': World, s: nat)
    requires cfg.Valid() && WellRouted(cfg, w) && CommitStep(cfg, w, w', s)
    ensures Total(w') - w'.refused == Total(w) - w.refused
  {
    var sh := w.shards[s];
    var body := sh.pending.value;
    ExecutionBalance(cfg, s, sh.accounts, body);
    HeldUpdate(w.shards, s, w'.shards[s]);
    var out := Outbox(cfg, s, body, cfg.shardNum);
    OutboxValue(cfg, s, body, cfg.shardNum);
    SumOfEqual(body, OutboundBelow(cfg, s, cfg.shardNum), Outbound(cfg, s));
    SumMultisetUnion(w.net, multiset(out), Carried);
    SumOfMultiset(out, Carried);
  }

  lemma {:induction false} EmptyShardsTotal(n: nat)
    ensures SumSeq(HeldBy(seq(n, _ => Shard(map[], multiset{}, None)))) == 0
  {
    if n > 0 {
      EmptyShardsTotal(n - 1);
      var here := HeldBy(seq(n, _ => Shard(map[], multiset{}, None)));
      var below := HeldBy(seq(n - 1, _ => Shard(map[], multiset{}, None)));
      assert here[..n-1] == below;
    }
  }

  lemma InitialWorld(cfg: Config, w: World)
    requires Init(cfg, w)
    ensures WellRouted(cfg, w) && Total(w) == w.refused == 0
  {
    EmptyShardsTotal(cfg.shardNum);
  }

  ghost predicate Sound(cfg: Config, w: World)
    requires cfg.Valid()
  {
    WellRouted(cfg, w) && Total(w) == w.refused
  }

  lemma SoundnessKept(cfg: Config, w: World, w': World, a: Action)
    requires cfg.Valid() && Sound(cfg, w) && Step(cfg, w, w', a)
    ensures Sound(cfg, w')
  {
    RoutingKept(cfg, w, w', a);
    StepBalance(cfg, w, w', a);
  }

  lemma {:induction false} RunIsSound(cfg: Config, ws: seq<World>, acts: seq<Action>, i: nat)
    requires IsRun(cfg, ws, acts) && i < |ws|
    ensures Sound(cfg, ws[i])
  {
    if i == 0 {
      InitialWorld(cfg, ws[0]);
    } else {
      RunIsSound(cfg, ws, acts, i - 1);
      assert StepAt(cfg, ws, acts, i - 1);
      SoundnessKept(cfg, ws[i-1], ws[i], acts[i-1]);
    }
  }

  /**
   * Money over a whole run: balance changes plus value in flight equal the summed value of the cross-shard
   * transfers that were refused at the source, and neither "incorrect tx" stop is ever reached.
   */
  lemma MoneyConserved(cfg: Config, ws: seq<World>, acts: seq<Action>, i: nat)
    requires IsRun(cfg, ws, acts) && i < |ws|
    ensures Total(ws[i]) == ws[i].refused
    ensures WellRouted(cfg, ws[i]) && !ws[i].panicked
  {
    RunIsSound(cfg, ws, acts, i);
  }

  /** A refused cross-shard transfer changes no account of its shard, yet is relayed and will be paid out. */
  lemma RefusedTransferIsRelayed(cfg: Config, s: nat, st: Ledger, tx: Tx)
    requires cfg.Valid() && Refused(cfg, s, st, tx) && cfg.ShardOf(tx.recipient) != s
    ensures ExecAll(cfg, s, st, [tx]) == st
    ensures Message(cfg.ShardOf(tx.recipient), [Relayed(cfg, tx)], true) in Outbox(cfg, s, [tx], cfg.shardNum)
    ensures RefusedCross(cfg, s, st, [tx]) == tx.value
  {
    assert [tx][..0] == [];
    assert ExecAll(cfg, s, st, [tx]) == ExecTx(cfg, s, st, tx, 0);
    OutgoingStep(cfg, [tx], cfg.ShardOf(tx.recipient));
    assert Outgoing(cfg, [tx], cfg.ShardOf(tx.recipient)) == [Relayed(cfg, tx)];
    OutboxCovers(cfg, s, [tx], cfg.shardNum, cfg.ShardOf(tx.recipient));
  }

  lemma {:induction false} OutboxCovers(cfg: Config, s: nat, body: seq<Tx>, n: nat, t: nat)
    requires cfg.Valid() && t < n && t != s
    ensures Message(t, Outgoing(cfg, body, t), true) in Outbox(cfg, s, body, n)
  {
    if t < n - 1 { OutboxCovers(cfg, s, body, n - 1, t); }
  }

  // ---------- balances never go negative ----------

  /** Nothing checks the sign of a value: a payment of enough negative value overdraws a fresh account. */
  lemma NegativeValueOverdraws(cfg: Config, s: nat, tx: Tx)
    requires cfg.Valid() && Charged(cfg, s, tx) && cfg.ShardOf(tx.recipient) == s && tx.sender != tx.recipient
    ensures BalanceOf(ExecAll(cfg, s, map[], [tx]), tx.recipient) < 0 <==> tx.value < -INIT_BALANCE
  {
    assert [tx][..0] == [];
    assert ExecAll(cfg, s, map[], [tx]) == ExecTx(cfg, s, map[], tx, 0);
  }

  ghost predicate AllAccountsSolvent(w: World) {
    forall s :: 0 <= s < |w.shards| ==> NonNegative(w.shards[s].accounts)
  }

  /** If the action commits a block, no balance is negative at any moment of its execution. */
  ghost predicate SolventCommit(cfg: Config, w: World, a: Action)
    requires cfg.Valid()
  {
    a.Commit? && a.s < |w.shards| && w.shards[a.s].pending.Some? ==>
      SolventThroughout(cfg, a.s, w.shards[a.s].accounts, w.shards[a.s].pending.value)
  }

  /** If the action commits a block, every transaction in it is covered when its turn comes. */
  predicate CoveredCommit(cfg: Config, w: World, a: Action)
    requires cfg.Valid()
  {
    a.Commit? && a.s < |w.shards| && w.shards[a.s].pending.Some? ==>
      AllCovered(cfg, a.s, w.shards[a.s].accounts, w.shards[a.s].pending.value)
  }

  lemma CommitSolventIff(cfg: Config, w: World, w': World, a: Action)
    requires cfg.Valid() && Sound(cfg, w) && Step(cfg, w, w', a) && AllAccountsSolvent(w)
    ensures SolventCommit(cfg, w, a) <==> CoveredCommit(cfg, w, a)
    ensures SolventCommit(cfg, w, a) ==> AllAccountsSolvent(w')
  {
    if !a.Commit? {
      OthersKeepAccounts(cfg, w, w', a);
    } else {
      var sh := w.shards[a.s];
      CommittedAccounts(cfg, w, w', a.s);
      ExecutionSolventIff(cfg, a.s, sh.accounts, sh.pending.value);
      if SolventCommit(cfg, w, a) { SolventEnds(cfg, a.s, sh.accounts, sh.pending.value); }
    }
  }

  ghost predicate SameAccounts(w: World, w': World) {
    |w'.shards| == |w.shards| && forall s :: 0 <= s < |w.shards| ==> w'.shards[s].accounts == w.shards[s].accounts
  }

  /** Only a commit changes accounts. */
  lemma OthersKeepAccounts(cfg: Config, w: World, w': World, a: Action)
    requires cfg.Valid() && Step(cfg, w, w', a) && !a.Commit?
    ensures SameAccounts(w, w')
  {
    match a
    case Inject(m) =>
    case Deliver(m, clock) => DeliverKeepsAccounts(cfg, w, w', m, clock);
    case Propose(s, body) => ProposeKeepsAccounts(w, w', s, body);
  }

  lemma DeliverKeepsAccounts(cfg: Config, w: World, w': World, m: Message, clock: seq<nat>)
    requires DeliverStep(cfg, w, w', m, clock)
    ensures SameAccounts(w, w')
  {
  }

  lemma ProposeKeepsAccounts(w: World, w': World, s: nat, body: seq<Tx>)
    requires ProposeStep(w, w', s, body)
    ensures SameAccounts(w, w')
  {
  }

  lemma CommittedAccounts(cfg: Config, w: World, w': World, s: nat)
    requires cfg.Valid() && CommitStep(cfg, w, w', s) && AllRouted(cfg, s, w.shards[s].pending.value)
    ensures w'.shards == w.shards[s := AfterCommit(cfg, s, w.shards[s])]
  {
  }

  lemma {:induction false} SolventSoFar(cfg: Config, ws: seq<World>, acts: seq<Action>, i: nat)
    requires IsRun(cfg, ws, acts) && i < |ws|
    requires forall j :: 0 <= j < i ==> CoveredCommit(cfg, ws[j], acts[j]) || SolventCommit(cfg, ws[j], acts[j])
    ensures AllAccountsSolvent(ws[i])
    ensures i < |acts| ==> (SolventCommit(cfg, ws[i], acts[i]) <==> CoveredCommit(cfg, ws[i], acts[i]))
  {
    if i > 0 {
      SolventSoFar(cfg, ws, acts, i - 1);
      RunIsSound(cfg, ws, acts, i - 1);
      assert StepAt(cfg, ws, acts, i - 1);
      CommitSolventIff(cfg, ws[i-1], ws[i], acts[i-1]);
    }
    if i < |acts| {
      RunIsSound(cfg, ws, acts, i);
      assert StepAt(cfg, ws, acts, i);
      CommitSolventIff(cfg, ws[i], ws[i+1], acts[i]);
    }
  }

  /**
   * Exactly when no balance is ever negative: in a run, at every moment of every committed block, if and only if
   * every transaction is covered when its turn comes. No balance of any world is negative then.
   */
  lemma NeverOverdrawnIff(cfg: Config, ws: seq<World>, acts: seq<Action>)
    requires IsRun(cfg, ws, acts)
    ensures (forall i :: 0 <= i < |acts| ==> SolventCommit(cfg, ws[i], acts[i]))
       <==> (forall i :: 0 <= i < |acts| ==> CoveredCommit(cfg, ws[i], acts[i]))
    ensures (forall i :: 0 <= i < |acts| ==> CoveredCommit(cfg, ws[i], acts[i])) ==>
              forall i :: 0 <= i < |ws| ==> AllAccountsSolvent(ws[i])
  {
    if (forall i :: 0 <= i < |acts| ==> SolventCommit(cfg, ws[i], acts[i]))
       || (forall i :: 0 <= i < |acts| ==> CoveredCommit(cfg, ws[i], acts[i])) {
      forall i | 0 <= i < |ws|
        ensures AllAccountsSolvent(ws[i])
        ensures i < |acts| ==> (SolventCommit(cfg, ws[i], acts[i]) <==> CoveredCommit(cfg, ws[i], acts[i]))
      {
        SolventSoFar(cfg, ws, acts, i);
      }
    }
  }

  ghost predicate ValuesNonNegative(txs: seq<Tx>) {
    forall i :: 0 <= i < |txs| ==> txs[i].value >= 0
  }

  ghost predicate Solvent(w: World) {
    && (forall s :: 0 <= s < |w.shards| ==> NonNegative(w.shards[s].accounts))
    && (forall s, tx :: 0 <= s < |w.shards| && tx in w.shards[s].pool ==> tx.value >= 0)
    && (forall s :: 0 <= s < |w.shards| && w.shards[s].pending.Some? ==> ValuesNonNegative(w.shards[s].pending.value))
    && (forall m :: m in w.net ==> ValuesNonNegative(m.txs))
  }

  lemma {:induction false} OutgoingNonNegative(cfg: Config, body: seq<Tx>, t: nat)
    requires cfg.Valid() && ValuesNonNegative(body)
    ensures ValuesNonNegative(Outgoing(cfg, body, t))
  {
    if body != [] { OutgoingNonNegative(cfg, body[..|body|-1], t); }
  }

  lemma {:induction false} OutboxNonNegative(cfg: Config, s: nat, body: seq<Tx>, n: nat)
    requires cfg.Valid() && ValuesNonNegative(body)
    ensures forall m :: m in Outbox(cfg, s, body, n) ==> ValuesNonNegative(m.txs)
  {
    if n > 0 {
      OutboxNonNegative(cfg, s, body, n - 1);
      OutgoingNonNegative(cfg, body, n - 1);
    }
  }

  lemma SolvencyKept(cfg: Config, w: World, w': World, a: Action)
    requires cfg.Valid() && Solvent(w) && Step(cfg, w, w', a)
    requires a.Inject? ==> ValuesNonNegative(a.m.txs)
    ensures Solvent(w')
  {
    match a
    case Inject(m) =>
    case Deliver(m, clock) => DeliverKeepsSolvency(cfg, w, w', m, clock);
    case Propose(s, body) => ProposeKeepsSolvency(w, w', s, body);
    case Commit(s) => CommitKeepsSolvency(cfg, w, w', s);
  }

  lemma DeliverKeepsSolvency(cfg: Config, w: World, w': World, m: Message, clock: seq<nat>)
    requires Solvent(w) && DeliverStep(cfg, w, w', m, clock)
    ensures Solvent(w')
  {
    var entered := StampAll(Arrived(cfg, m.txs, m.relay), clock);
    forall tx: Tx | tx in multiset(entered) ensures tx.value >= 0 {
      var i :| 0 <= i < |m.txs| && entered[i] == tx;
    }
  }

  lemma ProposeKeepsSolvency(w: World, w': World, s: nat, body: seq<Tx>)
    requires Solvent(w) && ProposeStep(w, w', s, body)
    ensures Solvent(w')
  {
    forall i | 0 <= i < |body| ensures body[i].value >= 0 {
      assert body[i] in multiset(body);
    }
  }

  lemma CommitKeepsSolvency(cfg: Config, w: World, w': World, s: nat)
    requires cfg.Valid() && Solvent(w) && CommitStep(cfg, w, w', s)
    ensures Solvent(w')
  {
    var body := w.shards[s].pending.value;
    OutboxNonNegative(cfg, s, body, cfg.shardNum);
    ExecutionNonNegative(cfg, s, w.shards[s].accounts, body);
    forall m | m in w'.net ensures ValuesNonNegative(m.txs) {
      if m !in w.net { assert m in Outbox(cfg, s, body, cfg.shardNum); }
    }
  }

  /** If no transfer of negative value is ever injected, no balance of any shard is ever negative. */
  lemma BalancesNeverNegative(cfg: Config, ws: seq<World>, acts: seq<Action>, i: nat)
    requires IsRun(cfg, ws, acts) && i < |ws|
    requires forall j :: 0 <= j < |acts| && acts[j].Inject? ==> ValuesNonNegative(acts[j].m.txs)
    ensures forall s :: 0 <= s < |ws[i].shards| ==> NonNegative(ws[i].shards[s].accounts)
  {
    SolventRun(cfg, ws, acts, i);
  }

  lemma {:induction false} SolventRun(cfg: Config, ws: seq<World>, acts: seq<Action>, i: nat)
    requires IsRun(cfg, ws, acts) && i < |ws|
    requires forall j :: 0 <= j < |acts| && acts[j].Inject? ==> ValuesNonNegative(acts[j].m.txs)
    ensures Solvent(ws[i])
  {
    if i > 0 {
      SolventRun(cfg, ws, acts, i - 1);
      assert StepAt(cfg, ws, acts, i - 1);
      SolvencyKept(cfg, ws[i-1], ws[i], acts[i-1]);
    }
  }
}
