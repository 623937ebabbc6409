/**
 * What becomes of the transactions: in every run each one injected is executed once in its sender's shard and, if it
 * crosses shards, once more in its recipient's (consensus_shard/pbft_all/pbftInside_module.go, pbftOutside_module.go).
 */
module Delivery {
  import opened Shards
  import opened Sums
  import opened Transactions
  import opened TxPools
  import opened Chain
  import opened Relay

  /** What of a transaction no step changes: everything but its times and marks. */
  function Core(tx: Tx): Tx {
    tx.(time := 0, originalTime := 0, relayed := false, isCrossShard := false, isRelay2 := false)
  }

  /** Counts copies of c on the way to the sender's shard. */
  function FreshAs(c: Tx): Tx -> int {
    (tx: Tx) => if !tx.relayed && Core(tx) == c then 1 else 0
  }

  /** Counts copies of c on the way to the recipient's shard. */
  function RelayedAs(c: Tx): Tx -> int {
    (tx: Tx) => if tx.relayed && Core(tx) == c then 1 else 0
  }

  // ---------- copies in the world ----------

  ghost function InShard(sh: Shard, f: Tx -> int): int {
    SumMultiset(sh.pool, f) + if sh.pending.Some? then SumOf(sh.pending.value, f) else 0
  }

  ghost function InShards(shards: seq<Shard>, f: Tx -> int): (r: seq<int>)
    ensures |r| == |shards| && forall s :: 0 <= s < |r| ==> r[s] == InShard(shards[s], f)
  {
    seq(|shards|, s requires 0 <= s < |shards| => InShard(shards[s], f))
  }

  function InMessage(f: Tx -> int): Message -> int {
    (m: Message) => SumOf(m.txs, f)
  }

  /** Copies in pools, in pending blocks and in messages. */
  ghost function Waiting(w: World, f: Tx -> int): int {
    SumSeq(InShards(w.shards, f)) + SumMultiset(w.net, InMessage(f))
  }

  lemma ShardUpdate(shards: seq<Shard>, s: nat, sh: Shard, f: Tx -> int)
    requires s < |shards|
    ensures SumSeq(InShards(shards[s := sh], f))
         == SumSeq(InShards(shards, f)) - InShard(shards[s], f) + InShard(sh, f)
  {
    SumSeqUpdate(InShards(shards, f), s, InShard(sh, f));
    assert InShards(shards[s := sh], f) == InShards(shards, f)[s := InShard(sh, f)];
  }

  /** A way of counting that times and second-phase marks do not disturb. */
  ghost predicate Undisturbed(f: Tx -> int) {
    forall tx: Tx, tx': Tx :: tx.relayed == tx'.relayed && Core(tx) == Core(tx') ==> f(tx) == f(tx')
  }

  lemma {:induction false} EnteringCounts(cfg: Config, txs: seq<Tx>, relay: bool, clock: seq<nat>, f: Tx -> int)
    requires |clock| == |txs| && Undisturbed(f)
    ensures SumOf(StampAll(Arrived(cfg, txs, relay), clock), f) == SumOf(txs, f)
  {
    if txs != [] {
      var n := |txs| - 1;
      var entered := StampAll(Arrived(cfg, txs, relay), clock);
      EnteringCounts(cfg, txs[..n], relay, clock[..n], f);
      assert entered[..n] == StampAll(Arrived(cfg, txs[..n], relay), clock[..n]);
      assert Core(entered[n]) == Core(txs[n]) && entered[n].relayed == txs[n].relayed;
    }
  }

  // ---------- what a commit sends ----------

  /** How a transaction of a body counts among those sent to shard t, and to the first n shards other than s. */
  function SentOneTo(cfg: Config, t: nat, f: Tx -> int): Tx -> int
    requires cfg.Valid()
  {
    (tx: Tx) => if cfg.ShardOf(tx.recipient) == t then f(Relayed(cfg, tx)) else 0
  }

  function SentBelow(cfg: Config, s: nat, n: nat, f: Tx -> int): Tx -> int
    requires cfg.Valid()
  {
    (tx: Tx) =>
      if cfg.ShardOf(tx.recipient) != s && cfg.ShardOf(tx.recipient) < n then f(Relayed(cfg, tx)) else 0
  }

  lemma {:induction false} OutgoingCounts(cfg: Config, body: seq<Tx>, t: nat, f: Tx -> int)
    requires cfg.Valid()
    ensures SumOf(Outgoing(cfg, body, t), f) == SumOf(body, SentOneTo(cfg, t, f))
  {
    if body != [] {
      var init, tx := body[..|body|-1], body[|body|-1];
      OutgoingCounts(cfg, init, t, f);
      SumOfSnoc(Outgoing(cfg, init, t), Relayed(cfg, tx), f);
      OutgoingStep(cfg, body, t);
    }
  }

  lemma {:induction false} SentBelowStep(cfg: Config, s: nat, body: seq<Tx>, n: nat, f: Tx -> int)
    requires cfg.Valid() && n > 0
    ensures SumOf(body, SentBelow(cfg, s, n, f)) == SumOf(body, SentBelow(cfg, s, n - 1, f))
              + if n - 1 == s then 0 else SumOf(body, SentOneTo(cfg, n - 1, f))
  {
    if body != [] { SentBelowStep(cfg, s, body[..|body|-1], n, f); }
  }

  lemma {:induction false} SentBelowNone(cfg: Config, s: nat, body: seq<Tx>, f: Tx -> int)
    requires cfg.Valid()
    ensures SumOf(body, SentBelow(cfg, s, 0, f)) == 0
  {
    if body != [] {
      SentBelowNone(cfg, s, body[..|body|-1], f);
      assert cfg.ShardOf(body[|body|-1].recipient) >= 0;
    }
  }

  lemma {:induction false} OutboxCounts(cfg: Config, s: nat, body: seq<Tx>, n: nat, f: Tx -> int)
    requires cfg.Valid()
    ensures SumOf(Outbox(cfg, s, body, n), InMessage(f)) == SumOf(body, SentBelow(cfg, s, n, f))
  {
    if n == 0 {
      SentBelowNone(cfg, s, body, f);
    } else {
      OutboxCounts(cfg, s, body, n - 1, f);
      SentBelowStep(cfg, s, body, n, f);
      SentToCounts(cfg, s, body, n - 1, f);
      SumOfConcat(Outbox(cfg, s, body, n - 1), SentTo(cfg, s, body, n - 1), InMessage(f));
    }
  }

  lemma SentToCounts(cfg: Config, s: nat, body: seq<Tx>, t: nat, f: Tx -> int)
    requires cfg.Valid()
    ensures SumOf(SentTo(cfg, s, body, t), InMessage(f)) == if t == s then 0 else SumOf(body, SentOneTo(cfg, t, f))
  {
    OutgoingCounts(cfg, body, t, f);
    var m := Message(t, Outgoing(cfg, body, t), true);
    SumOfSnoc([], m, InMessage(f));
    assert [] + [m] == [m];
  }

  /** What is sent on keeps its order in the block. */
  lemma {:induction false} OutgoingConcat(cfg: Config, a: seq<Tx>, b: seq<Tx>, t: nat)
    requires cfg.Valid()
    ensures Outgoing(cfg, a + b, t) == Outgoing(cfg, a, t) + Outgoing(cfg, b, t)
  {
    if b == [] {
      assert a + b == a && Outgoing(cfg, a, t) + [] == Outgoing(cfg, a, t);
    } else {
      OutgoingConcat(cfg, a, b[..|b|-1], t);
      assert (a + b)[..|a + b|-1] == a + b[..|b|-1];
    }
  }

  /** The marks: relayed when it leaves, with incentives on cross-shard too, and in its second phase when it arrives. */
  lemma MarksOnTheWay(cfg: Config, tx: Tx)
    ensures Relayed(cfg, tx).relayed && Core(Relayed(cfg, tx)) == Core(tx)
    ensures Relayed(cfg, tx).isCrossShard <==> tx.isCrossShard || cfg.enableJustitia
    ensures (Relayed(cfg, tx).time, Relayed(cfg, tx).originalTime, Relayed(cfg, tx).isRelay2)
         == (tx.time, tx.originalTime, tx.isRelay2)
    ensures ArrivedTx(cfg, Relayed(cfg, tx), true).isRelay2 <==> tx.isRelay2 || cfg.enableJustitia
    ensures ArrivedTx(cfg, tx, false) == tx && ArrivedTx(cfg, tx, true).(isRelay2 := tx.isRelay2) == tx
  {
  }

  // ---------- one step ----------

  /** Copies an action adds from outside, takes out of a pending block, and sends on. */
  function InjectedBy(a: Action, f: Tx -> int): int {
    if a.Inject? then SumOf(a.m.txs, f) else 0
  }

  predicate Commits(w: World, a: Action) {
    a.Commit? && a.s < |w.shards| && w.shards[a.s].pending.Some?
  }

  function CommittedBy(w: World, a: Action, f: Tx -> int): int {
    if Commits(w, a) then SumOf(w.shards[a.s].pending.value, f) else 0
  }

  function SentOnBy(cfg: Config, w: World, a: Action, f: Tx -> int): int
    requires cfg.Valid()
  {
    if Commits(w, a) then SumOf(w.shards[a.s].pending.value, SentBelow(cfg, a.s, cfg.shardNum, f)) else 0
  }

  lemma StepCounts(cfg: Config, w: World, w': World, a: Action, f: Tx -> int)
    requires cfg.Valid() && WellRouted(cfg, w) && Step(cfg, w, w', a) && Undisturbed(f)
    ensures Waiting(w', f) == Waiting(w, f) + InjectedBy(a, f) - CommittedBy(w, a, f) + SentOnBy(cfg, w, a, f)
  {
    if a.Commit? {
      CommitCounts(cfg, w, w', a.s, f);
    } else {
      assert CommittedBy(w, a, f) == SentOnBy(cfg, w, a, f) == 0;
      OtherCounts(cfg, w, w', a, f);
    }
  }

  lemma OtherCounts(cfg: Config, w: World, w': World, a: Action, f: Tx -> int)
    requires cfg.Valid() && Step(cfg, w, w', a) && !a.Commit? && Undisturbed(f)
    ensures Waiting(w', f) == Waiting(w, f) + InjectedBy(a, f)
  {
    match a
    case Inject(m) => InjectCounts(cfg, w, w', m, f);
    case Deliver(m, clock) => DeliverCounts(cfg, w, w', m, clock, f);
    case Propose(s, body) => ProposeCounts(w, w', s, body, f);
  }

  lemma InjectCounts(cfg: Config, w: World, w': World, m: Message, f: Tx -> int)
    requires cfg.Valid() && InjectStep(cfg, w, w', m)
    ensures Waiting(w', f) == Waiting(w, f) + SumOf(m.txs, f)
  {
    SumMultisetUnion(w.net, multiset{m}, InMessage(f));
    SumMultisetRemove(multiset{m}, InMessage(f), m);
  }

  lemma DeliverCounts(cfg: Config, w: World, w': World, m: Message, clock: seq<nat>, f: Tx -> int)
    requires DeliverStep(cfg, w, w', m, clock) && Undisturbed(f)
    ensures Waiting(w', f) == Waiting(w, f)
  {
    var sh, entered := w.shards[m.to], StampAll(Arrived(cfg, m.txs, m.relay), clock);
    SumMultisetRemove(w.net, InMessage(f), m);
    SumMultisetUnion(sh.pool, multiset(entered), f);
    SumOfMultiset(entered, f);
    EnteringCounts(cfg, m.txs, m.relay, clock, f);
    ShardUpdate(w.shards, m.to, w'.shards[m.to], f);
  }

  lemma ProposeCounts(w: World, w': World, s: nat, body: seq<Tx>, f: Tx -> int)
    requires ProposeStep(w, w', s, body)
    ensures Waiting(w', f) == Waiting(w, f)
  {
    SumMultisetMinus(w.shards[s].pool, multiset(body), f);
    SumOfMultiset(body, f);
    ShardUpdate(w.shards, s, w'.shards[s], f);
  }

  lemma CommitCounts(cfg: Config, w: World, w': World, s: nat, f: Tx -> int)
    requires cfg.Valid() && WellRouted(cfg, w) && CommitStep(cfg, w, w', s)
    ensures Waiting(w', f) == Waiting(w, f) - SumOf(w.shards[s].pending.value, f)
              + SumOf(w.shards[s].pending.value, SentBelow(cfg, s, cfg.shardNum, f))
  {
    var body := w.shards[s].pending.value;
    var out := Outbox(cfg, s, body, cfg.shardNum);
    ShardUpdate(w.shards, s, w'.shards[s], f);
    OutboxCounts(cfg, s, body, cfg.shardNum, f);
    SumMultisetUnion(w.net, multiset(out), InMessage(f));
    SumOfMultiset(out, InMessage(f));
  }

  // ---------- whole runs ----------

  function Injected(acts: seq<Action>, k: nat, c: Tx): int
    requires k <= |acts|
  {
    if k == 0 then 0 else Injected(acts, k - 1, c) + InjectedBy(acts[k-1], FreshAs(c))
  }

  /** How often c is executed in its sender's shard, and as a relayed transaction, in the first k steps. */
  function ExecutedFresh(ws: seq<World>, acts: seq<Action>, k: nat, c: Tx): int
    requires |ws| == |acts| + 1 && k <= |acts|
  {
    if k == 0 then 0 else ExecutedFresh(ws, acts, k - 1, c) + CommittedBy(ws[k-1], acts[k-1], FreshAs(c))
  }

  function ExecutedRelayed(ws: seq<World>, acts: seq<Action>, k: nat, c: Tx): int
    requires |ws| == |acts| + 1 && k <= |acts|
  {
    if k == 0 then 0 else ExecutedRelayed(ws, acts, k - 1, c) + CommittedBy(ws[k-1], acts[k-1], RelayedAs(c))
  }

  predicate Crosses(cfg: Config, c: Tx)
    requires cfg.Valid()
  {
    cfg.ShardOf(c.sender) != cfg.ShardOf(c.recipient)
  }

  /** A well routed body sends on exactly its fresh copies, if they cross shards, and as relayed ones. */
  lemma {:induction false} SentOnCounts(cfg: Config, s: nat, body: seq<Tx>, c: Tx)
    requires cfg.Valid() && AllRouted(cfg, s, body)
    ensures SumOf(body, SentBelow(cfg, s, cfg.shardNum, FreshAs(c))) == 0
    ensures SumOf(body, SentBelow(cfg, s, cfg.shardNum, RelayedAs(c)))
         == if Crosses(cfg, c) then SumOf(body, FreshAs(c)) else 0
  {
    if body != [] {
      var init, tx := body[..|body|-1], body[|body|-1];
      SentOnCounts(cfg, s, init, c);
      assert Routed(cfg, s, tx);
      assert Core(Relayed(cfg, tx)) == Core(tx);
    }
  }

  lemma {:induction false} NothingInjectedRelayed(txs: seq<Tx>, c: Tx)
    requires forall i :: 0 <= i < |txs| ==> !txs[i].relayed
    ensures SumOf(txs, RelayedAs(c)) == 0
  {
    if txs != [] { NothingInjectedRelayed(txs[..|txs|-1], c); }
  }

  /**
   * No transaction is lost or doubled, in any run. The copies injected are waiting for their sender's shard or have
   * been executed there. Those executed there that cross shards are waiting for their recipient's shard or have been
   * executed there too; those that do not are never relayed.
   */
  lemma {:induction false} EveryTransactionOnce(cfg: Config, ws: seq<World>, acts: seq<Action>, k: nat, c: Tx)
    requires IsRun(cfg, ws, acts) && k <= |acts|
    ensures Injected(acts, k, c) == Waiting(ws[k], FreshAs(c)) + ExecutedFresh(ws, acts, k, c)
    ensures (if Crosses(cfg, c) then ExecutedFresh(ws, acts, k, c) else 0)
         == Waiting(ws[k], RelayedAs(c)) + ExecutedRelayed(ws, acts, k, c)
  {
    if k == 0 {
      NothingWaiting(cfg, ws[0], FreshAs(c));
      NothingWaiting(cfg, ws[0], RelayedAs(c));
    } else {
      EveryTransactionOnce(cfg, ws, acts, k - 1, c);
      MoneyConserved(cfg, ws, acts, k - 1);
      assert StepAt(cfg, ws, acts, k - 1);
      CopiesAfterStep(cfg, ws[k-1], ws[k], acts[k-1], c);
    }
  }

  lemma CopiesAfterStep(cfg: Config, w: World, w': World, a: Action, c: Tx)
    requires cfg.Valid() && WellRouted(cfg, w) && Step(cfg, w, w', a)
    ensures Waiting(w', FreshAs(c))
         == Waiting(w, FreshAs(c)) + InjectedBy(a, FreshAs(c)) - CommittedBy(w, a, FreshAs(c))
    ensures Waiting(w', RelayedAs(c)) == Waiting(w, RelayedAs(c)) - CommittedBy(w, a, RelayedAs(c))
              + if Crosses(cfg, c) then CommittedBy(w, a, FreshAs(c)) else 0
  {
    StepCounts(cfg, w, w', a, FreshAs(c));
    StepCounts(cfg, w, w', a, RelayedAs(c));
    if a.Inject? { NothingInjectedRelayed(a.m.txs, c); }
    if Commits(w, a) { SentOnCounts(cfg, a.s, w.shards[a.s].pending.value, c); }
  }

  lemma NothingWaiting(cfg: Config, w: World, f: Tx -> int)
    requires Init(cfg, w)
    ensures Waiting(w, f) == 0
  {
    SumSeqZero(InShards(w.shards, f));
  }

  // ---------- at most once ----------

  ghost predicate Counting(f: Tx -> int) {
    forall tx :: f(tx) >= 0
  }

  lemma WaitingNonNegative(w: World, f: Tx -> int)
    requires Counting(f)
    ensures Waiting(w, f) >= 0
  {
    forall s | 0 <= s < |w.shards| ensures InShards(w.shards, f)[s] >= 0 {
      SumMultisetNonNegative(w.shards[s].pool, f);
      if w.shards[s].pending.Some? { SumOfNonNegative(w.shards[s].pending.value, f); }
    }
    SumSeqNonNegative(InShards(w.shards, f));
    forall m ensures InMessage(f)(m) >= 0 { SumOfNonNegative(m.txs, f); }
    SumMultisetNonNegative(w.net, InMessage(f));
  }

  lemma {:induction false} ExecutedNonNegative(ws: seq<World>, acts: seq<Action>, k: nat, c: Tx)
    requires |ws| == |acts| + 1 && k <= |acts|
    ensures ExecutedFresh(ws, acts, k, c) >= 0 && ExecutedRelayed(ws, acts, k, c) >= 0
  {
    if k > 0 {
      ExecutedNonNegative(ws, acts, k - 1, c);
      if Commits(ws[k-1], acts[k-1]) {
        SumOfNonNegative(ws[k-1].shards[acts[k-1].s].pending.value, FreshAs(c));
        SumOfNonNegative(ws[k-1].shards[acts[k-1].s].pending.value, RelayedAs(c));
      }
    }
  }

  /**
   * No transaction is executed more often than it was injected, the recipient's shard never runs ahead of the
   * sender's, and once nothing of a transaction is waiting, both have executed every copy.
   */
  lemma ExecutedAtMostOnce(cfg: Config, ws: seq<World>, acts: seq<Action>, k: nat, c: Tx)
    requires IsRun(cfg, ws, acts) && k <= |acts|
    ensures 0 <= ExecutedRelayed(ws, acts, k, c) <= ExecutedFresh(ws, acts, k, c) <= Injected(acts, k, c)
    ensures !Crosses(cfg, c) ==> ExecutedRelayed(ws, acts, k, c) == 0
    ensures Waiting(ws[k], FreshAs(c)) == 0 ==> ExecutedFresh(ws, acts, k, c) == Injected(acts, k, c)
    ensures Crosses(cfg, c) && Waiting(ws[k], FreshAs(c)) == Waiting(ws[k], RelayedAs(c)) == 0 ==>
              ExecutedRelayed(ws, acts, k, c) == Injected(acts, k, c)
  {
    EveryTransactionOnce(cfg, ws, acts, k, c);
    WaitingNonNegative(ws[k], FreshAs(c));
    WaitingNonNegative(ws[k], RelayedAs(c));
    ExecutedNonNegative(ws, acts, k, c);
  }
}
