/** The supervisor's side: transaction injection and re-partition epochs (supervisor/committee). */
module Committee {
  import opened Shards
  import opened Sums
  import opened EdgeCounts
  import opened Transactions
  import opened Clpa

  const DEFAULT_FEE := 1_000_000_000

  // ---------- batched injection ----------

  /** The fields the injector fills in before a transaction is sent. */
  function Marked(tx: Tx, shardNum: nat, now: nat): Tx
    requires shardNum > 0
  {
    var sender, recipient := Addr2Shard(tx.sender, shardNum), Addr2Shard(tx.recipient, shardNum);
    tx.(fromShard := sender, toShard := recipient, isCrossShard := sender != recipient, pairID := tx.txHash,
        fee := if FeeOf(tx) == 0 then Some(DEFAULT_FEE) else tx.fee,
        arrivalTime := if tx.arrivalTime == 0 then now else tx.arrivalTime)
  }

  /** Field by field what the injector sets, and that it leaves the rest alone. */
  lemma WhatIsMarked(tx: Tx, shardNum: nat, now: nat)
    requires shardNum > 0
    ensures var m := Marked(tx, shardNum, now);
            && m.fromShard == Addr2Shard(tx.sender, shardNum) && m.toShard == Addr2Shard(tx.recipient, shardNum)
            && (m.isCrossShard <==> m.fromShard != m.toShard) && m.pairID == tx.txHash
            && (tx.fee.Some? && tx.fee.value != 0 ==> m.fee == tx.fee)
            && (tx.fee.None? || tx.fee.value == 0 ==> m.fee == Some(1_000_000_000))
            && m.arrivalTime == (if tx.arrivalTime != 0 then tx.arrivalTime else now)
            && (m.sender, m.recipient, m.value, m.txHash) == (tx.sender, tx.recipient, tx.value, tx.txHash)
            && (m.time, m.originalTime, m.relayed, m.isRelay2) == (tx.time, tx.originalTime, tx.relayed, tx.isRelay2)
  {
  }

  /** The list as it is sent: each transaction is marked as the clock reads when its turn comes. */
  function MarkedAll(txs: seq<Tx>, shardNum: nat, clock: seq<nat>): (r: seq<Tx>)
    requires shardNum > 0 && |clock| == |txs|
    ensures |r| == |txs| && forall i :: 0 <= i < |r| ==> r[i] == Marked(txs[i], shardNum, clock[i])
  {
    seq(|txs|, i requires 0 <= i < |txs| => Marked(txs[i], shardNum, clock[i]))
  }

  /** The marked transactions that come from shard sid, in list order. */
  function RoutedTo(txs: seq<Tx>, sid: nat): seq<Tx> {
    if txs == [] then []
    else RoutedTo(txs[..|txs|-1], sid) + if txs[|txs|-1].fromShard == sid then [txs[|txs|-1]] else []
  }

  datatype InjectTxs = InjectTxs(txs: seq<Tx>, toShardID: nat)

  /** One message for each of the first n shards, with its part of the transactions. */
  function Round(txs: seq<Tx>, n: nat): seq<InjectTxs> {
    if n == 0 then [] else Round(txs, n - 1) + [InjectTxs(RoutedTo(txs, n - 1), n - 1)]
  }

  /** All messages for a list: a round for every injectSpeed transactions and one for what is left over. */
  function Rounds(txs: seq<Tx>, shardNum: nat, injectSpeed: nat): seq<InjectTxs>
    requires injectSpeed > 0
  {
    if txs == [] then []
    else
      var n := if |txs| < injectSpeed then |txs| else injectSpeed;
      Round(txs[..n], shardNum) + Rounds(txs[n..], shardNum, injectSpeed)
  }

  /** What shard sid gets to see of a list of injection messages. */
  function Received(sent: seq<InjectTxs>, sid: nat): seq<Tx> {
    if sent == [] then []
    else
      var m := sent[|sent|-1];
      Received(sent[..|sent|-1], sid) + if m.toShardID == sid then m.txs else []
  }

  lemma ReceivedSnoc(sent: seq<InjectTxs>, m: InjectTxs, sid: nat)
    ensures Received(sent + [m], sid) == Received(sent, sid) + if m.toShardID == sid then m.txs else []
  {
    assert (sent + [m])[..|sent|] == sent;
  }

  lemma {:induction false} ReceivedConcat(a: seq<InjectTxs>, b: seq<InjectTxs>, sid: nat)
    ensures Received(a + b, sid) == Received(a, sid) + Received(b, sid)
  {
    if b == [] {
      assert a + b == a && Received(a, sid) + [] == Received(a, sid);
    } else {
      var init, m := b[..|b|-1], b[|b|-1];
      ReceivedConcat(a, init, sid);
      ReceivedSnoc(a + init, m, sid);
      assert a + b == a + init + [m];
    }
  }

  lemma {:induction false} RoutedConcat(a: seq<Tx>, b: seq<Tx>, sid: nat)
    ensures RoutedTo(a + b, sid) == RoutedTo(a, sid) + RoutedTo(b, sid)
  {
    if b == [] {
      assert a + b == a && RoutedTo(a, sid) + [] == RoutedTo(a, sid);
    } else {
      RoutedConcat(a, b[..|b|-1], sid);
      assert (a + b)[..|a + b|-1] == a + b[..|b|-1];
    }
  }

  lemma {:induction false} RoundDelivers(txs: seq<Tx>, n: nat, sid: nat)
    ensures Received(Round(txs, n), sid) == if sid < n then RoutedTo(txs, sid) else []
  {
    if n > 0 {
      var before, m := Round(txs, n - 1), InjectTxs(RoutedTo(txs, n - 1), n - 1);
      assert Round(txs, n) == before + [m];
      assert Received(before, sid) == if sid < n - 1 then RoutedTo(txs, sid) else [] by {
        RoundDelivers(txs, n - 1, sid);
      }
      ReceivedSnoc(before, m, sid);
    }
  }

  /** Over all messages each shard receives exactly its part of the list, in list order. */
  lemma {:induction false} RoundsDeliver(txs: seq<Tx>, shardNum: nat, injectSpeed: nat, sid: nat)
    requires injectSpeed > 0 && sid < shardNum
    ensures Received(Rounds(txs, shardNum, injectSpeed), sid) == RoutedTo(txs, sid)
    decreases |txs|
  {
    if txs != [] {
      var n := if |txs| < injectSpeed then |txs| else injectSpeed;
      var now, later := txs[..n], txs[n..];
      var rest := Rounds(later, shardNum, injectSpeed);
      assert txs == now + later;
      assert Received(rest, sid) == RoutedTo(later, sid) by { RoundsDeliver(later, shardNum, injectSpeed, sid); }
      assert Received(Round(now, shardNum), sid) == RoutedTo(now, sid) by { RoundDelivers(now, shardNum, sid); }
      DeliveredJoin(now, later, Round(now, shardNum), rest, sid);
    }
  }

  lemma DeliveredJoin(a: seq<Tx>, b: seq<Tx>, first: seq<InjectTxs>, rest: seq<InjectTxs>, sid: nat)
    requires Received(first, sid) == RoutedTo(a, sid) && Received(rest, sid) == RoutedTo(b, sid)
    ensures Received(first + rest, sid) == RoutedTo(a + b, sid)
  {
    ReceivedConcat(first, rest, sid);
    RoutedConcat(a, b, sid);
  }

  lemma {:induction false} RoundIs(txs: seq<Tx>, n: nat, s: nat)
    requires s < n
    ensures |Round(txs, n)| == n && Round(txs, n)[s] == InjectTxs(RoutedTo(txs, s), s)
  {
    RoundLength(txs, n);
    if s < n - 1 { RoundIs(txs, n - 1, s); } else { RoundLength(txs, n - 1); }
  }

  lemma {:induction false} RoundLength(txs: seq<Tx>, n: nat)
    ensures |Round(txs, n)| == n
  {
    if n > 0 { RoundLength(txs, n - 1); }
  }

  /** r times x, one after the other. */
  function Steps(r: nat, x: nat): nat {
    if r == 0 then 0 else Steps(r - 1, x) + x
  }

  lemma {:induction false} StepsAre(r: nat, x: nat)
    ensures Steps(r, x) == r * x
  {
    if r > 0 { StepsAre(r - 1, x); OneLess(r, x); }
  }

  /** The slice of n elements from a position on, or what is left of it. */
  function Slice(txs: seq<Tx>, from: nat, n: nat): seq<Tx>
    requires from <= |txs|
  {
    txs[from..if |txs| < from + n then |txs| else from + n]
  }

  lemma OneLess(r: nat, x: nat)
    requires r > 0
    ensures r * x == (r - 1) * x + x && (r + 1) * x == r * x + x && r * x >= x
  {
  }

  /** There are no other messages: one for every shard in every round. */
  lemma {:induction false} RoundsCount(txs: seq<Tx>, shardNum: nat, injectSpeed: nat, r: nat)
    requires injectSpeed > 0 && r * injectSpeed < |txs| + injectSpeed <= r * injectSpeed + injectSpeed
    ensures |Rounds(txs, shardNum, injectSpeed)| == r * shardNum
    decreases |txs|
  {
    if txs == [] {
      if r > 0 { OneLess(r, injectSpeed); }
      assert r == 0;
    } else {
      var n := if |txs| < injectSpeed then |txs| else injectSpeed;
      assert r > 0;
      OneLess(r, injectSpeed);
      OneLess(r, shardNum);
      RoundLength(txs[..n], shardNum);
      RoundsCount(txs[n..], shardNum, injectSpeed, r - 1);
    }
  }

  /** A single transaction goes to its sender's shard; with RoutedConcat this settles what any list sends a shard. */
  lemma RoutedOne(tx: Tx, sid: nat)
    ensures RoutedTo([tx], sid) == if tx.fromShard == sid then [tx] else []
  {
    assert [tx][..0] == [];
  }

  lemma {:induction false} RoutedAtMost(txs: seq<Tx>, sid: nat)
    ensures |RoutedTo(txs, sid)| <= |txs|
  {
    if txs != [] { RoutedAtMost(txs[..|txs|-1], sid); }
  }

  lemma {:induction false} RoundFits(txs: seq<Tx>, n: nat)
    ensures forall i :: 0 <= i < |Round(txs, n)| ==> Round(txs, n)[i].toShardID < n && |Round(txs, n)[i].txs| <= |txs|
  {
    if n > 0 {
      RoundFits(txs, n - 1);
      RoutedAtMost(txs, n - 1);
    }
  }

  /** Every message goes to a shard and is no longer than the injection speed. */
  lemma {:induction false} RoundsFit(txs: seq<Tx>, shardNum: nat, injectSpeed: nat)
    requires injectSpeed > 0
    ensures forall i :: 0 <= i < |Rounds(txs, shardNum, injectSpeed)| ==>
              && Rounds(txs, shardNum, injectSpeed)[i].toShardID < shardNum
              && |Rounds(txs, shardNum, injectSpeed)[i].txs| <= injectSpeed
    decreases |txs|
  {
    if txs != [] {
      var n := if |txs| < injectSpeed then |txs| else injectSpeed;
      RoundFits(txs[..n], shardNum);
      RoundsFit(txs[n..], shardNum, injectSpeed);
    }
  }

  function Batch(sendToShard: map<nat, seq<Tx>>, sid: nat): seq<Tx> {
    if sid in sendToShard then sendToShard[sid] else []
  }

  /** What is gathered for each shard is its part of the transactions since the last round. */
  predicate Gathers(sendToShard: map<nat, seq<Tx>>, txs: seq<Tx>, shardNum: nat) {
    forall sid :: 0 <= sid < shardNum ==> Batch(sendToShard, sid) == RoutedTo(txs, sid)
  }

  function Gathered(sendToShard: map<nat, seq<Tx>>, tx: Tx): map<nat, seq<Tx>> {
    sendToShard[tx.fromShard := Batch(sendToShard, tx.fromShard) + [tx]]
  }

  lemma GatherStep(sendToShard: map<nat, seq<Tx>>, txs: seq<Tx>, tx: Tx, shardNum: nat)
    requires Gathers(sendToShard, txs, shardNum)
    ensures Gathers(Gathered(sendToShard, tx), txs + [tx], shardNum)
  {
    assert (txs + [tx])[..|txs|] == txs;
    forall sid | 0 <= sid < shardNum ensures Batch(Gathered(sendToShard, tx), sid) == RoutedTo(txs + [tx], sid) {
      assert Batch(sendToShard, sid) == RoutedTo(txs, sid);
    }
  }

  /** One message to every shard, with whatever has been gathered for it. */
  method Flush(sent0: seq<InjectTxs>, sendToShard: map<nat, seq<Tx>>, shardNum: nat, ghost txs: seq<Tx>)
    returns (sent: seq<InjectTxs>)
    requires Gathers(sendToShard, txs, shardNum)
    ensures sent == sent0 + Round(txs, shardNum)
  {
    sent := sent0;
    for sid := 0 to shardNum
      invariant sent == sent0 + Round(txs, sid)
    {
      assert Batch(sendToShard, sid) == RoutedTo(txs, sid);
      assert sent0 + Round(txs, sid + 1) == sent + [InjectTxs(RoutedTo(txs, sid), sid)];
      sent := sent + [InjectTxs(Batch(sendToShard, sid), sid)];
    }
  }

  /** How many transactions have been gathered since the last round, when idx have been read. */
  function SinceRound(idx: nat, injectSpeed: nat): nat
    requires injectSpeed > 0
  {
    if idx > 0 && idx % injectSpeed == 0 then injectSpeed else idx % injectSpeed
  }

  lemma SinceRoundStep(idx: nat, n: nat)
    requires n > 0
    ensures SinceRound(idx + 1, n) == idx % n + 1 <= n
  {
    var q, r := idx / n, idx % n;
    Division(idx, n);
    Division(idx + 1, n);
    if r + 1 < n {
      UniqueDivision(n, q, r + 1, (idx + 1) / n, (idx + 1) % n);
    } else {
      NextMultiple(n, q);
      UniqueDivision(n, q + 1, 0, (idx + 1) / n, (idx + 1) % n);
    }
  }

  lemma Division(x: nat, n: nat)
    requires n > 0
    ensures x == n * (x / n) + x % n && 0 <= x % n < n
  {
  }

  lemma NextMultiple(n: nat, q: int)
    ensures n * (q + 1) == n * q + n
  {
  }

  lemma UniqueDivision(n: nat, q: int, r: int, q': int, r': int)
    requires n > 0 && 0 <= r < n && 0 <= r' < n && n * q + r == n * q' + r'
    ensures q == q' && r == r'
  {
    if q < q' { MultiplesGrow(n, q + 1, q'); NextMultiple(n, q); }
    if q' < q { MultiplesGrow(n, q' + 1, q); NextMultiple(n, q'); }
  }

  lemma MultiplesGrow(n: nat, q: int, q': int)
    requires q <= q'
    ensures n * q <= n * q'
  {
  }

  /** The rounds of a list from the next one on. */
  lemma RoundsUnfold(txs: seq<Tx>, start: nat, idx: nat, shardNum: nat, injectSpeed: nat)
    requires injectSpeed > 0 && start < idx <= |txs|
    requires idx - start == injectSpeed || (idx == |txs| && idx - start < injectSpeed)
    ensures Rounds(txs[start..], shardNum, injectSpeed)
         == Round(txs[start..idx], shardNum) + Rounds(txs[idx..], shardNum, injectSpeed)
  {
    var rest, n := txs[start..], idx - start;
    assert rest[..n] == txs[start..idx] && rest[n..] == txs[idx..];
  }

  /** The rounds before round r. */
  function FirstRounds(txs: seq<Tx>, shardNum: nat, injectSpeed: nat, r: nat): seq<InjectTxs>
    requires Steps(r, injectSpeed) <= |txs|
  {
    if r == 0 then []
    else FirstRounds(txs, shardNum, injectSpeed, r - 1)
         + Round(Slice(txs, Steps(r - 1, injectSpeed), injectSpeed), shardNum)
  }

  lemma {:induction false} FirstRoundsLength(txs: seq<Tx>, shardNum: nat, injectSpeed: nat, r: nat)
    requires Steps(r, injectSpeed) <= |txs|
    ensures |FirstRounds(txs, shardNum, injectSpeed, r)| == Steps(r, shardNum)
  {
    if r > 0 {
      FirstRoundsLength(txs, shardNum, injectSpeed, r - 1);
      RoundLength(Slice(txs, Steps(r - 1, injectSpeed), injectSpeed), shardNum);
    }
  }

  lemma {:induction false} RoundsFrom(txs: seq<Tx>, shardNum: nat, injectSpeed: nat, r: nat)
    requires injectSpeed > 0 && Steps(r, injectSpeed) <= |txs|
    ensures Rounds(txs, shardNum, injectSpeed)
         == FirstRounds(txs, shardNum, injectSpeed, r) + Rounds(txs[Steps(r, injectSpeed)..], shardNum, injectSpeed)
  {
    if r == 0 {
      assert txs[0..] == txs;
    } else {
      var start, idx := Steps(r - 1, injectSpeed), Steps(r, injectSpeed);
      RoundsFrom(txs, shardNum, injectSpeed, r - 1);
      RoundsUnfold(txs, start, idx, shardNum, injectSpeed);
    }
  }

  lemma Middle(a: seq<InjectTxs>, b: seq<InjectTxs>, c: seq<InjectTxs>, s: nat)
    requires s < |b|
    ensures |a| + s < |a + (b + c)| && (a + (b + c))[|a| + s] == b[s]
  {
  }

  lemma MessageAt(txs: seq<Tx>, shardNum: nat, injectSpeed: nat, r: nat, s: nat) returns (all: seq<InjectTxs>)
    requires injectSpeed > 0 && s < shardNum && Steps(r, injectSpeed) < |txs|
    ensures all == Rounds(txs, shardNum, injectSpeed) && Steps(r, shardNum) + s < |all|
    ensures all[Steps(r, shardNum) + s] == InjectTxs(RoutedTo(Slice(txs, Steps(r, injectSpeed), injectSpeed), s), s)
  {
    var start := Steps(r, injectSpeed);
    var idx := if |txs| < start + injectSpeed then |txs| else start + injectSpeed;
    var before, now := FirstRounds(txs, shardNum, injectSpeed, r), Round(txs[start..idx], shardNum);
    var later := Rounds(txs[idx..], shardNum, injectSpeed);
    all := before + (now + later);
    assert all == Rounds(txs, shardNum, injectSpeed) by {
      RoundsFrom(txs, shardNum, injectSpeed, r);
      RoundsUnfold(txs, start, idx, shardNum, injectSpeed);
    }
    assert |before| == Steps(r, shardNum) by { FirstRoundsLength(txs, shardNum, injectSpeed, r); }
    RoundIs(txs[start..idx], shardNum, s);
    Middle(before, now, later, s);
  }

  /** Message by message: round r sends shard s its part of the r-th slice of injectSpeed transactions. */
  lemma MessageOfRound(txs: seq<Tx>, shardNum: nat, injectSpeed: nat, r: nat, s: nat)
    requires injectSpeed > 0 && s < shardNum && r * injectSpeed < |txs|
    ensures r * shardNum + s < |Rounds(txs, shardNum, injectSpeed)|
    ensures Rounds(txs, shardNum, injectSpeed)[r * shardNum + s]
         == InjectTxs(RoutedTo(Slice(txs, r * injectSpeed, injectSpeed), s), s)
  {
    StepsAre(r, injectSpeed);
    StepsAre(r, shardNum);
    var all := MessageAt(txs, shardNum, injectSpeed, r, s);
  }

  /** Everything before start has been sent in rounds; everything from there to idx is gathered. */
  ghost predicate Sending(
    sent: seq<InjectTxs>, sendToShard: map<nat, seq<Tx>>, all: seq<Tx>, start: nat, idx: nat,
    shardNum: nat, injectSpeed: nat)
    requires injectSpeed > 0 && start <= idx <= |all|
  {
    && Gathers(sendToShard, all[start..idx], shardNum)
    && sent + Rounds(all[start..], shardNum, injectSpeed) == Rounds(all, shardNum, injectSpeed)
  }

  lemma AfterRound(
    sent: seq<InjectTxs>, sendToShard: map<nat, seq<Tx>>, all: seq<Tx>, start: nat, idx: nat,
    shardNum: nat, injectSpeed: nat)
    requires injectSpeed > 0 && start < idx <= |all|
    requires Sending(sent, sendToShard, all, start, idx, shardNum, injectSpeed)
    requires idx - start == injectSpeed || (idx == |all| && idx - start < injectSpeed)
    ensures Sending(sent + Round(all[start..idx], shardNum), map[], all, idx, idx, shardNum, injectSpeed)
  {
    RoundsUnfold(all, start, idx, shardNum, injectSpeed);
    var round, rest := Round(all[start..idx], shardNum), Rounds(all[idx..], shardNum, injectSpeed);
    assert sent + (round + rest) == sent + round + rest;
  }

  lemma AfterGather(
    sent: seq<InjectTxs>, sendToShard: map<nat, seq<Tx>>, all: seq<Tx>, start: nat, idx: nat,
    shardNum: nat, injectSpeed: nat)
    requires injectSpeed > 0 && start <= idx < |all|
    requires Sending(sent, sendToShard, all, start, idx, shardNum, injectSpeed)
    ensures Sending(sent, Gathered(sendToShard, all[idx]), all, start, idx + 1, shardNum, injectSpeed)
  {
    GatherStep(sendToShard, all[start..idx], all[idx], shardNum);
    assert all[start..idx+1] == all[start..idx] + [all[idx]];
  }

  /** For any positive injection speed the marked list is sent in rounds of that many transactions. */
  method TxSending(txlist: seq<Tx>, shardNum: nat, injectSpeed: nat, clock: seq<nat>) returns (sent: seq<InjectTxs>)
    requires shardNum > 0 && injectSpeed > 0 && |clock| == |txlist|
    ensures sent == Rounds(MarkedAll(txlist, shardNum, clock), shardNum, injectSpeed)
  {
    ghost var all := MarkedAll(txlist, shardNum, clock);
    ghost var start := 0;
    sent := [];
    var sendToShard: map<nat, seq<Tx>> := map[];
    var idx := 0;
    while true
      invariant 0 <= start <= idx <= |txlist| == |all| && idx - start == SinceRound(idx, injectSpeed)
      invariant Sending(sent, sendToShard, all, start, idx, shardNum, injectSpeed)
      decreases |txlist| - idx
    {
      SinceRoundStep(idx, injectSpeed);
      if idx > 0 && (idx % injectSpeed == 0 || idx == |txlist|) {
        AfterRound(sent, sendToShard, all, start, idx, shardNum, injectSpeed);
        sent := Flush(sent, sendToShard, shardNum, all[start..idx]);
        sendToShard := map[];
        start := idx;
      }
      if idx == |txlist| {
        break;
      }
      AfterGather(sent, sendToShard, all, start, idx, shardNum, injectSpeed);
      sendToShard := Gathered(sendToShard, Marked(txlist[idx], shardNum, clock[idx]));
      idx := idx + 1;
    }
    assert all[start..] == [];
  }

  /** Nothing is lost or repeated: the shards together receive as many transactions as were listed. */
  lemma {:induction false} RoutedLength(txs: seq<Tx>, shardNum: nat)
    requires forall i :: 0 <= i < |txs| ==> txs[i].fromShard < shardNum
    ensures SumSeq(seq(shardNum, sid requires sid >= 0 => |RoutedTo(txs, sid)|)) == |txs|
  {
    var lens := seq(shardNum, sid requires sid >= 0 => |RoutedTo(txs, sid)|);
    if txs == [] {
      SumSeqZero(lens);
    } else {
      var init := txs[..|txs|-1];
      var s := txs[|txs|-1].fromShard;
      var before := seq(shardNum, sid requires sid >= 0 => |RoutedTo(init, sid)|);
      RoutedLength(init, shardNum);
      SumSeqUpdate(before, s, before[s] + 1);
      assert lens == before[s := before[s] + 1];
    }
  }

  // ---------- re-partition epochs ----------

  class CLPACommittee {
    var clpaGraph: CLPAState
    var modifiedMap: AccountMap
    const shardNum: nat

    /** The partitioner's map agrees with the supervisor's for every account it knows. */
    ghost predicate Valid()
      reads this, clpaGraph, clpaGraph.netGraph, clpaGraph.vertexsNumInShard
    {
      && shardNum > 0 && clpaGraph.Valid() && clpaGraph.shardNum == shardNum && clpaGraph.VertexCountsExact()
      && Agrees(clpaGraph.partitionMap)
      && (forall a :: a in modifiedMap ==> modifiedMap[a] < shardNum && Vertex(a) in clpaGraph.partitionMap)
    }

    ghost predicate Agrees(pm: Partition)
      requires shardNum > 0
      reads this
    {
      forall v :: v in pm ==> pm[v] == Fetch(modifiedMap, v.addr, shardNum)
    }

    constructor (sn: nat)
      requires sn > 0
      ensures Valid() && shardNum == sn && modifiedMap == map[] && clpaGraph.netGraph.edges == []
      ensures clpaGraph.weightPenalty == 0.5 && clpaGraph.maxIterations == 100
      ensures fresh(clpaGraph) && fresh(clpaGraph.netGraph) && fresh(clpaGraph.vertexsNumInShard)
    {
      shardNum, modifiedMap := sn, map[];
      clpaGraph := new CLPAState(0.5, 100, sn);
    }

    /** Every reported transfer becomes an edge; where accounts live does not change. */
    method HandleBlockInfo(txs: seq<Tx>)
      requires Valid()
      modifies clpaGraph`partitionMap, clpaGraph.netGraph, clpaGraph.vertexsNumInShard
      ensures Valid() && clpaGraph.netGraph.edges == old(clpaGraph.netGraph.edges) + TxEdges(txs)
    {
      for i := 0 to |txs|
        invariant Valid() && clpaGraph.netGraph.edges == old(clpaGraph.netGraph.edges) + TxEdges(txs[..i])
      {
        assert txs[..i+1][..i] == txs[..i];
        clpaGraph.AddEdge(Vertex(txs[i].sender), Vertex(txs[i].recipient));
      }
      assert txs[..|txs|] == txs;
    }

    /**
     * One epoch: run the partitioner, merge its result, start a fresh partitioner on the merged map. The final
     * partition of the run, the merged map and the fresh partitioner all place every account alike.
     */
    method Repartition() returns (mmap: AccountMap, ghost final: Partition)
      requires Valid()
      modifies this, clpaGraph, clpaGraph.vertexsNumInShard
      ensures Valid() && modifiedMap == old(modifiedMap) + mmap
      ensures forall v :: v in old(clpaGraph.netGraph.vertexSet) ==> v in final
      ensures Agrees(final)
      ensures clpaGraph.netGraph.edges == [] && clpaGraph.weightPenalty == 0.5 && clpaGraph.maxIterations == 100
      ensures fresh(clpaGraph) && fresh(clpaGraph.netGraph) && fresh(clpaGraph.vertexsNumInShard)
    {
      ghost var start := clpaGraph.partitionMap;
      var cross; ghost var moves, inc, run;
      mmap, cross, moves, inc, run := clpaGraph.Partition();
      final := clpaGraph.partitionMap;
      forall a | a in mmap ensures mmap[a] < shardNum && Vertex(a) in final {
        assert final[Vertex(a)] == Overlaid(start, mmap, Vertex(a));
      }
      modifiedMap := modifiedMap + mmap;
      assert Agrees(final);
      ClpaReset();
    }

    method ClpaReset()
      requires shardNum > 0
      requires forall a :: a in modifiedMap ==> modifiedMap[a] < shardNum
      modifies this`clpaGraph
      ensures Valid() && clpaGraph.netGraph.edges == []
      ensures clpaGraph.weightPenalty == 0.5 && clpaGraph.maxIterations == 100
      ensures fresh(clpaGraph) && fresh(clpaGraph.netGraph) && fresh(clpaGraph.vertexsNumInShard)
    {
      clpaGraph := new CLPAState(0.5, 100, shardNum);
      var todo := modifiedMap.Keys;
      while todo != {}
        invariant todo <= modifiedMap.Keys
        invariant fresh(clpaGraph) && fresh(clpaGraph.vertexsNumInShard) && fresh(clpaGraph.netGraph)
        invariant clpaGraph.Valid() && clpaGraph.shardNum == shardNum && clpaGraph.VertexCountsExact()
        invariant clpaGraph.weightPenalty == 0.5 && clpaGraph.maxIterations == 100
        invariant clpaGraph.netGraph.vertexSet == {} && clpaGraph.netGraph.edges == []
        invariant forall v :: v in clpaGraph.partitionMap ==>
                    v.addr in modifiedMap && clpaGraph.partitionMap[v] == modifiedMap[v.addr]
        invariant forall a :: a in modifiedMap && a !in todo ==> Vertex(a) in clpaGraph.partitionMap
        decreases todo
      {
        var a :| a in todo;
        clpaGraph.Preset(Vertex(a), modifiedMap[a]);
        todo := todo - {a};
      }
    }
  }

  function TxEdges(txs: seq<Tx>): seq<Edge> {
    if txs == [] then []
    else TxEdges(txs[..|txs|-1]) + [(Vertex(txs[|txs|-1].sender), Vertex(txs[|txs|-1].recipient))]
  }

  // ---------- the workers' copies of the map ----------

  /** A worker node's partition map (chain/blockchain.go), updated entry by entry when a round completes. */
  class PartitionTable {
    var partitionMap: AccountMap
    const shardNum: nat

    constructor (sn: nat)
      ensures partitionMap == map[] && shardNum == sn
    {
      partitionMap, shardNum := map[], sn;
    }

    function GetPartitionMap(key: Address): nat
      requires shardNum > 0
      reads this
    {
      Fetch(partitionMap, key, shardNum)
    }

    method UpdatePartitionMap(key: Address, val: nat)
      modifies this
      ensures partitionMap == old(partitionMap)[key := val]
    {
      partitionMap := partitionMap[key := val];
    }

    /** Applying a round entry by entry, in any order, overlays the whole round. */
    method AccountTransfer(round: AccountMap)
      modifies this
      ensures partitionMap == old(partitionMap) + round
    {
      var todo := round.Keys;
      while todo != {}
        invariant todo <= round.Keys
        invariant partitionMap == old(partitionMap) + (map a | a in round && a !in todo :: round[a])
        decreases todo
      {
        var a :| a in todo;
        UpdatePartitionMap(a, round[a]);
        todo := todo - {a};
      }
    }
  }

  /** The map after some rounds, applied in order. */
  function AfterRounds(rounds: seq<AccountMap>): AccountMap {
    if rounds == [] then map[] else AfterRounds(rounds[..|rounds|-1]) + rounds[|rounds|-1]
  }

  lemma OverlayAssociates(a: AccountMap, b: AccountMap, c: AccountMap)
    ensures (a + b) + c == a + (b + c)
  {
  }

  lemma {:induction false} RoundsCompose(rounds: seq<AccountMap>, j: nat)
    requires j <= |rounds|
    ensures AfterRounds(rounds) == AfterRounds(rounds[..j]) + AfterRounds(rounds[j..])
  {
    if j == |rounds| {
      assert rounds[..j] == rounds;
    } else {
      var n := |rounds| - 1;
      RoundsCompose(rounds[..n], j);
      assert rounds[..n][..j] == rounds[..j];
      assert rounds[j..][..n - j] == rounds[..n][j..];
      OverlayAssociates(AfterRounds(rounds[..j]), AfterRounds(rounds[..n][j..]), rounds[n]);
    }
  }

  /**
   * A worker that has applied the first j rounds places an account like the supervisor exactly when the
   * rounds it misses, taken together, leave the account where it was.
   */
  lemma LaggingWorker(rounds: seq<AccountMap>, j: nat, key: Address, shardNum: nat)
    requires shardNum > 0 && j <= |rounds|
    ensures var missed, here := AfterRounds(rounds[j..]), Fetch(AfterRounds(rounds[..j]), key, shardNum);
            Fetch(AfterRounds(rounds), key, shardNum) == here <==> (key in missed ==> missed[key] == here)
  {
    RoundsCompose(rounds, j);
  }

  /** The supervisor's part of a round: transfers are reported, the partitioner runs, the result is merged. */
  method SupervisorRound(c: CLPACommittee, txs: seq<Tx>) returns (ghost final: Partition, round: AccountMap)
    requires c.Valid() && c.clpaGraph.netGraph.edges == []
    modifies c, c.clpaGraph, c.clpaGraph.netGraph, c.clpaGraph.vertexsNumInShard
    ensures c.Valid() && c.clpaGraph.netGraph.edges == [] && c.Agrees(final) && Ends(txs) <= final.Keys
    ensures c.modifiedMap == old(c.modifiedMap) + round
    ensures fresh(c.clpaGraph) && fresh(c.clpaGraph.netGraph) && fresh(c.clpaGraph.vertexsNumInShard)
  {
    c.HandleBlockInfo(txs);
    assert c.clpaGraph.netGraph.edges == TxEdges(txs);
    CoveredEnds(txs, c.clpaGraph.netGraph.vertexSet);
    round, final := c.Repartition();
  }

  /** The supervisor completes a round, or worker k applies the next round it has not applied yet. */
  datatype RoundEvent = Complete(reported: seq<Tx>) | Apply(worker: nat)

  /** Each worker's map is what the rounds it has applied make of it. */
  ghost predicate WorkersAt(workers: seq<PartitionTable>, rounds: seq<AccountMap>, done: seq<nat>, sn: nat)
    reads workers
  {
    && |workers| == |done|
    && (forall i, j :: 0 <= i < j < |workers| ==> workers[i] != workers[j])
    && (forall k :: 0 <= k < |workers| ==>
          workers[k].shardNum == sn && done[k] <= |rounds| && workers[k].partitionMap == AfterRounds(rounds[..done[k]]))
  }

  /** Worker k applies its next round, if there is one; the other workers are not touched. */
  method ApplyNext(workers: seq<PartitionTable>, rounds: seq<AccountMap>, done: seq<nat>, k: nat, ghost sn: nat)
    returns (after: seq<nat>)
    requires WorkersAt(workers, rounds, done, sn)
    modifies workers
    ensures WorkersAt(workers, rounds, after, sn)
    ensures after == if k < |workers| && done[k] < |rounds| then done[k := done[k] + 1] else done
  {
    after := done;
    if k < |workers| && done[k] < |rounds| {
      assert rounds[..done[k]+1][..done[k]] == rounds[..done[k]];
      workers[k].AccountTransfer(rounds[done[k]]);
      after := done[k := done[k] + 1];
    }
  }

  /** A round completed by the supervisor; no worker has applied it yet. */
  method CompleteRound(
    c: CLPACommittee, txs: seq<Tx>, ghost workers: seq<PartitionTable>, rounds: seq<AccountMap>,
    ghost done: seq<nat>, ghost sn: nat)
    returns (ghost final: Partition, after: seq<AccountMap>)
    requires c.Valid() && c.clpaGraph.netGraph.edges == [] && c.modifiedMap == AfterRounds(rounds)
    requires WorkersAt(workers, rounds, done, sn)
    modifies c, c.clpaGraph, c.clpaGraph.netGraph, c.clpaGraph.vertexsNumInShard
    ensures c.Valid() && c.clpaGraph.netGraph.edges == [] && c.Agrees(final) && Ends(txs) <= final.Keys
    ensures |after| == |rounds| + 1 && c.modifiedMap == AfterRounds(after) && WorkersAt(workers, after, done, sn)
    ensures fresh(c.clpaGraph) && fresh(c.clpaGraph.netGraph) && fresh(c.clpaGraph.vertexsNumInShard)
  {
    var round;
    final, round := SupervisorRound(c, txs);
    OneMoreRound(workers, rounds, done, sn, round);
    after := rounds + [round];
  }

  method NewWorkers(sn: nat, n: nat) returns (workers: seq<PartitionTable>, done: seq<nat>)
    ensures |workers| == n && WorkersAt(workers, [], done, sn) && fresh(workers)
  {
    workers, done := [], [];
    for k := 0 to n
      invariant |workers| == k && WorkersAt(workers, [], done, sn) && fresh(workers)
    {
      var w := new PartitionTable(sn);
      workers, done := workers + [w], done + [0];
    }
  }

  function RoundsDone(events: seq<RoundEvent>): nat {
    if events == [] then 0 else RoundsDone(events[..|events|-1]) + if events[|events|-1].Complete? then 1 else 0
  }

  /** How many rounds worker k has applied; an attempt with nothing to apply does not count. */
  function AppliedBy(events: seq<RoundEvent>, k: nat): nat {
    if events == [] then 0
    else
      var n := |events| - 1;
      AppliedBy(events[..n], k)
      + if events[n] == Apply(k) && AppliedBy(events[..n], k) < RoundsDone(events[..n]) then 1 else 0
  }

  /** The transfers reported in the last round. */
  function LastReported(events: seq<RoundEvent>): seq<Tx> {
    if events == [] then []
    else if events[|events|-1].Complete? then events[|events|-1].reported
    else LastReported(events[..|events|-1])
  }

  /** The numbers of completed and of applied rounds are what the events make them. */
  ghost predicate CountsEvents(events: seq<RoundEvent>, roundNum: nat, done: seq<nat>) {
    roundNum == RoundsDone(events) && forall k :: 0 <= k < |done| ==> done[k] == AppliedBy(events, k)
  }

  lemma OneMoreEvent(past: seq<RoundEvent>, e: RoundEvent, roundNum: nat, done: seq<nat>)
    requires CountsEvents(past, roundNum, done)
    ensures e.Complete? ==> CountsEvents(past + [e], roundNum + 1, done) && LastReported(past + [e]) == e.reported
    ensures e.Apply? ==> LastReported(past + [e]) == LastReported(past)
    ensures e.Apply? && e.worker < |done| && done[e.worker] < roundNum ==>
              CountsEvents(past + [e], roundNum, done[e.worker := done[e.worker] + 1])
    ensures e.Apply? && !(e.worker < |done| && done[e.worker] < roundNum) ==> CountsEvents(past + [e], roundNum, done)
  {
    assert (past + [e])[..|past|] == past;
  }

  /** Where the events have brought supervisor and workers. */
  ghost predicate After(
    events: seq<RoundEvent>, c: CLPACommittee, workers: seq<PartitionTable>,
    final: Partition, rounds: seq<AccountMap>, done: seq<nat>)
    reads c, c.clpaGraph, c.clpaGraph.netGraph, c.clpaGraph.vertexsNumInShard, workers
  {
    && c.Valid() && c.clpaGraph.netGraph.edges == [] && c.modifiedMap == AfterRounds(rounds)
    && WorkersAt(workers, rounds, done, c.shardNum) && CountsEvents(events, |rounds|, done)
    && c.Agrees(final) && Ends(LastReported(events)) <= final.Keys
  }

  /** One event of the supervisor or of a worker. */
  method OnEvent(
    ghost past: seq<RoundEvent>, e: RoundEvent, c: CLPACommittee, workers: seq<PartitionTable>,
    ghost final0: Partition, rounds0: seq<AccountMap>, done0: seq<nat>)
    returns (ghost final: Partition, rounds: seq<AccountMap>, done: seq<nat>)
    requires After(past, c, workers, final0, rounds0, done0)
    modifies c, c.clpaGraph, c.clpaGraph.netGraph, c.clpaGraph.vertexsNumInShard, workers
    ensures After(past + [e], c, workers, final, rounds, done)
    ensures fresh(c.clpaGraph) || c.clpaGraph == old(c.clpaGraph)
    ensures fresh(c.clpaGraph.netGraph) || c.clpaGraph.netGraph == old(c.clpaGraph.netGraph)
    ensures fresh(c.clpaGraph.vertexsNumInShard) || c.clpaGraph.vertexsNumInShard == old(c.clpaGraph.vertexsNumInShard)
  {
    OneMoreEvent(past, e, |rounds0|, done0);
    final, rounds, done := final0, rounds0, done0;
    match e
    case Complete(txs) => final, rounds := CompleteRound(c, txs, workers, rounds0, done0, c.shardNum);
    case Apply(k) => done := ApplyNext(workers, rounds0, done0, k, c.shardNum);
  }

  /**
   * Any number of rounds and of workers, each applying the rounds in order but at its own pace and each round
   * entry by entry in any order. The supervisor's map is the overlay of all rounds and a worker's of those it has
   * applied; the fresh partitioner and the last final partition agree with the supervisor, and so with every
   * worker that has caught up.
   */
  method CompletedRounds(sn: nat, workerNum: nat, events: seq<RoundEvent>)
    returns (c: CLPACommittee, workers: seq<PartitionTable>,
             ghost final: Partition, rounds: seq<AccountMap>, done: seq<nat>)
    requires sn > 0
    ensures After(events, c, workers, final, rounds, done) && c.shardNum == sn && |workers| == workerNum
    ensures forall k, v :: 0 <= k < workerNum && done[k] == |rounds| && v in c.clpaGraph.partitionMap ==>
              workers[k].GetPartitionMap(v.addr) == c.clpaGraph.partitionMap[v]
    ensures forall k, v :: 0 <= k < workerNum && done[k] == |rounds| && v in final ==>
              workers[k].GetPartitionMap(v.addr) == final[v]
  {
    workers, done := NewWorkers(sn, workerNum);
    c := new CLPACommittee(sn);
    final, rounds := map[], [];
    for i := 0 to |events|
      invariant After(events[..i], c, workers, final, rounds, done) && c.shardNum == sn && |workers| == workerNum
      invariant fresh(c) && fresh(workers)
      invariant fresh(c.clpaGraph) && fresh(c.clpaGraph.netGraph) && fresh(c.clpaGraph.vertexsNumInShard)
    {
      assert events[..i+1] == events[..i] + [events[i]];
      final, rounds, done := OnEvent(events[..i], events[i], c, workers, final, rounds, done);
    }
    assert events[..|events|] == events;
    CaughtUpWorkers(workers, rounds, done, sn);
  }

  lemma OneMoreRound(workers: seq<PartitionTable>, rounds: seq<AccountMap>, done: seq<nat>, sn: nat, round: AccountMap)
    requires WorkersAt(workers, rounds, done, sn)
    ensures WorkersAt(workers, rounds + [round], done, sn)
    ensures AfterRounds(rounds + [round]) == AfterRounds(rounds) + round
  {
    assert (rounds + [round])[..|rounds|] == rounds;
    forall k | 0 <= k < |workers| ensures (rounds + [round])[..done[k]] == rounds[..done[k]] {}
  }

  lemma CaughtUpWorkers(workers: seq<PartitionTable>, rounds: seq<AccountMap>, done: seq<nat>, sn: nat)
    requires sn > 0 && WorkersAt(workers, rounds, done, sn)
    ensures forall k :: 0 <= k < |workers| && done[k] == |rounds| ==> workers[k].partitionMap == AfterRounds(rounds)
  {
    assert rounds[..|rounds|] == rounds;
  }

  /** The accounts that some transfers mention. */
  function Ends(txs: seq<Tx>): set<Vertex> {
    if txs == [] then {} else Ends(txs[..|txs|-1]) + {Vertex(txs[|txs|-1].sender), Vertex(txs[|txs|-1].recipient)}
  }

  lemma {:induction false} CoveredEnds(txs: seq<Tx>, vs: set<Vertex>)
    requires Covers(vs, TxEdges(txs))
    ensures Ends(txs) <= vs
  {
    if txs != [] {
      var n := |TxEdges(txs)| - 1;
      assert TxEdges(txs)[..n] == TxEdges(txs[..|txs|-1]);
      CoveredEnds(txs[..|txs|-1], vs);
      assert TxEdges(txs)[n].0 in vs;
    }
  }
}
