/** The priority transaction pool: a binary heap by fee and time (core/txpool_justitia.go). */
module PriorityPool {
  import opened Shards
  import opened Transactions
  import opened PooledTxs
  import opened Scheduler

  // ---------- the heap ----------

  function PoolRank(p: PooledTx): Rank {
    Rank(FeeOf(p.tx), p.tx.time)
  }

  /** Higher fees first, then earlier times. */
  predicate Less(a: PooledTx, b: PooledTx) {
    Ahead(PoolRank(a), PoolRank(b))
  }

  function Parent(i: nat): nat
    requires i > 0
  {
    (i - 1) / 2
  }

  /** Entry i is not ahead of its parent. */
  predicate HeapAt(s: seq<PooledTx>, i: nat)
    requires 0 < i < |s|
  {
    !Less(s[i], s[Parent(i)])
  }

  predicate IsHeap(s: seq<PooledTx>) {
    forall i :: 0 < i < |s| ==> HeapAt(s, i)
  }

  /** Nothing in a heap is ahead of its root. */
  lemma {:induction false} RootIsFirst(s: seq<PooledTx>, i: nat)
    requires IsHeap(s) && i < |s|
    ensures !Less(s[i], s[0])
    decreases i
  {
    if i > 0 {
      assert HeapAt(s, i);
      RootIsFirst(s, Parent(i));
    }
  }

  function Swapped(s: seq<PooledTx>, i: nat, j: nat): (r: seq<PooledTx>)
    requires i < |s| && j < |s|
    ensures |r| == |s| && multiset(r) == multiset(s)
  {
    s[i := s[j]][j := s[i]]
  }

  /** The heap order holds but perhaps between j and its parent, which j's children do not outrank either. */
  predicate HeapButAbove(s: seq<PooledTx>, j: nat) {
    && j < |s|
    && (forall i :: 0 < i < |s| && i != j ==> HeapAt(s, i))
    && (j > 0 ==> forall i :: 0 < i < |s| && Parent(i) == j ==> !Less(s[i], s[Parent(j)]))
  }

  /** The heap order holds but perhaps between j and its children, which do not outrank j's parent either. */
  predicate HeapButBelow(s: seq<PooledTx>, j: nat) {
    && (forall i :: 0 < i < |s| && Parent(i) != j ==> HeapAt(s, i))
    && (0 < j < |s| ==> forall i :: 0 < i < |s| && Parent(i) == j ==> !Less(s[i], s[Parent(j)]))
  }

  lemma UpStep(s: seq<PooledTx>, j: nat)
    requires HeapButAbove(s, j) && j > 0 && Less(s[j], s[Parent(j)])
    ensures HeapButAbove(Swapped(s, Parent(j), j), Parent(j))
  {
    var p, r := Parent(j), Swapped(s, Parent(j), j);
    forall i | 0 < i < |s| && i != p ensures HeapAt(r, i) {
      if i != j { assert HeapAt(s, i); }
    }
    if p > 0 {
      assert HeapAt(s, p);
      forall i | 0 < i < |s| && Parent(i) == p ensures !Less(r[i], r[Parent(p)]) {
        if i != j { assert HeapAt(s, i); }
      }
    }
  }

  lemma DownStep(s: seq<PooledTx>, i: nat, j: nat)
    requires HeapButBelow(s, i) && i < |s| && 0 < j < |s| && Parent(j) == i && Less(s[j], s[i])
    requires forall k :: 0 < k < |s| && Parent(k) == i ==> !Less(s[k], s[j])
    ensures HeapButBelow(Swapped(s, i, j), j)
  {
    var r := Swapped(s, i, j);
    forall k | 0 < k < |s| && Parent(k) != j ensures HeapAt(r, k) {
      if Parent(k) != i { assert HeapAt(s, k); }
    }
    forall k | 0 < k < |s| && Parent(k) == j ensures !Less(r[k], r[Parent(j)]) {
      assert HeapAt(s, k);
    }
  }

  /** The slice under Go's container/heap. */
  class TxPriorityQueue {
    var items: seq<PooledTx>

    constructor ()
      ensures items == []
    {
      items := [];
    }

    /** Appends the entry and lets it rise. */
    method Push(p: PooledTx)
      requires IsHeap(items)
      modifies this
      ensures IsHeap(items) && multiset(items) == old(multiset(items)) + multiset{p}
    {
      Appended(items, p);
      items := items + [p];
      var j: nat := |items| - 1;
      while j > 0 && Less(items[j], items[Parent(j)])
        invariant HeapButAbove(items, j) && multiset(items) == old(multiset(items)) + multiset{p}
      {
        UpStep(items, j);
        items := Swapped(items, Parent(j), j);
        j := Parent(j);
      }
    }

    /** Takes out the root: the last entry replaces it and sinks. */
    method Pop() returns (p: PooledTx)
      requires IsHeap(items) && items != []
      modifies this
      ensures IsHeap(items) && old(multiset(items)) == multiset(items) + multiset{p}
      ensures forall q :: q in items ==> !Less(q, p)
    {
      ghost var was := items;
      var n := |items| - 1;
      p := items[0];
      LastToRoot(items);
      items := Swapped(items, 0, n)[..n];
      Down();
      PoppedIsFirst(was, items, p);
    }

    /** Lets the root sink below its better children. */
    method Down()
      requires HeapButBelow(items, 0)
      modifies this
      ensures IsHeap(items) && multiset(items) == old(multiset(items))
    {
      var i := 0;
      while 2 * i + 1 < |items|
        invariant HeapButBelow(items, i) && multiset(items) == old(multiset(items))
        decreases |items| - i
      {
        var j := BetterChild(items, i);
        if !Less(items[j], items[i]) {
          BetterChildStops(items, i);
          return;
        }
        DownStep(items, i, j);
        items := Swapped(items, i, j);
        i := j;
      }
      assert IsHeap(items);
    }
  }

  /** The child of i that sinking compares with: the right one only if it is ahead of the left one. */
  function BetterChild(s: seq<PooledTx>, i: nat): (j: nat)
    requires 2 * i + 1 < |s|
    ensures 0 < j < |s| && Parent(j) == i
    ensures forall k :: 0 < k < |s| && Parent(k) == i ==> !Less(s[k], s[j])
  {
    var j := 2 * i + 1;
    if j + 1 < |s| && Less(s[j + 1], s[j]) then j + 1 else j
  }

  /** Sinking stops where the better child is not ahead. */
  lemma BetterChildStops(s: seq<PooledTx>, i: nat)
    requires HeapButBelow(s, i) && 2 * i + 1 < |s| && !Less(s[BetterChild(s, i)], s[i])
    ensures IsHeap(s)
  {
  }

  lemma Appended(s: seq<PooledTx>, p: PooledTx)
    requires IsHeap(s)
    ensures HeapButAbove(s + [p], |s|)
  {
    forall i | 0 < i < |s| ensures HeapAt(s + [p], i) {
      assert HeapAt(s, i);
    }
  }

  lemma LastToRoot(s: seq<PooledTx>)
    requires IsHeap(s) && s != []
    ensures var r := Swapped(s, 0, |s| - 1)[..|s|-1];
            HeapButBelow(r, 0) && multiset(s) == multiset(r) + multiset{s[0]}
  {
    var n := |s| - 1;
    var r := Swapped(s, 0, n)[..n];
    forall i | 0 < i < |r| && Parent(i) != 0 ensures HeapAt(r, i) {
      assert HeapAt(s, i);
    }
    assert Swapped(s, 0, n) == r + [s[0]];
  }

  lemma PoppedIsFirst(was: seq<PooledTx>, s: seq<PooledTx>, p: PooledTx)
    requires IsHeap(was) && was != [] && p == was[0] && multiset(s) + multiset{p} == multiset(was)
    ensures forall q :: q in s ==> !Less(q, p)
  {
    forall q | q in s ensures !Less(q, p) {
      assert q in multiset(was);
      var i :| 0 <= i < |was| && was[i] == q;
      RootIsFirst(was, i);
    }
  }

  // ---------- emptying the heap in order ----------

  predicate InLessOrder(s: seq<PooledTx>) {
    forall i, j :: 0 <= i < j < |s| ==> !Less(s[j], s[i])
  }

  /** The order spelt out: higher fees first and, among equal fees, earlier times. */
  lemma LessOrderMeans(s: seq<PooledTx>)
    ensures InLessOrder(s) <==> forall i, j :: 0 <= i < j < |s| ==> InOrder(s[i], s[j])
  {
  }

  predicate InOrder(a: PooledTx, b: PooledTx) {
    FeeOf(a.tx) > FeeOf(b.tx) || (FeeOf(a.tx) == FeeOf(b.tx) && a.tx.time <= b.tx.time)
  }

  /** Nothing left is ahead of anything taken. */
  predicate NoneAhead(left: multiset<PooledTx>, taken: seq<PooledTx>) {
    forall q, i :: q in left && 0 <= i < |taken| ==> !Less(q, taken[i])
  }

  lemma TakeNext(before: multiset<PooledTx>, p: PooledTx, after: multiset<PooledTx>, taken: seq<PooledTx>)
    requires InLessOrder(taken) && NoneAhead(before, taken) && before == after + multiset{p}
    requires forall q :: q in after ==> !Less(q, p)
    ensures InLessOrder(taken + [p]) && NoneAhead(after, taken + [p])
  {
    assert p in before;
    forall q | q in after ensures q in before {
    }
  }

  // ---------- which entries go back ----------

  function Hashes(s: seq<PooledTx>): (h: set<string>)
    ensures forall p :: p in s ==> p.tx.txHash in h
    ensures forall x :: x in h ==> exists i :: 0 <= i < |s| && s[i].tx.txHash == x
  {
    set i | 0 <= i < |s| :: s[i].tx.txHash
  }

  /** The entries whose hash is not in h, in order. */
  function Others(s: seq<PooledTx>, h: set<string>): seq<PooledTx> {
    if s == [] then []
    else Others(s[..|s|-1], h) + if s[|s|-1].tx.txHash in h then [] else [s[|s|-1]]
  }

  lemma {:induction false} OthersCount(s: seq<PooledTx>, h: set<string>, p: PooledTx)
    ensures multiset(Others(s, h))[p] == if p.tx.txHash in h then 0 else multiset(s)[p]
  {
    if s != [] {
      assert s == s[..|s|-1] + [s[|s|-1]];
      OthersCount(s[..|s|-1], h, p);
    }
  }

  lemma OthersSnoc(s: seq<PooledTx>, h: set<string>, i: nat)
    requires i < |s|
    ensures multiset(Others(s[..i+1], h))
         == multiset(Others(s[..i], h)) + if s[i].tx.txHash in h then multiset{} else multiset{s[i]}
  {
    assert s[..i+1][..i] == s[..i];
  }

  /** An entry that was not selected has the hash of one that was. */
  predicate HashShared(all: multiset<PooledTx>, selected: seq<PooledTx>) {
    exists p :: p in all - multiset(selected) && p.tx.txHash in Hashes(selected)
  }

  /** Putting back by hash loses nothing exactly when no unselected entry shares a hash with a selected one. */
  lemma NothingLostIff(all: seq<PooledTx>, selected: seq<PooledTx>)
    requires multiset(selected) <= multiset(all)
    ensures multiset(Others(all, Hashes(selected))) + multiset(selected) == multiset(all)
       <==> !HashShared(multiset(all), selected)
  {
    var h := Hashes(selected);
    var back := multiset(Others(all, h)) + multiset(selected);
    forall p: PooledTx ensures back[p] == CountBack(multiset(all), selected, p) {
      OthersCount(all, h, p);
      if p.tx.txHash !in h { NotSelected(selected, p); }
    }
    SameCountsIff(back, multiset(all), selected);
  }

  /** How often p is in the pool after the round, with the selected ones counted in. */
  ghost function CountBack(all: multiset<PooledTx>, selected: seq<PooledTx>, p: PooledTx): nat {
    if p.tx.txHash in Hashes(selected) then multiset(selected)[p] else all[p]
  }

  lemma NotSelected(selected: seq<PooledTx>, p: PooledTx)
    requires p.tx.txHash !in Hashes(selected)
    ensures multiset(selected)[p] == 0
  {
    assert p !in selected;
  }

  lemma SameCountsIff(back: multiset<PooledTx>, all: multiset<PooledTx>, selected: seq<PooledTx>)
    requires multiset(selected) <= all
    requires forall p: PooledTx :: back[p] == CountBack(all, selected, p)
    ensures back == all <==> !HashShared(all, selected)
  {
  }

  /** Of two entries with one hash, selecting either loses the other. */
  lemma SharedHashLosesOne(a: PooledTx, b: PooledTx)
    requires a != b && a.tx.txHash == b.tx.txHash
    ensures Others([a, b], Hashes([a])) == [] && HashShared(multiset([a, b]), [a])
  {
    var h := Hashes([a]);
    assert [a][0].tx.txHash in h;
    assert [a][..0] == [] && Others([a], h) == [];
    assert [a, b][..1] == [a];
    assert b in multiset([a, b]) - multiset([a]);
  }

  ghost predicate DistinctHashes(m: multiset<PooledTx>) {
    && (forall p :: p in m ==> m[p] == 1)
    && (forall p, q :: p in m && q in m && p.tx.txHash == q.tx.txHash ==> p == q)
  }

  /** Pairwise distinct hashes suffice. */
  lemma DistinctHashesSuffice(all: multiset<PooledTx>, selected: seq<PooledTx>)
    requires multiset(selected) <= all && DistinctHashes(all)
    ensures !HashShared(all, selected)
  {
  }

  lemma SameMembers(s: seq<PooledTx>, t: seq<PooledTx>)
    requires multiset(s) == multiset(t)
    ensures |s| == |t| && forall i :: 0 <= i < |s| ==> s[i] in t
  {
    forall i | 0 <= i < |s| ensures s[i] in t {
      assert s[i] in multiset(t);
    }
    assert |multiset(s)| == |multiset(t)|;
  }

  // ---------- the pool ----------

  /** The conversion of an unsigned to a signed word. */
  function AsInt(n: nat): int {
    if n < 0x8000_0000_0000_0000 then n else n - 0x1_0000_0000_0000_0000
  }

  /** A signed word of 64 bits: it lies between minus 2^63 and 2^63 and differs from the unsigned one by 0 or 2^64. */
  lemma SignedWord(n: nat)
    requires n < 0x1_0000_0000_0000_0000
    ensures -0x8000_0000_0000_0000 <= AsInt(n) < 0x8000_0000_0000_0000
    ensures AsInt(n) == n || AsInt(n) == n - 0x1_0000_0000_0000_0000
  {
  }

  class PriorityTxPool {
    var txQueue: TxPriorityQueue
    var relayPool: map<nat, seq<PooledTx>>
    var scheduler: Scheduler?

    ghost predicate Valid()
      reads this, txQueue
    {
      IsHeap(txQueue.items)
    }

    constructor ()
      ensures Valid() && fresh(txQueue) && txQueue.items == [] && relayPool == map[] && scheduler == null
    {
      txQueue := new TxPriorityQueue();
      relayPool, scheduler := map[], null;
    }

    /** Takes transactions in; one without a proposal time gets the current one. */
    method AddTxs2Pool(txs: seq<Tx>, clock: seq<nat>) returns (ghost added: seq<PooledTx>)
      requires Valid() && |clock| == |txs|
      modifies txQueue
      ensures Valid() && fresh(added) && |added| == |txs|
      ensures forall i :: 0 <= i < |txs| ==> added[i].tx == Stamped(txs[i], clock[i])
      ensures multiset(txQueue.items) == old(multiset(txQueue.items)) + multiset(added)
    {
      added := [];
      for i := 0 to |txs|
        invariant Valid() && fresh(added) && |added| == i
        invariant forall k :: 0 <= k < i ==> added[k].tx == Stamped(txs[k], clock[k])
        invariant multiset(txQueue.items) == old(multiset(txQueue.items)) + multiset(added)
      {
        var p := new PooledTx(Stamped(txs[i], clock[i]));
        txQueue.Push(p);
        added := added + [p];
      }
    }

    /** Without a scheduler the block gets the best entries, best first, and the rest stay. */
    method PackTxsSimple(maxTxs: nat) returns (packed: seq<PooledTx>)
      requires Valid()
      modifies txQueue
      ensures Valid() && multiset(packed) + multiset(txQueue.items) == old(multiset(txQueue.items))
      ensures |packed| == if old(|txQueue.items|) < maxTxs then old(|txQueue.items|) else maxTxs
      ensures InLessOrder(packed) && NoneAhead(multiset(txQueue.items), packed)
    {
      var txNum := maxTxs;
      if |txQueue.items| < txNum {
        txNum := |txQueue.items|;
      }
      packed := [];
      ghost var n := |txQueue.items|;
      for i := 0 to txNum
        invariant Valid() && multiset(packed) + multiset(txQueue.items) == old(multiset(txQueue.items))
        invariant |packed| == i && |txQueue.items| == n - i
        invariant InLessOrder(packed) && NoneAhead(multiset(txQueue.items), packed)
      {
        ghost var before := multiset(txQueue.items);
        var p := txQueue.Pop();
        assert |before| == |multiset(txQueue.items)| + 1;
        TakeNext(before, p, multiset(txQueue.items), packed);
        packed := packed + [p];
      }
    }

    /** Empties the heap, best entry first. */
    method Drain() returns (all: seq<PooledTx>)
      requires Valid()
      modifies txQueue
      ensures Valid() && txQueue.items == [] && multiset(all) == old(multiset(txQueue.items)) && InLessOrder(all)
    {
      all := [];
      while |txQueue.items| > 0
        invariant Valid() && multiset(all) + multiset(txQueue.items) == old(multiset(txQueue.items))
        invariant InLessOrder(all) && NoneAhead(multiset(txQueue.items), all)
        decreases |txQueue.items|
      {
        ghost var before := multiset(txQueue.items);
        var p := txQueue.Pop();
        assert |before| == |multiset(txQueue.items)| + 1;
        TakeNext(before, p, multiset(txQueue.items), all);
        all := all + [p];
      }
    }

    static method SelectedMap(selected: seq<PooledTx>) returns (m: set<string>)
      ensures m == Hashes(selected)
    {
      m := {};
      for i := 0 to |selected|
        invariant forall x :: x in m <==> exists k :: 0 <= k < i && selected[k].tx.txHash == x
      {
        m := m + {selected[i].tx.txHash};
      }
    }

    /** Pushes back what was not selected, by hash. */
    method PutBack(all: seq<PooledTx>, selected: seq<PooledTx>)
      requires Valid()
      modifies txQueue
      ensures Valid()
      ensures multiset(txQueue.items) == old(multiset(txQueue.items)) + multiset(Others(all, Hashes(selected)))
    {
      var selectedMap := SelectedMap(selected);
      for i := 0 to |all|
        invariant Valid()
        invariant multiset(txQueue.items) == old(multiset(txQueue.items)) + multiset(Others(all[..i], selectedMap))
      {
        OthersSnoc(all, selectedMap, i);
        if all[i].tx.txHash !in selectedMap {
          txQueue.Push(all[i]);
        }
      }
      assert all[..|all|] == all;
    }

    /** What the scheduler returns for the drained pool. */
    ghost predicate Chosen(
      selected: seq<PooledTx>, all: seq<PooledTx>, capacity: int,
      scored: seq<TxWithScore>, ordering: seq<TxWithScore>, subs: seq<int>)
      requires scheduler != null
      reads this, scheduler, scheduler.feeTracker
    {
      if capacity <= 0 then selected == []
      else
        && IsScoring(scored, all, subs, scheduler.shardID, scheduler.feeTracker.avg)
        && IsSelection(selected, ordering, scored, capacity, AvgFee(scheduler.feeTracker.avg, scheduler.shardID))
    }

    /** The scheduler's choice; it leaves marks on the transactions but does not touch the pool. */
    method Select(all: seq<PooledTx>, capacity: int)
      returns (selected: seq<PooledTx>, ghost left: seq<PooledTx>, ghost scored: seq<TxWithScore>,
               ghost ordering: seq<TxWithScore>, ghost subs: seq<int>)
      requires scheduler != null && scheduler.Configured(scheduler.Lambda())
      modifies all, scheduler, scheduler.mechanism
      ensures Chosen(selected, all, capacity, scored, ordering, subs)
      ensures |selected| == Room(|all|, capacity) && multiset(selected) + multiset(left) == multiset(all)
      ensures scheduler.Lambda() == old(scheduler.Lambda())
      ensures scheduler.Lagrangian() ==> EpochCounts(old(scheduler.epochSubsidyTotal), selected, left, capacity)
      ensures scheduler.Lagrangian() ==> ScoredByTerms(scored, all, capacity)
    {
      selected, scored, ordering, subs := scheduler.SelectForBlock(capacity, all);
      left := all;
      if capacity > 0 {
        SelectedFromPool(selected, ordering, scored, subs, all, capacity, scheduler.shardID, scheduler.feeTracker.avg);
        left := Txs(ordering)[|selected|..];
      }
    }

    /** In Lagrangian mode a round counts the subsidies of what it selects and of what it leaves behind. */
    ghost predicate EpochCounts(before: int, selected: seq<PooledTx>, left: seq<PooledTx>, capacity: int)
      requires scheduler != null && scheduler.Lagrangian()
      reads this, scheduler, scheduler.feeTracker, scheduler.mechanism
    {
      if capacity <= 0 then scheduler.epochSubsidyTotal == before
      else
        && scheduler.CurrentTerms().Priced()
        && scheduler.epochSubsidyTotal
             == before + Grants(selected, scheduler.CurrentTerms()) + Grants(left, scheduler.CurrentTerms())
    }

    /** In Lagrangian mode the terms in force settle every score. */
    ghost predicate ScoredByTerms(scored: seq<TxWithScore>, all: seq<PooledTx>, capacity: int)
      requires scheduler != null && scheduler.Lagrangian()
      reads this, scheduler, scheduler.feeTracker, scheduler.mechanism
    {
      capacity > 0 ==> scheduler.CurrentTerms().Priced() && scored == ScoredPool(all, scheduler.CurrentTerms())
    }

    /**
     * One round with the scheduler: the heap is drained, the scheduler selects, the rest goes back. While the
     * scheduler runs the pool is unlocked and other transactions arrive.
     */
    method PackTxsWithScheduler(maxTxs: nat, arrivals: seq<Tx>, clock: seq<nat>)
      returns (selected: seq<PooledTx>, ghost left: seq<PooledTx>,
               ghost added: seq<PooledTx>, ghost drained: seq<PooledTx>,
               ghost scored: seq<TxWithScore>, ghost ordering: seq<TxWithScore>, ghost subs: seq<int>)
      requires Valid() && scheduler != null && scheduler.Configured(scheduler.Lambda()) && |clock| == |arrivals|
      modifies txQueue, txQueue.items, scheduler, scheduler.mechanism
      ensures Valid() && fresh(added) && |added| == |arrivals|
      ensures multiset(drained) == old(multiset(txQueue.items)) && InLessOrder(drained)
      ensures Chosen(selected, drained, AsInt(maxTxs), scored, ordering, subs)
      ensures |selected| == Room(old(|txQueue.items|), AsInt(maxTxs))
      ensures multiset(selected) + multiset(left) == multiset(drained)
      ensures scheduler.Lambda() == old(scheduler.Lambda())
      ensures scheduler.Lagrangian() ==> EpochCounts(old(scheduler.epochSubsidyTotal), selected, left, AsInt(maxTxs))
      ensures scheduler.Lagrangian() ==> ScoredByTerms(scored, drained, AsInt(maxTxs))
      ensures forall i :: 0 <= i < |added| ==> added[i].tx == Stamped(arrivals[i], clock[i])
      ensures multiset(txQueue.items) == multiset(added) + multiset(Others(drained, Hashes(selected)))
      ensures forall i :: 0 <= i < |txQueue.items| ==>
                txQueue.items[i] in old(txQueue.items) || txQueue.items[i] in added
      ensures multiset(txQueue.items) + multiset(selected) == old(multiset(txQueue.items)) + multiset(added)
         <==> !HashShared(old(multiset(txQueue.items)), selected)
      ensures DistinctHashes(old(multiset(txQueue.items))) ==> !HashShared(old(multiset(txQueue.items)), selected)
    {
      ghost var was := txQueue.items;
      var all := Drain();
      drained := all;
      SameMembers(all, was);
      selected, left, scored, ordering, subs := Select(all, AsInt(maxTxs));
      added := AddTxs2Pool(arrivals, clock);
      ghost var arrived := multiset(txQueue.items);
      PutBack(all, selected);
      RoundOutcome(was, all, selected, added, arrived, txQueue.items);
      NoStrangers(was, all, selected, added, txQueue.items);
    }

    // ---------- account transfer ----------

    /** Pops everything, keeping what the filter wants and pushing the rest to a new heap. */
    method SplitQueue(filter: PooledTx -> bool) returns (wanted: seq<PooledTx>, newQueue: TxPriorityQueue)
      requires Valid()
      modifies txQueue
      ensures Valid() && txQueue.items == [] && fresh(newQueue) && IsHeap(newQueue.items)
      ensures multiset(wanted) + multiset(newQueue.items) == old(multiset(txQueue.items))
      ensures InLessOrder(wanted) && AllSatisfy(multiset(wanted), filter)
      ensures NoneSatisfies(multiset(newQueue.items), filter)
    {
      wanted := [];
      newQueue := new TxPriorityQueue();
      ghost var was := multiset(txQueue.items);
      while |txQueue.items| > 0
        invariant Valid() && fresh(newQueue) && IsHeap(newQueue.items)
        invariant SplitSoFar(wanted, multiset(newQueue.items), multiset(txQueue.items), was, filter)
        decreases |multiset(txQueue.items)|
      {
        ghost var before, kept := multiset(txQueue.items), multiset(newQueue.items);
        var p := txQueue.Pop();
        SplitNext(wanted, kept, before, p, multiset(txQueue.items), was, filter);
        if filter(p) {
          wanted := wanted + [p];
        } else {
          newQueue.Push(p);
        }
      }
    }

    /** Takes out of the queue what the filter wants, best first; the rest forms a new heap. */
    method FilterTxs(filter: PooledTx -> bool) returns (filtered: seq<PooledTx>)
      requires Valid()
      modifies this`txQueue, txQueue
      ensures Valid() && fresh(txQueue) && InLessOrder(filtered)
      ensures multiset(filtered) + multiset(txQueue.items) == old(multiset(txQueue.items))
      ensures AllSatisfy(multiset(filtered), filter) && NoneSatisfies(multiset(txQueue.items), filter)
    {
      filtered, txQueue := SplitQueue(filter);
    }

    /**
     * Takes an account's transactions out of the queue and out of every list of the relay pool. The lists are
     * visited in an arbitrary order. What is transferred and what stays in the queue and the lists is what was
     * there, and the rest of each list keeps its order.
     */
    method TransferTxs(addr: Address)
      returns (transferred: seq<PooledTx>, ghost fromQueue: seq<PooledTx>, ghost order: seq<nat>)
      requires Valid()
      modifies this`txQueue, this`relayPool, txQueue
      ensures Valid() && fresh(txQueue)
      ensures multiset(fromQueue) + multiset(txQueue.items) == old(multiset(txQueue.items))
      ensures AllSatisfy(multiset(fromQueue), SentBy(addr)) && NoneSatisfies(multiset(txQueue.items), SentBy(addr))
      ensures VisitsOnce(order, old(relayPool).Keys)
      ensures transferred == fromQueue + SentInLists(old(relayPool), order, addr)
      ensures AllSatisfy(multiset(transferred), SentBy(addr)) && NoneSatisfies(Listed(relayPool, order), SentBy(addr))
      ensures multiset(transferred) + multiset(txQueue.items) + Listed(relayPool, order)
           == old(multiset(txQueue.items)) + Listed(old(relayPool), order)
      ensures relayPool == RestOf(old(relayPool), old(relayPool).Keys, addr)
    {
      var taken, newQueue := SplitQueue(SentBy(addr));
      fromQueue := taken;
      var sent, rest;
      sent, rest, order := SplitRelayPool(relayPool, addr);
      ListsSplitWithoutLoss(relayPool, order, addr);
      ListsSplitBySender(relayPool, order, addr);
      transferred := taken + sent;
      txQueue, relayPool := newQueue, rest;
    }

    /** The relay pool's part: the lists are visited in an arbitrary order. */
    static method SplitRelayPool(pool: map<nat, seq<PooledTx>>, addr: Address)
      returns (sent: seq<PooledTx>, rest: map<nat, seq<PooledTx>>, ghost order: seq<nat>)
      ensures VisitsOnce(order, pool.Keys) && sent == SentInLists(pool, order, addr)
      ensures rest == RestOf(pool, pool.Keys, addr)
    {
      sent, rest, order := [], map[], [];
      var left := pool.Keys;
      while left != {}
        invariant left <= pool.Keys && VisitsOnce(order, pool.Keys - left)
        invariant sent == SentInLists(pool, order, addr) && rest == RestOf(pool, pool.Keys - left, addr)
        decreases |left|
      {
        var shardID :| shardID in left;
        var here, kept := SplitList(pool[shardID], addr);
        RestStep(pool, pool.Keys - left, shardID, addr);
        VisitStep(order, pool.Keys - left, shardID);
        assert pool.Keys - (left - {shardID}) == pool.Keys - left + {shardID};
        sent := sent + here;
        if kept != [] {
          rest := rest[shardID := kept];
        }
        order := order + [shardID];
        left := left - {shardID};
      }
      assert pool.Keys - left == pool.Keys;
    }

    static method SplitList(list: seq<PooledTx>, addr: Address) returns (sent: seq<PooledTx>, kept: seq<PooledTx>)
      ensures sent == Sent(list, addr) && kept == NotSent(list, addr)
    {
      sent, kept := [], [];
      for i := 0 to |list|
        invariant sent == Sent(list[..i], addr) && kept == NotSent(list[..i], addr)
      {
        assert list[..i+1][..i] == list[..i];
        if list[i].tx.sender == addr {
          sent := sent + [list[i]];
        } else {
          kept := kept + [list[i]];
        }
      }
      assert list[..|list|] == list;
    }
  }

  ghost predicate AllSatisfy(m: multiset<PooledTx>, filter: PooledTx -> bool) {
    forall p :: p in m ==> filter(p)
  }

  ghost predicate NoneSatisfies(m: multiset<PooledTx>, filter: PooledTx -> bool) {
    forall p :: p in m ==> !filter(p)
  }

  function SentBy(addr: Address): PooledTx -> bool {
    (p: PooledTx) => p.tx.sender == addr
  }

  /** The account's transactions in a list, in order, and the others. */
  function Sent(s: seq<PooledTx>, addr: Address): seq<PooledTx> {
    if s == [] then []
    else Sent(s[..|s|-1], addr) + if s[|s|-1].tx.sender == addr then [s[|s|-1]] else []
  }

  function NotSent(s: seq<PooledTx>, addr: Address): seq<PooledTx> {
    if s == [] then []
    else NotSent(s[..|s|-1], addr) + if s[|s|-1].tx.sender == addr then [] else [s[|s|-1]]
  }

  /** A transaction goes with its sender. */
  lemma WithItsSender(p: PooledTx, addr: Address)
    ensures SentBy(addr)(p) <==> p.tx.sender == addr
    ensures Sent([p], addr) == (if p.tx.sender == addr then [p] else [])
    ensures NotSent([p], addr) == (if p.tx.sender == addr then [] else [p])
  {
    assert [p][..0] == [];
  }

  /** Both parts of a divided list keep its order. */
  lemma {:induction false} DividedInOrder(a: seq<PooledTx>, b: seq<PooledTx>, addr: Address)
    ensures Sent(a + b, addr) == Sent(a, addr) + Sent(b, addr)
    ensures NotSent(a + b, addr) == NotSent(a, addr) + NotSent(b, addr)
  {
    if b == [] {
      assert a + b == a && Sent(a, addr) + [] == Sent(a, addr) && NotSent(a, addr) + [] == NotSent(a, addr);
    } else {
      DividedInOrder(a, b[..|b|-1], addr);
      assert (a + b)[..|a + b|-1] == a + b[..|b|-1];
    }
  }

  /** Dividing a relay list loses nothing. */
  lemma {:induction false} ListSplitsWithoutLoss(s: seq<PooledTx>, addr: Address)
    ensures multiset(Sent(s, addr)) + multiset(NotSent(s, addr)) == multiset(s)
  {
    if s != [] {
      ListSplitsWithoutLoss(s[..|s|-1], addr);
      assert s == s[..|s|-1] + [s[|s|-1]];
    }
  }

  /** The entries of the visited lists. */
  ghost function Listed(pool: map<nat, seq<PooledTx>>, order: seq<nat>): multiset<PooledTx> {
    if order == [] then multiset{}
    else
      var s := order[|order|-1];
      Listed(pool, order[..|order|-1]) + if s in pool then multiset(pool[s]) else multiset{}
  }

  /** Dividing all lists loses nothing. */
  lemma {:induction false} ListsSplitWithoutLoss(pool: map<nat, seq<PooledTx>>, order: seq<nat>, addr: Address)
    ensures multiset(SentInLists(pool, order, addr)) + Listed(RestOf(pool, pool.Keys, addr), order)
         == Listed(pool, order)
  {
    if order != [] {
      var s := order[|order|-1];
      ListsSplitWithoutLoss(pool, order[..|order|-1], addr);
      if s in pool { ListSplitsWithoutLoss(pool[s], addr); }
    }
  }

  /** What leaves the lists is the account's, what stays is not. */
  lemma {:induction false} ListsSplitBySender(pool: map<nat, seq<PooledTx>>, order: seq<nat>, addr: Address)
    ensures AllSatisfy(multiset(SentInLists(pool, order, addr)), SentBy(addr))
    ensures NoneSatisfies(Listed(RestOf(pool, pool.Keys, addr), order), SentBy(addr))
  {
    if order != [] {
      var s := order[|order|-1];
      ListsSplitBySender(pool, order[..|order|-1], addr);
      if s in pool { SplitBySender(pool[s], addr); }
    }
  }

  lemma {:induction false} SplitBySender(s: seq<PooledTx>, addr: Address)
    ensures AllSatisfy(multiset(Sent(s, addr)), SentBy(addr)) && NoneSatisfies(multiset(NotSent(s, addr)), SentBy(addr))
  {
    if s != [] {
      SplitBySender(s[..|s|-1], addr);
    }
  }

  /** What stays in the visited lists; a list with nothing left is dropped. */
  function RestOf(pool: map<nat, seq<PooledTx>>, visited: set<nat>, addr: Address): map<nat, seq<PooledTx>> {
    map s | s in visited && s in pool && NotSent(pool[s], addr) != [] :: NotSent(pool[s], addr)
  }

  lemma RestStep(pool: map<nat, seq<PooledTx>>, visited: set<nat>, s: nat, addr: Address)
    requires s in pool && s !in visited
    ensures NotSent(pool[s], addr) == [] ==> RestOf(pool, visited + {s}, addr) == RestOf(pool, visited, addr)
    ensures NotSent(pool[s], addr) != [] ==>
              RestOf(pool, visited + {s}, addr) == RestOf(pool, visited, addr)[s := NotSent(pool[s], addr)]
  {
  }

  lemma VisitStep(order: seq<nat>, keys: set<nat>, s: nat)
    requires VisitsOnce(order, keys) && s !in keys
    ensures VisitsOnce(order + [s], keys + {s})
  {
  }

  ghost predicate SplitSoFar(
    wanted: seq<PooledTx>, kept: multiset<PooledTx>, left: multiset<PooledTx>, was: multiset<PooledTx>,
    filter: PooledTx -> bool)
  {
    && multiset(wanted) + kept + left == was
    && InLessOrder(wanted) && NoneAhead(left, wanted)
    && AllSatisfy(multiset(wanted), filter) && NoneSatisfies(kept, filter)
  }

  lemma SplitNext(
    wanted: seq<PooledTx>, kept: multiset<PooledTx>, before: multiset<PooledTx>, p: PooledTx,
    after: multiset<PooledTx>, was: multiset<PooledTx>, filter: PooledTx -> bool)
    requires SplitSoFar(wanted, kept, before, was, filter) && before == after + multiset{p}
    requires forall q :: q in after ==> !Less(q, p)
    ensures |before| == |after| + 1
    ensures if filter(p) then SplitSoFar(wanted + [p], kept, after, was, filter)
            else SplitSoFar(wanted, kept + multiset{p}, after, was, filter)
  {
    TakeNext(before, p, after, wanted);
    assert multiset(wanted + [p]) == multiset(wanted) + multiset{p};
    forall q | q in after ensures q in before {
    }
  }

  ghost predicate VisitsOnce(order: seq<nat>, keys: set<nat>) {
    && (forall s :: s in keys <==> s in order)
    && (forall i, j :: 0 <= i < j < |order| ==> order[i] != order[j])
  }

  function SentInLists(pool: map<nat, seq<PooledTx>>, order: seq<nat>, addr: Address): seq<PooledTx> {
    if order == [] then []
    else
      var s := order[|order|-1];
      SentInLists(pool, order[..|order|-1], addr) + if s in pool then Sent(pool[s], addr) else []
  }

  lemma RoundOutcome(
    was: seq<PooledTx>, all: seq<PooledTx>, selected: seq<PooledTx>, added: seq<PooledTx>,
    arrived: multiset<PooledTx>, items: seq<PooledTx>)
    requires multiset(all) == multiset(was) && multiset(selected) <= multiset(all) && arrived == multiset(added)
    requires multiset(items) == arrived + multiset(Others(all, Hashes(selected)))
    ensures multiset(items) + multiset(selected) == multiset(was) + multiset(added)
       <==> !HashShared(multiset(was), selected)
    ensures DistinctHashes(multiset(was)) ==> !HashShared(multiset(was), selected)
  {
    NothingLostIff(all, selected);
    if DistinctHashes(multiset(all)) { DistinctHashesSuffice(multiset(all), selected); }
    var back := multiset(Others(all, Hashes(selected))) + multiset(selected);
    assert multiset(items) + multiset(selected) == back + multiset(added);
    AddedCancels(back, multiset(was), multiset(added));
  }

  /** The queue holds nothing but what it held before and what arrived. */
  lemma NoStrangers(
    was: seq<PooledTx>, all: seq<PooledTx>, selected: seq<PooledTx>, added: seq<PooledTx>, items: seq<PooledTx>)
    requires multiset(all) == multiset(was)
    requires multiset(items) == multiset(added) + multiset(Others(all, Hashes(selected)))
    ensures forall i :: 0 <= i < |items| ==> items[i] in was || items[i] in added
  {
    forall i | 0 <= i < |items| ensures items[i] in was || items[i] in added {
      OthersCount(all, Hashes(selected), items[i]);
      assert items[i] in multiset(items);
      assert items[i] in multiset(added) || items[i] in multiset(was);
    }
  }

  lemma AddedCancels(m: multiset<PooledTx>, n: multiset<PooledTx>, a: multiset<PooledTx>)
    ensures m + a == n + a <==> m == n
  {
    assert m == m + a - a && n == n + a - a;
  }
}
