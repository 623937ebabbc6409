/** Rolling averages of intra-shard fees (fees/expectation/avg.go). */
module FeeTracker {
  import opened Shards
  import opened Sums

  const DEFAULT_WINDOW := 16
  const FEE_CAP := 100_000_000_000_000

  /** The fees a block counts: positive ones, each at most FEE_CAP. */
  function CountedFees(fees: seq<Option<int>>): seq<int> {
    if fees == [] then []
    else
      var fee := fees[|fees|-1];
      CountedFees(fees[..|fees|-1])
      + if fee.Some? && fee.value > 0 then [if fee.value > FEE_CAP then FEE_CAP else fee.value] else []
  }

  /** The floored mean; an empty list has mean 0. */
  function Mean(s: seq<int>): int {
    if s == [] then 0 else SumSeq(s) / |s|
  }

  /** The last n elements, or all if there are fewer. */
  function Last<T>(s: seq<T>, n: nat): seq<T> {
    if |s| > n then s[|s|-n..] else s
  }

  /** The element j places before the last. */
  function FromEnd(s: seq<int>, j: nat): int
    requires j < |s|
  {
    s[|s| - 1 - j]
  }

  /** Element by element: as many as fit, counted from the end. */
  lemma LastIsNewest(s: seq<int>, n: nat)
    ensures |Last(s, n)| == if |s| < n then |s| else n
    ensures forall j :: 0 <= j < |Last(s, n)| ==> FromEnd(Last(s, n), j) == FromEnd(s, j)
  {
  }

  /** Where the newest n elements start. */
  function RecentFrom(length: nat, n: nat): nat {
    if length < n then 0 else length - n
  }

  /** Appending to a window and trimming it gives the window of the longer history. */
  lemma WindowSlides(h: seq<int>, x: int, n: nat)
    ensures Last(Last(h, n) + [x], n) == Last(h + [x], n)
  {
  }

  lemma {:induction false} SumBounds(s: seq<int>, lo: int, hi: int)
    requires forall i :: 0 <= i < |s| ==> lo <= s[i] <= hi
    ensures |s| * lo <= SumSeq(s) <= |s| * hi
  {
    if s != [] { SumBounds(s[..|s|-1], lo, hi); }
  }

  predicate Within(s: seq<int>, lo: int, hi: int) {
    forall i :: 0 <= i < |s| ==> lo <= s[i] <= hi
  }

  /** A floored mean lies between the smallest and the largest of its elements. */
  lemma MeanBounds(s: seq<int>, lo: int, hi: int)
    requires s != [] && Within(s, lo, hi)
    ensures lo <= Mean(s) <= hi
  {
    SumBounds(s, lo, hi);
    FloorBounds(SumSeq(s), |s|, lo, hi);
  }

  lemma FloorBounds(sum: int, n: nat, lo: int, hi: int)
    requires n > 0 && n * lo <= sum <= n * hi
    ensures lo <= sum / n <= hi
  {
    var q := sum / n;
    MulCancel(n, lo, q + 1);
    MulCancel(n, q, hi + 1);
  }

  lemma MulCancel(n: int, a: int, b: int)
    requires n > 0 && n * a < n * b
    ensures a < b
  {
  }

  /** The mean is floored: n times it reaches the sum to within less than n. */
  lemma MeanIsFloored(s: seq<int>)
    requires s != []
    ensures |s| * Mean(s) <= SumSeq(s) < |s| * Mean(s) + |s|
  {
  }

  /** Fee by fee: a positive one counts with at most 10^14, a missing, zero or negative one not at all. */
  lemma WhichFeesCount(fees: seq<Option<int>>, fee: Option<int>)
    ensures CountedFees([]) == []
    ensures CountedFees(fees + [fee])
         == CountedFees(fees) + if fee.None? || fee.value <= 0 then []
                                else [if fee.value < 100_000_000_000_000 then fee.value else 100_000_000_000_000]
  {
    assert (fees + [fee])[..|fees|] == fees;
  }

  lemma {:induction false} CountedFeesInRange(fees: seq<Option<int>>)
    ensures forall i :: 0 <= i < |CountedFees(fees)| ==> 0 < CountedFees(fees)[i] <= FEE_CAP
  {
    if fees != [] { CountedFeesInRange(fees[..|fees|-1]); }
  }

  lemma BlockAverageInRange(fees: seq<Option<int>>)
    ensures 0 <= Mean(CountedFees(fees)) <= FEE_CAP
  {
    CountedFeesInRange(fees);
    if CountedFees(fees) != [] { MeanBounds(CountedFees(fees), 0, FEE_CAP); }
  }

  datatype Event = Finalized(shardID: int, fees: seq<Option<int>>) | Remote(shardID: int, avgFee: Option<int>)

  class Tracker {
    const windowSize: nat
    var itxWindows: map<int, seq<int>>
    var blockCount: map<int, nat>
    var avg: map<int, int>
    ghost var history: map<int, seq<int>>  // every block average of a shard since it became known
    ghost var local: set<int>              // shards whose average was last set from their own blocks

    ghost predicate Valid()
      reads this
    {
      && windowSize > 0
      && (forall s :: s in itxWindows <==> s in avg)
      && (forall s :: s in blockCount <==> s in avg)
      && (forall s :: s in history <==> s in avg)
      && (forall s :: s in local ==> s in avg)
      && (forall s :: s in avg ==> ShardOk(itxWindows[s], blockCount[s], avg[s], history[s], s in local))
    }

    /** One shard's entries. */
    ghost predicate ShardOk(window: seq<int>, count: nat, average: int, h: seq<int>, isLocal: bool) {
      && window == Last(h, windowSize) && count == |h|
      && (forall i :: 0 <= i < |h| ==> 0 <= h[i] <= FEE_CAP)
      && (isLocal ==> h != [] && average == Mean(window))
    }

    constructor (size: int)
      ensures Valid() && avg == map[] && windowSize == if size <= 0 then 16 else size
    {
      windowSize := if size <= 0 then DEFAULT_WINDOW else size;
      itxWindows, blockCount, avg, history, local := map[], map[], map[], map[], {};
    }

    /** The average of one block's counted fees, accumulated in a loop. */
    method BlockAverage(fees: seq<Option<int>>) returns (r: int)
      ensures r == Mean(CountedFees(fees)) && 0 <= r <= FEE_CAP
    {
      var sum, count := 0, 0;
      for i := 0 to |fees|
        invariant sum == SumSeq(CountedFees(fees[..i])) && count == |CountedFees(fees[..i])|
      {
        assert fees[..i+1][..i] == fees[..i];
        var fee := fees[i];
        if fee.Some? && fee.value > 0 {
          var cappedFee := if fee.value > FEE_CAP then FEE_CAP else fee.value;
          SumSeqSnoc(CountedFees(fees[..i]), cappedFee);
          sum := sum + cappedFee;
          count := count + 1;
        } else {
          assert CountedFees(fees[..i+1]) == CountedFees(fees[..i]);
        }
      }
      assert fees[..|fees|] == fees;
      BlockAverageInRange(fees);
      r := 0;
      if count > 0 {
        r := sum / count;
      }
    }

    /**
     * A finalized block: the shard's average becomes the floored mean of its last windowSize block averages; nothing
     * about any other shard changes.
     */
    method OnBlockFinalized(shardID: int, fees: seq<Option<int>>)
      requires Valid()
      modifies this
      ensures Valid() && local == old(local) + {shardID}
      ensures history == old(history)[shardID := old(HistoryOf(shardID)) + [Mean(CountedFees(fees))]]
      ensures avg == old(avg)[shardID := Mean(Last(history[shardID], windowSize))] && 0 <= avg[shardID] <= FEE_CAP
      ensures avg[shardID] == Mean(history[shardID][RecentFrom(|history[shardID]|, windowSize)..])
    {
      var blockAvg := BlockAverage(fees);
      if shardID !in itxWindows {
        InitShard(shardID);
      }
      PushBlock(shardID, blockAvg);
    }

    ghost function HistoryOf(shardID: int): seq<int>
      reads this
    {
      if shardID in history then history[shardID] else []
    }

    method InitShard(shardID: int)
      requires Valid() && shardID !in itxWindows
      modifies this
      ensures Valid() && local == old(local)
      ensures avg == old(avg)[shardID := 0] && history == old(history)[shardID := []]
    {
      itxWindows := itxWindows[shardID := []];
      blockCount := blockCount[shardID := 0];
      avg := avg[shardID := 0];
      history := history[shardID := []];
    }

    method PushBlock(shardID: int, blockAvg: int)
      requires Valid() && shardID in itxWindows && 0 <= blockAvg <= FEE_CAP
      modifies this
      ensures Valid() && local == old(local) + {shardID}
      ensures history == old(history)[shardID := old(history[shardID]) + [blockAvg]]
      ensures avg == old(avg)[shardID := Mean(Last(history[shardID], windowSize))] && 0 <= avg[shardID] <= FEE_CAP
    {
      PushedOk(itxWindows[shardID], blockCount[shardID], avg[shardID], history[shardID], shardID in local, blockAvg);
      var window := itxWindows[shardID] + [blockAvg];
      blockCount := blockCount[shardID := blockCount[shardID] + 1];
      if |window| > windowSize {
        window := window[|window| - windowSize..];
      }
      itxWindows := itxWindows[shardID := window];
      history := history[shardID := history[shardID] + [blockAvg]];
      local := local + {shardID};
      RecomputeAvg(shardID);
      assert ShardOk(itxWindows[shardID], blockCount[shardID], avg[shardID], history[shardID], true);
      forall s | s in avg && s != shardID
        ensures ShardOk(itxWindows[s], blockCount[s], avg[s], history[s], s in local)
      {
        assert old(ShardOk(itxWindows[s], blockCount[s], avg[s], history[s], s in local));
      }
    }

    lemma PushedOk(window: seq<int>, count: nat, average: int, h: seq<int>, isLocal: bool, x: int)
      requires windowSize > 0 && ShardOk(window, count, average, h, isLocal) && 0 <= x <= FEE_CAP
      ensures var pushed := Last(window + [x], windowSize);
              && pushed == Last(h + [x], windowSize) && 0 <= Mean(pushed) <= FEE_CAP
              && ShardOk(pushed, count + 1, Mean(pushed), h + [x], true)
    {
      WindowSlides(h, x, windowSize);
      MeanBounds(Last(window + [x], windowSize), 0, FEE_CAP);
    }

    method RecomputeAvg(shardID: int)
      requires shardID in itxWindows
      modifies this`avg
      ensures avg == old(avg)[shardID := Mean(itxWindows[shardID])]
    {
      var window := itxWindows[shardID];
      if |window| == 0 {
        avg := avg[shardID := 0];
        return;
      }
      var sum := SumWindow(window);
      avg := avg[shardID := sum / |window|];
    }

    method SumWindow(window: seq<int>) returns (sum: int)
      ensures sum == SumSeq(window)
    {
      sum := 0;
      for i := 0 to |window|
        invariant sum == SumSeq(window[..i])
      {
        SumSeqSnoc(window[..i], window[i]);
        assert window[..i+1] == window[..i] + [window[i]];
        sum := sum + window[i];
      }
      assert window[..|window|] == window;
    }

    /** Before a shard is known its average is 0. */
    function GetAvgITXFee(shardID: int): int
      reads this
    {
      if shardID in avg then avg[shardID] else 0
    }

    lemma LocalAverage(s: int)
      requires Valid() && s in local
      ensures GetAvgITXFee(s) == Mean(Last(HistoryOf(s), windowSize)) && 0 <= GetAvgITXFee(s) <= FEE_CAP
    {
      assert ShardOk(itxWindows[s], blockCount[s], avg[s], history[s], true);
      MeanBounds(Last(history[s], windowSize), 0, FEE_CAP);
    }

    /** A shard's own average lies between any bounds of the block averages in its window. */
    lemma AverageWithin(s: int, lo: int, hi: int)
      requires Valid() && s in local && Within(Last(HistoryOf(s), windowSize), lo, hi)
      ensures lo <= GetAvgITXFee(s) <= hi
    {
      LocalAverage(s);
      assert ShardOk(itxWindows[s], blockCount[s], avg[s], history[s], true);
      MeanBounds(Last(history[s], windowSize), lo, hi);
    }

    /** The window of a shard holds its newest block averages, as many as fit, in order. */
    lemma WindowHoldsNewest(s: int)
      requires Valid() && s in itxWindows
      ensures s in history
      ensures |itxWindows[s]| == if |history[s]| < windowSize then |history[s]| else windowSize
      ensures forall j :: 0 <= j < |itxWindows[s]| ==> FromEnd(itxWindows[s], j) == FromEnd(history[s], j)
    {
      assert ShardOk(itxWindows[s], blockCount[s], avg[s], history[s], s in local);
      LastIsNewest(history[s], windowSize);
    }

    /** Blocks older than the window have no say: trackers that agree on the newest windowSize agree on the average. */
    lemma OldBlocksForgotten(t: Tracker, s: int)
      requires Valid() && t.Valid() && s in local && s in t.local && windowSize == t.windowSize
      requires |HistoryOf(s)| >= windowSize && |t.HistoryOf(s)| >= windowSize
      requires forall j :: 0 <= j < windowSize ==> FromEnd(HistoryOf(s), j) == FromEnd(t.HistoryOf(s), j)
      ensures GetAvgITXFee(s) == t.GetAvgITXFee(s)
    {
      LocalAverage(s);
      t.LocalAverage(s);
      SameRecent(HistoryOf(s), t.HistoryOf(s), windowSize);
    }

    /** A remote shard's reported average is taken as it is; its window is left alone. */
    method UpdateRemoteShardFee(shardID: int, avgFee: Option<int>)
      requires Valid()
      modifies this
      ensures Valid() && local == old(local) - {shardID}
      ensures avg == old(avg)[shardID := if avgFee.Some? then avgFee.value else 0]
      ensures history == if shardID in old(avg) then old(history) else old(history)[shardID := []]
    {
      if shardID !in avg {
        InitShard(shardID);
      }
      avg := avg[shardID := if avgFee.Some? then avgFee.value else 0];
      local := local - {shardID};
    }

    method Apply(e: Event)
      requires Valid()
      modifies this
      ensures Valid() && local == if e.Finalized? then old(local) + {e.shardID} else old(local) - {e.shardID}
      ensures forall s :: HistoryOf(s) == old(HistoryOf(s))
                + if e.Finalized? && e.shardID == s then [Mean(CountedFees(e.fees))] else []
    {
      match e
      case Finalized(s, fees) => OnBlockFinalized(s, fees);
      case Remote(s, avgFee) => UpdateRemoteShardFee(s, avgFee);
    }
  }

  lemma SameRecent(h: seq<int>, h': seq<int>, n: nat)
    requires |h| >= n && |h'| >= n && forall j :: 0 <= j < n ==> FromEnd(h, j) == FromEnd(h', j)
    ensures Last(h, n) == Last(h', n)
  {
    LastIsNewest(h, n);
    LastIsNewest(h', n);
    forall i | 0 <= i < n ensures Last(h, n)[i] == Last(h', n)[i] {
      assert FromEnd(h, n - 1 - i) == FromEnd(h', n - 1 - i);
    }
  }

  // ---------- whole runs ----------

  /** The block averages of shard s in a run, in order. */
  function BlockAverages(es: seq<Event>, s: int): seq<int> {
    if es == [] then []
    else
      var e := es[|es|-1];
      BlockAverages(es[..|es|-1], s) + if e.Finalized? && e.shardID == s then [Mean(CountedFees(e.fees))] else []
  }

  /** The last event that concerns shard s is a block of its own. */
  predicate LastIsOwnBlock(es: seq<Event>, s: int) {
    && es != []
    && if es[|es|-1].shardID == s then es[|es|-1].Finalized? else LastIsOwnBlock(es[..|es|-1], s)
  }

  /** The shard's average is the floored mean of the newest of these block averages, as many as the window holds. */
  predicate OwnAverage(t: Tracker, averages: seq<int>, s: int)
    reads t
  {
    && t.GetAvgITXFee(s) == Mean(averages[RecentFrom(|averages|, t.windowSize)..])
    && 0 <= t.GetAvgITXFee(s) <= 100_000_000_000_000
  }

  /**
   * Whatever the interleaving of blocks and remote reports over shards, a shard whose latest news is a block of
   * its own has as its average the floored mean of its last windowSize block averages.
   */
  method Replay(size: int, es: seq<Event>) returns (t: Tracker)
    ensures t.Valid() && forall s :: LastIsOwnBlock(es, s) ==> OwnAverage(t, BlockAverages(es, s), s)
  {
    t := ApplyAll(size, es);
    forall s | LastIsOwnBlock(es, s) ensures OwnAverage(t, BlockAverages(es, s), s) {
      t.LocalAverage(s);
      RecentIsLast(BlockAverages(es, s), t.windowSize);
    }
  }

  lemma RecentIsLast(s: seq<int>, n: nat)
    ensures Last(s, n) == s[RecentFrom(|s|, n)..]
  {
  }

  /** The tracker has seen these events: it knows every shard's block averages and whose news was last. */
  ghost predicate HasSeen(t: Tracker, es: seq<Event>)
    reads t
  {
    && t.Valid() && (forall s :: t.HistoryOf(s) == BlockAverages(es, s))
    && (forall s :: LastIsOwnBlock(es, s) ==> s in t.local)
  }

  method ApplyNext(t: Tracker, ghost es: seq<Event>, e: Event)
    requires HasSeen(t, es)
    modifies t
    ensures HasSeen(t, es + [e])
  {
    t.Apply(e);
    forall s ensures t.HistoryOf(s) == BlockAverages(es + [e], s) && (LastIsOwnBlock(es + [e], s) ==> s in t.local) {
      NextEvent(es, e, s);
    }
  }

  /** What one more event is to a shard. */
  lemma NextEvent(es: seq<Event>, e: Event, s: int)
    ensures BlockAverages(es + [e], s)
         == BlockAverages(es, s) + if e.Finalized? && e.shardID == s then [Mean(CountedFees(e.fees))] else []
    ensures LastIsOwnBlock(es + [e], s) <==> if e.shardID == s then e.Finalized? else LastIsOwnBlock(es, s)
  {
    assert (es + [e])[..|es|] == es;
  }

  method ApplyAll(size: int, es: seq<Event>) returns (t: Tracker)
    ensures HasSeen(t, es)
  {
    t := new Tracker(size);
    for i := 0 to |es|
      invariant HasSeen(t, es[..i]) && fresh(t)
    {
      assert es[..i+1] == es[..i] + [es[i]];
      ApplyNext(t, es[..i], es[i]);
    }
    assert es[..|es|] == es;
  }
}
