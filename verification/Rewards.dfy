/** Who is credited what when rewards are settled (crossshard/pending/ledger.go). */
module Rewards {
  import opened Sums
  import opened Justitia
  import opened Ledgers

  // ---------- credit by credit ----------

  /** A settlement: the entry and the block of the destination shard that included the transaction. */
  datatype Deal = Deal(p: Pending, destBlockID: string)

  /** The settlements of a run, in order. */
  function Deals(ops: seq<Op>): seq<Deal> {
    if ops == [] then []
    else
      var b, op := Run(ops[..|ops|-1]), ops[|ops|-1];
      Deals(ops[..|ops|-1])
      + if op.Settle? && op.pairID !in b.settled && op.pairID in b.pending
        then [Deal(b.pending[op.pairID], op.destBlockID)] else []
  }

  /**
   * The credits of a run, one by one: for the k-th settlement first the source's proposer, in the block that carried
   * the transaction, gets the source's share, then the destination's proposer, in the including block, gets the other.
   */
  lemma {:induction false} CreditsOneByOne(ops: seq<Op>)
    ensures |Credits(ops)| == 2 * |Deals(ops)| && |Settlements(ops)| == |Deals(ops)|
    ensures forall k :: 0 <= k < |Deals(ops)| ==> Deals(ops)[k].p == Settlements(ops)[k] && CreditedFor(ops, k)
  {
    if ops != [] {
      var init := ops[..|ops|-1];
      CreditsOneByOne(init);
      forall k | 0 <= k < |Deals(ops)| ensures Deals(ops)[k].p == Settlements(ops)[k] && CreditedFor(ops, k) {
        if k < |Deals(init)| { assert CreditedFor(init, k); }
      }
    }
  }

  /** The two credits of the k-th settlement. */
  predicate CreditedFor(ops: seq<Op>, k: nat)
    requires k < |Deals(ops)|
  {
    var d, cs := Deals(ops)[k], Credits(ops);
    && 2 * k + 1 < |cs|
    && cs[2 * k].shardID == cs[2 * k].proposerShard == d.p.shardA
    && cs[2 * k].proposerBlock == d.p.sourceBlockID && cs[2 * k].amount == d.p.utilityA
    && cs[2 * k + 1].shardID == cs[2 * k + 1].proposerShard == d.p.shardB
    && cs[2 * k + 1].proposerBlock == d.destBlockID && cs[2 * k + 1].amount == d.p.utilityB
  }

  // ---------- shard by shard and block by block ----------

  function CreditedToShard(s: int): Credit -> int {
    (c: Credit) => if c.shardID == s then c.amount else 0
  }

  function CreditedToBlock(s: int, block: string): Credit -> int {
    (c: Credit) => if c.proposerShard == s && c.proposerBlock == block then c.amount else 0
  }

  /** What a settlement owes a shard: the source's share as source, the destination's as destination. */
  function DueToShard(s: int): Deal -> int {
    (d: Deal) => (if d.p.shardA == s then d.p.utilityA else 0) + (if d.p.shardB == s then d.p.utilityB else 0)
  }

  function DueToBlock(s: int, block: string): Deal -> int {
    (d: Deal) => (if d.p.shardA == s && d.p.sourceBlockID == block then d.p.utilityA else 0)
                 + (if d.p.shardB == s && d.destBlockID == block then d.p.utilityB else 0)
  }

  lemma SumOfTwo(c: Credit, c': Credit, f: Credit -> int)
    ensures SumOf([c, c'], f) == f(c) + f(c')
  {
    assert [c, c'][..1] == [c] && [c][..0] == [];
    assert SumOf([c], f) == f(c);
  }

  /** Sums over credits are sums over settlements, for any way of looking at a credit. */
  lemma {:induction false} CreditsBySettlement(ops: seq<Op>, f: Credit -> int, g: Deal -> int)
    requires forall p: Pending, dest: string :: g(Deal(p, dest))
               == f(Credit(p.shardA, p.shardA, p.sourceBlockID, p.utilityA))
                  + f(Credit(p.shardB, p.shardB, dest, p.utilityB))
    ensures SumOf(Credits(ops), f) == SumOf(Deals(ops), g)
  {
    if ops != [] {
      var init, op := ops[..|ops|-1], ops[|ops|-1];
      var b := Run(init);
      CreditsBySettlement(init, f, g);
      SumOfConcat(Credits(init), CreditsBy(b, op), f);
      if op.Settle? && op.pairID !in b.settled && op.pairID in b.pending {
        var p := b.pending[op.pairID];
        SumOfTwo(Credit(p.shardA, p.shardA, p.sourceBlockID, p.utilityA),
                 Credit(p.shardB, p.shardB, op.destBlockID, p.utilityB), f);
        SumOfSnoc(Deals(init), Deal(p, op.destBlockID), g);
      } else {
        assert Deals(ops) == Deals(init) && CreditsBy(b, op) == [];
      }
    }
  }

  /** Every shard gets the source's shares of what it was the source of and the others of what it was the end of. */
  lemma CreditedToEachShard(ops: seq<Op>, s: int)
    ensures SumOf(Credits(ops), CreditedToShard(s)) == SumOf(Deals(ops), DueToShard(s))
  {
    CreditsBySettlement(ops, CreditedToShard(s), DueToShard(s));
  }

  /** The same for the proposer of every block. */
  lemma CreditedToEachBlock(ops: seq<Op>, s: int, block: string)
    ensures SumOf(Credits(ops), CreditedToBlock(s, block)) == SumOf(Deals(ops), DueToBlock(s, block))
  {
    CreditsBySettlement(ops, CreditedToBlock(s, block), DueToBlock(s, block));
  }

  // ---------- with utilities that are splits ----------

  /** The split of an entry's fee and subsidy at the two averages it was filed with. */
  function SplitOf(p: Pending): (int, int) {
    Split2((if p.fAB.Some? then p.fAB.value else 0), (if p.R.Some? then p.R.value else 0), p.EA, p.EB)
  }

  /** If every entry carries the split of its own amounts, each end is credited its own component of the split. */
  lemma EachEndGetsItsShare(ops: seq<Op>, k: nat)
    requires AllWellSplit(ops) && k < |Deals(ops)|
    ensures 2 * k + 1 < |Credits(ops)|
    ensures Credits(ops)[2 * k].shardID == Deals(ops)[k].p.shardA
    ensures Credits(ops)[2 * k].amount == SplitOf(Deals(ops)[k].p).0
    ensures Credits(ops)[2 * k + 1].shardID == Deals(ops)[k].p.shardB
    ensures Credits(ops)[2 * k + 1].amount == SplitOf(Deals(ops)[k].p).1
  {
    CreditsOneByOne(ops);
    EntriesWellSplit(ops);
    assert WellSplit(Settlements(ops)[k]) && CreditedFor(ops, k);
  }

  /** An entry between shards 0 and 1 with shares 6 and 4: shard 0 is credited 6 and shard 1 is credited 4. */
  lemma SourceGetsItsShare(p: Pending)
    requires p.shardA == 0 && p.shardB == 1 && p.utilityA == 6 && p.utilityB == 4
    ensures var ops := [Add(p), Settle(p.pairID, "B")];
            Credits(ops) == [Credit(0, 0, p.sourceBlockID, 6), Credit(1, 1, "B", 4)]
  {
    var ops := [Add(p), Settle(p.pairID, "B")];
    assert ops[..1] == [Add(p)] && ops[..1][..0] == [];
    assert Run(ops[..1]) == Books(map[p.pairID := p], {}) && Credits(ops[..1]) == [];
  }
}
