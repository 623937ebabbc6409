/** The ledger of cross-shard rewards awaiting settlement (crossshard/pending/ledger.go). */
module Ledgers {
  import opened Shards
  import opened Sums
  import opened Justitia

  datatype Pending = Pending(
    pairID: string, shardA: int, shardB: int, fAB: Option<int>, R: Option<int>, EA: int, EB: int,
    utilityA: int, utilityB: int, sourceBlockID: string, createdAt: int)

  /** A missing amount counts as 0. */
  function Amount(x: Option<int>): int {
    if x.Some? then x.value else 0
  }

  /** What a reward is worth: fee plus subsidy. */
  function Worth(p: Pending): int {
    Amount(p.fAB) + Amount(p.R)
  }

  /** One call of the credit function. The placeholder proposer is named by its shard and block. */
  datatype Credit = Credit(shardID: int, proposerShard: int, proposerBlock: string, amount: int)

  datatype LedgerError = AlreadySettled | AlreadyPending | NotFound

  datatype Books = Books(pending: map<string, Pending>, settled: set<string>)

  const EMPTY := Books(map[], {})

  function AddError(b: Books, p: Pending): Option<LedgerError> {
    if p.pairID in b.settled then Some(AlreadySettled)
    else if p.pairID in b.pending then Some(AlreadyPending)
    else None
  }

  function SettleError(b: Books, pairID: string): Option<LedgerError> {
    if pairID in b.settled then Some(AlreadySettled)
    else if pairID !in b.pending then Some(NotFound)
    else None
  }

  function Old(pending: map<string, Pending>, olderThan: int): set<string> {
    set id | id in pending && pending[id].createdAt < olderThan
  }

  datatype Op = Add(p: Pending) | Settle(pairID: string, destBlockID: string) | CleanupOld(olderThan: int)

  /** The books after one operation; a refused one changes nothing. */
  function After(b: Books, op: Op): Books {
    match op
    case Add(p) => if AddError(b, p) == None then b.(pending := b.pending[p.pairID := p]) else b
    case Settle(id, _) =>
      if SettleError(b, id) == None then Books(b.pending - {id}, b.settled + {id}) else b
    case CleanupOld(t) => b.(pending := b.pending - Old(b.pending, t))
  }

  /** The books after a whole run. */
  function Run(ops: seq<Op>): Books {
    if ops == [] then EMPTY else After(Run(ops[..|ops|-1]), ops[|ops|-1])
  }

  /** The entry an operation settles, if any. */
  function SettledBy(b: Books, op: Op): seq<Pending> {
    if op.Settle? && SettleError(b, op.pairID) == None then [b.pending[op.pairID]] else []
  }

  /** The two credits that settle an entry: the source proposer's share and the destination proposer's. */
  function CreditsFor(p: Pending, destBlockID: string): seq<Credit> {
    [Credit(p.shardA, p.shardA, p.sourceBlockID, p.utilityA), Credit(p.shardB, p.shardB, destBlockID, p.utilityB)]
  }

  /** The credits an operation makes. */
  function CreditsBy(b: Books, op: Op): seq<Credit> {
    if op.Settle? && SettleError(b, op.pairID) == None then CreditsFor(b.pending[op.pairID], op.destBlockID) else []
  }

  /** The entry an operation files, if any. */
  function AcceptedBy(b: Books, op: Op): seq<Pending> {
    if op.Add? && AddError(b, op.p) == None then [op.p] else []
  }

  /** The entries a run settles, in order. */
  function Settlements(ops: seq<Op>): seq<Pending> {
    if ops == [] then []
    else Settlements(ops[..|ops|-1]) + SettledBy(Run(ops[..|ops|-1]), ops[|ops|-1])
  }

  /** The credits a run makes, in order. */
  function Credits(ops: seq<Op>): seq<Credit> {
    if ops == [] then [] else Credits(ops[..|ops|-1]) + CreditsBy(Run(ops[..|ops|-1]), ops[|ops|-1])
  }

  /** The entries a run accepts, in order. */
  function Accepted(ops: seq<Op>): seq<Pending> {
    if ops == [] then []
    else Accepted(ops[..|ops|-1]) + AcceptedBy(Run(ops[..|ops|-1]), ops[|ops|-1])
  }

  // ---------- what every run keeps ----------

  ghost predicate Filed(b: Books) {
    && b.pending.Keys !! b.settled
    && forall id :: id in b.pending ==> b.pending[id].pairID == id
  }

  predicate DistinctIDs(s: seq<Pending>) {
    forall i, j :: 0 <= i < j < |s| ==> s[i].pairID != s[j].pairID
  }

  function IDs(s: seq<Pending>): (ids: set<string>)
    ensures forall i :: 0 <= i < |s| ==> s[i].pairID in ids
  {
    if s == [] then {} else IDs(s[..|s|-1]) + {s[|s|-1].pairID}
  }

  lemma FiledStays(b: Books, op: Op)
    requires Filed(b)
    ensures Filed(After(b, op))
  {
  }

  lemma OneMoreSettlement(s: seq<Pending>, p: Pending)
    requires DistinctIDs(s) && p.pairID !in IDs(s)
    ensures DistinctIDs(s + [p]) && IDs(s + [p]) == IDs(s) + {p.pairID}
  {
    assert (s + [p])[..|s|] == s;
  }

  /**
   * In every run no identifier is both pending and settled, and the settled identifiers are exactly those of
   * the credited entries, each of which was credited once.
   */
  lemma {:induction false} CreditedAtMostOnce(ops: seq<Op>)
    ensures Filed(Run(ops)) && DistinctIDs(Settlements(ops)) && Run(ops).settled == IDs(Settlements(ops))
  {
    if ops != [] {
      var before, op := ops[..|ops|-1], ops[|ops|-1];
      CreditedAtMostOnce(before);
      FiledStays(Run(before), op);
      if op.Settle? && SettleError(Run(before), op.pairID) == None {
        OneMoreSettlement(Settlements(before), Run(before).pending[op.pairID]);
      } else {
        assert Settlements(ops) == Settlements(before);
      }
    }
  }

  // ---------- what is credited in total ----------

  /** The utilities are the split of the entry's own amounts. */
  predicate WellSplit(p: Pending) {
    && Worth(p) >= 0
    && (p.utilityA, p.utilityB) == Split2(Amount(p.fAB), Amount(p.R), p.EA, p.EB)
  }

  function Paid(p: Pending): int {
    p.utilityA + p.utilityB
  }

  /** The unit the split loses, if any. */
  function Lost(p: Pending): int {
    if Clamped(Amount(p.fAB), Amount(p.R), p.EA, p.EB) then 0 else (Worth(p) + p.EA - p.EB) % 2
  }

  predicate AllWellSplit(ops: seq<Op>) {
    forall i :: 0 <= i < |ops| && ops[i].Add? ==> WellSplit(ops[i].p)
  }

  lemma {:induction false} EntriesWellSplit(ops: seq<Op>)
    requires AllWellSplit(ops)
    ensures forall id :: id in Run(ops).pending ==> WellSplit(Run(ops).pending[id])
    ensures forall i :: 0 <= i < |Settlements(ops)| ==> WellSplit(Settlements(ops)[i])
  {
    if ops != [] { EntriesWellSplit(ops[..|ops|-1]); }
  }

  lemma {:induction false} SumPaid(s: seq<Pending>)
    requires forall i :: 0 <= i < |s| ==> WellSplit(s[i])
    ensures SumOf(s, Paid) == SumOf(s, Worth) - SumOf(s, Lost)
    ensures 0 <= SumOf(s, Lost) <= |s|
  {
    if s != [] {
      var p := s[|s|-1];
      SumPaid(s[..|s|-1]);
      Split2Exact(Amount(p.fAB), Amount(p.R), p.EA, p.EB);
    }
  }

  function CreditAmount(c: Credit): int {
    c.amount
  }

  /** Two credits for every settled entry, of its two utilities. */
  lemma {:induction false} CreditsAreSettlements(ops: seq<Op>)
    ensures |Credits(ops)| == 2 * |Settlements(ops)|
    ensures SumOf(Credits(ops), CreditAmount) == SumOf(Settlements(ops), Paid)
  {
    if ops != [] {
      var before, op := ops[..|ops|-1], ops[|ops|-1];
      CreditsAreSettlements(before);
      SumOfConcat(Credits(before), CreditsBy(Run(before), op), CreditAmount);
      SumOfConcat(Settlements(before), SettledBy(Run(before), op), Paid);
      OperationCredits(Run(before), op);
    }
  }

  lemma OperationCredits(b: Books, op: Op)
    ensures |CreditsBy(b, op)| == 2 * |SettledBy(b, op)|
    ensures SumOf(CreditsBy(b, op), CreditAmount) == SumOf(SettledBy(b, op), Paid)
  {
    if op.Settle? && SettleError(b, op.pairID) == None {
      var p := b.pending[op.pairID];
      var first, second := CreditsFor(p, op.destBlockID)[0], CreditsFor(p, op.destBlockID)[1];
      assert CreditsFor(p, op.destBlockID) == [] + [first] + [second];
      SumOfSnoc([], first, CreditAmount);
      SumOfSnoc([] + [first], second, CreditAmount);
      assert SumOf([p], Paid) == SumOf([], Paid) + Paid(p) by {
        assert [p][..0] == [];
      }
    }
  }

  /**
   * If every entry carries the split of its own fee and subsidy, the credits of a run add up to what its settled
   * entries are worth but for the lost units, at most one for each settlement.
   */
  lemma CreditedInTotal(ops: seq<Op>)
    requires AllWellSplit(ops)
    ensures var s, credited := Settlements(ops), SumOf(Credits(ops), CreditAmount);
            && credited == SumOf(s, Worth) - SumOf(s, Lost)
            && SumOf(s, Worth) - |s| <= credited <= SumOf(s, Worth)
  {
    EntriesWellSplit(ops);
    SumPaid(Settlements(ops));
    CreditsAreSettlements(ops);
  }

  // ---------- nothing disappears from the books ----------

  /** What a set of pending entries is worth. */
  ghost function WorthOf(pending: map<string, Pending>, ids: set<string>): int {
    SumSet(ids, (id: string) => if id in pending then Worth(pending[id]) else 0)
  }

  function FeeAt(pending: map<string, Pending>): string -> int {
    (id: string) => if id in pending then Amount(pending[id].fAB) else 0
  }

  function SubsidyAt(pending: map<string, Pending>): string -> int {
    (id: string) => if id in pending then Amount(pending[id].R) else 0
  }

  /** The two sums of the statistics add up to what the pending entries are worth. */
  lemma StatsAddUp(pending: map<string, Pending>)
    ensures SumSet(pending.Keys, FeeAt(pending)) + SumSet(pending.Keys, SubsidyAt(pending))
         == WorthOf(pending, pending.Keys)
  {
    SumSetPointwise(pending.Keys, FeeAt(pending), SubsidyAt(pending),
                    (id: string) => if id in pending then Worth(pending[id]) else 0);
  }

  /** A filed entry raises the sum of the fees by its fee and the sum of the subsidies by its subsidy. */
  lemma StatsOfFiled(pending: map<string, Pending>, p: Pending)
    requires p.pairID !in pending
    ensures var after := pending[p.pairID := p];
            && SumSet(after.Keys, FeeAt(after)) == SumSet(pending.Keys, FeeAt(pending)) + Amount(p.fAB)
            && SumSet(after.Keys, SubsidyAt(after)) == SumSet(pending.Keys, SubsidyAt(pending)) + Amount(p.R)
  {
    var after := pending[p.pairID := p];
    assert after.Keys == pending.Keys + {p.pairID};
    SumSetAdd(pending.Keys, FeeAt(after), p.pairID);
    SumSetAdd(pending.Keys, SubsidyAt(after), p.pairID);
    SumSetCongruence(pending.Keys, FeeAt(after), FeeAt(pending));
    SumSetCongruence(pending.Keys, SubsidyAt(after), SubsidyAt(pending));
  }

  ghost function DroppedBy(b: Books, op: Op): int {
    if op.CleanupOld? then WorthOf(b.pending, Old(b.pending, op.olderThan)) else 0
  }

  /** What a run has dropped as too old. */
  ghost function Dropped(ops: seq<Op>): int {
    if ops == [] then 0 else Dropped(ops[..|ops|-1]) + DroppedBy(Run(ops[..|ops|-1]), ops[|ops|-1])
  }

  lemma WorthOfAdded(pending: map<string, Pending>, p: Pending)
    requires p.pairID !in pending
    ensures var after := pending[p.pairID := p];
            WorthOf(after, after.Keys) == WorthOf(pending, pending.Keys) + Worth(p)
  {
    var after := pending[p.pairID := p];
    var f := (id: string) => if id in after then Worth(after[id]) else 0;
    assert after.Keys == pending.Keys + {p.pairID};
    SumSetAdd(pending.Keys, f, p.pairID);
    SumSetCongruence(pending.Keys, f, (id: string) => if id in pending then Worth(pending[id]) else 0);
  }

  lemma WorthOfRemoved(pending: map<string, Pending>, gone: set<string>)
    requires gone <= pending.Keys
    ensures WorthOf(pending, pending.Keys) == WorthOf(pending - gone, (pending - gone).Keys) + WorthOf(pending, gone)
  {
    var f := (id: string) => if id in pending then Worth(pending[id]) else 0;
    var rest := pending - gone;
    assert rest.Keys == pending.Keys - gone;
    SumSetSplit(pending.Keys, gone, f);
    SumSetCongruence(rest.Keys, f, (id: string) => if id in rest then Worth(rest[id]) else 0);
  }

  lemma WorthOfOne(pending: map<string, Pending>, id: string)
    requires id in pending
    ensures WorthOf(pending, {id}) == Worth(pending[id])
  {
    SumSetRemove({id}, (x: string) => if x in pending then Worth(pending[x]) else 0, id);
    assert {id} - {id} == {};
  }

  lemma StepConserves(b: Books, op: Op)
    ensures WorthOf(b.pending, b.pending.Keys) + SumOf(AcceptedBy(b, op), Worth)
         == WorthOf(After(b, op).pending, After(b, op).pending.Keys) + SumOf(SettledBy(b, op), Worth) + DroppedBy(b, op)
  {
    match op
    case Add(p) =>
      if AddError(b, p) == None { WorthOfAdded(b.pending, p); }
    case Settle(id, _) =>
      if SettleError(b, id) == None {
        WorthOfRemoved(b.pending, {id});
        WorthOfOne(b.pending, id);
      }
    case CleanupOld(t) =>
      WorthOfRemoved(b.pending, Old(b.pending, t));
  }

  /** Everything accepted is still pending, was settled, or was dropped as too old. */
  lemma {:induction false} NothingDisappears(ops: seq<Op>)
    ensures SumOf(Accepted(ops), Worth)
         == WorthOf(Run(ops).pending, Run(ops).pending.Keys) + SumOf(Settlements(ops), Worth) + Dropped(ops)
  {
    if ops != [] {
      var before, op := ops[..|ops|-1], ops[|ops|-1];
      NothingDisappears(before);
      StepConserves(Run(before), op);
      SumOfConcat(Accepted(before), AcceptedBy(Run(before), op), Worth);
      SumOfConcat(Settlements(before), SettledBy(Run(before), op), Worth);
    }
  }

  // ---------- the ledger ----------

  datatype Stats = Stats(pendingCount: nat, settledCount: nat, totalSubsidy: int, totalFees: int)

  class Ledger {
    var pending: map<string, Pending>
    var settled: set<string>

    function State(): Books
      reads this
    {
      Books(pending, settled)
    }

    constructor ()
      ensures State() == EMPTY
    {
      pending, settled := map[], {};
    }

    method AddEntry(p: Pending) returns (err: Option<LedgerError>)
      modifies this
      ensures err == old(AddError(State(), p)) && State() == old(After(State(), Add(p)))
      ensures err == Some(AlreadySettled) <==> p.pairID in old(settled)
      ensures err == Some(AlreadyPending) <==> p.pairID !in old(settled) && p.pairID in old(pending)
      ensures settled == old(settled) && pending == if err == None then old(pending)[p.pairID := p] else old(pending)
    {
      if p.pairID in settled {
        return Some(AlreadySettled);
      }
      if p.pairID in pending {
        return Some(AlreadyPending);
      }
      pending := pending[p.pairID := p];
      return None;
    }

    /** Credits the source proposer its share and the destination proposer the other, then closes the entry. */
    method SettleEntry(pairID: string, destBlockID: string) returns (err: Option<LedgerError>, credits: seq<Credit>)
      modifies this
      ensures err == old(SettleError(State(), pairID)) && State() == old(After(State(), Settle(pairID, destBlockID)))
      ensures err == Some(AlreadySettled) <==> pairID in old(settled)
      ensures err == Some(NotFound) <==> pairID !in old(settled) && pairID !in old(pending)
      ensures err == None ==> pending == old(pending) - {pairID} && settled == old(settled) + {pairID}
      ensures err != None ==> pending == old(pending) && settled == old(settled)
      ensures credits == old(CreditsBy(State(), Settle(pairID, destBlockID)))
    {
      credits := [];
      if pairID in settled {
        return Some(AlreadySettled), [];
      }
      if pairID !in pending {
        return Some(NotFound), [];
      }
      var p := pending[pairID];
      credits := credits + [Credit(p.shardA, p.shardA, p.sourceBlockID, p.utilityA)];
      credits := credits + [Credit(p.shardB, p.shardB, destBlockID, p.utilityB)];
      settled := settled + {pairID};
      pending := pending - {pairID};
      err := None;
    }

    /** Drops the old entries, visiting them in an arbitrary order, and counts them. */
    method Cleanup(olderThan: int) returns (count: nat)
      modifies this`pending
      ensures State() == old(After(State(), CleanupOld(olderThan)))
      ensures forall id :: id in pending <==> id in old(pending) && old(pending)[id].createdAt >= olderThan
      ensures forall id :: id in pending ==> pending[id] == old(pending)[id]
      ensures count == |old(pending).Keys - pending.Keys|
    {
      count := 0;
      var left := pending.Keys;
      ghost var was := pending;
      CleanupStart(was, olderThan);
      while left != {}
        invariant left <= was.Keys
        invariant pending == Kept(was, left, olderThan) && count == |Gone(was, left, olderThan)|
        decreases |left|
      {
        var pairID :| pairID in left;
        CleanupStep(was, left, pairID, olderThan);
        left := left - {pairID};
        if pending[pairID].createdAt < olderThan {
          pending := pending - {pairID};
          count := count + 1;
        }
      }
      assert Gone(was, left, olderThan) == was.Keys - pending.Keys;
    }

    /** The sums over the pending entries do not depend on the order in which they are visited. */
    method GetStats() returns (s: Stats)
      ensures s.pendingCount == |pending| && s.settledCount == |settled|
      ensures s.totalFees == SumSet(pending.Keys, FeeAt(pending))
      ensures s.totalSubsidy == SumSet(pending.Keys, SubsidyAt(pending))
    {
      var subsidy, fees, left := 0, 0, pending.Keys;
      while left != {}
        invariant left <= pending.Keys
        invariant fees == SumSet(pending.Keys, FeeAt(pending)) - SumSet(left, FeeAt(pending))
        invariant subsidy == SumSet(pending.Keys, SubsidyAt(pending)) - SumSet(left, SubsidyAt(pending))
        decreases |left|
      {
        var pairID :| pairID in left;
        SumSetRemove(left, FeeAt(pending), pairID);
        SumSetRemove(left, SubsidyAt(pending), pairID);
        left := left - {pairID};
        var p := pending[pairID];
        if p.R.Some? {
          subsidy := subsidy + p.R.value;
        }
        if p.fAB.Some? {
          fees := fees + p.fAB.value;
        }
      }
      s := Stats(|pending|, |settled|, subsidy, fees);
    }
  }

  /** The old entries already visited. */
  function Gone(was: map<string, Pending>, left: set<string>, t: int): set<string> {
    Old(was, t) - left
  }

  function Kept(was: map<string, Pending>, left: set<string>, t: int): map<string, Pending> {
    was - Gone(was, left, t)
  }

  lemma CleanupStart(was: map<string, Pending>, t: int)
    ensures Kept(was, was.Keys, t) == was && Gone(was, was.Keys, t) == {}
  {
    assert Gone(was, was.Keys, t) == {};
  }

  lemma CleanupStep(was: map<string, Pending>, left: set<string>, id: string, t: int)
    requires left <= was.Keys && id in left
    ensures id in Kept(was, left, t) && Kept(was, left, t)[id] == was[id]
    ensures was[id].createdAt < t ==> Kept(was, left - {id}, t) == Kept(was, left, t) - {id}
    ensures was[id].createdAt < t ==> |Gone(was, left - {id}, t)| == |Gone(was, left, t)| + 1
    ensures was[id].createdAt >= t ==> Gone(was, left - {id}, t) == Gone(was, left, t)
  {
    if was[id].createdAt < t {
      assert Gone(was, left - {id}, t) == Gone(was, left, t) + {id};
    }
  }
}
