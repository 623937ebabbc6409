/** Transactions as they travel between processes (core/transaction.go). */
module Transactions {
  import opened Shards

  /**
   * The content of a transaction. Messages carry copies of it. A time of 0 is the unset time, which comes
   * before every other; a missing fee is None. The original time is when the transaction was first proposed.
   */
  datatype Tx = Tx(
    sender: Address, recipient: Address, value: int, txHash: string, time: nat, relayed: bool,
    fromShard: nat, toShard: nat, isCrossShard: bool, pairID: string, fee: Option<int>, arrivalTime: nat,
    originalTime: nat, isRelay2: bool)

  /** A transaction entering a pool gets the times it does not carry yet. */
  function Stamped(tx: Tx, now: nat): Tx {
    var time := if tx.time == 0 then now else tx.time;
    tx.(time := time, originalTime := if tx.originalTime == 0 then time else tx.originalTime)
  }

  /** The time of entry is the one carried or else the clock's, and the first proposal's time likewise. */
  lemma WhenStamped(tx: Tx, now: nat)
    ensures tx.time != 0 ==> Stamped(tx, now).time == tx.time
    ensures tx.time == 0 ==> Stamped(tx, now).time == now
    ensures tx.originalTime != 0 ==> Stamped(tx, now).originalTime == tx.originalTime
    ensures tx.originalTime == 0 ==> Stamped(tx, now).originalTime == Stamped(tx, now).time
    ensures Stamped(tx, now).(time := tx.time, originalTime := tx.originalTime) == tx
  {
  }

  /** The fee read as a number: a missing fee counts as zero. */
  function FeeOf(tx: Tx): int {
    if tx.fee.Some? then tx.fee.value else 0
  }
}
