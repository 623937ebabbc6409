/** Transactions as one node holds them, and the order pools and blocks take them in (core/transaction.go). */
module PooledTxs {
  import opened Transactions

  /** What decides precedence: the larger amount first and, among equal amounts, the earlier time. */
  datatype Rank = Rank(amount: int, time: nat)

  predicate Ahead(a: Rank, b: Rank) {
    a.amount > b.amount || (a.amount == b.amount && a.time < b.time)
  }

  /** A held transaction: its content does not change, the scheduler's marks do. A case of 0 is unclassified. */
  class PooledTx {
    const tx: Tx
    var subsidyR: int
    var utilityA: int
    var utilityB: int
    var justitiaCase: int

    constructor (tx: Tx)
      ensures this.tx == tx && subsidyR == utilityA == utilityB == 0 && justitiaCase == 0
    {
      this.tx, subsidyR, utilityA, utilityB, justitiaCase := tx, 0, 0, 0, 0;
    }
  }

  /** The transactions behind held objects. */
  function Contents(s: seq<PooledTx>): (r: seq<Tx>)
    ensures |r| == |s| && forall i :: 0 <= i < |r| ==> r[i] == s[i].tx
  {
    seq(|s|, i requires 0 <= i < |s| => s[i].tx)
  }

  function Without<T>(s: seq<T>, j: nat): (r: seq<T>)
    requires j < |s|
    ensures |r| == |s| - 1
  {
    s[..j] + s[j+1..]
  }

  lemma TakeOut<T>(s: seq<T>, j: nat)
    requires j < |s|
    ensures multiset(s) == multiset(Without(s, j)) + multiset{s[j]}
  {
    assert s == s[..j] + [s[j]] + s[j+1..];
  }

  lemma CancelOne<T>(m: multiset<T>, n: multiset<T>, x: T)
    requires m + multiset{x} == n + multiset{x}
    ensures m == n
  {
    assert m == m + multiset{x} - multiset{x};
    assert n == n + multiset{x} - multiset{x};
  }

  lemma ContentsWithout(s: seq<PooledTx>, j: nat)
    requires j < |s|
    ensures multiset(Contents(s)) == multiset(Contents(Without(s, j))) + multiset{s[j].tx}
  {
    TakeOut(Contents(s), j);
    assert Contents(Without(s, j)) == Without(Contents(s), j);
  }

  /** Rearranging objects rearranges their transactions. */
  lemma {:induction false} ContentsPermutation(a: seq<PooledTx>, b: seq<PooledTx>)
    requires multiset(a) == multiset(b)
    ensures multiset(Contents(a)) == multiset(Contents(b))
    decreases |a|
  {
    if a == [] {
      assert |multiset(a)| == |multiset(b)|;
      assert Contents(a) == [] == Contents(b);
    } else {
      assert a[0] in multiset(b);
      var j :| 0 <= j < |b| && b[j] == a[0];
      TakeOut(a, 0);
      TakeOut(b, j);
      CancelOne(multiset(Without(a, 0)), multiset(Without(b, j)), a[0]);
      ContentsPermutation(Without(a, 0), Without(b, j));
      ContentsWithout(a, 0);
      ContentsWithout(b, j);
    }
  }
}
