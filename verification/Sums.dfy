/** Sums over finite sets and sequences, used wherever the program accumulates over a Go map or slice. */
module Sums {

  /** The sum of f over s; the order in which the elements are taken does not matter (SumSetRemove). */
  ghost function SumSet<T(!new)>(s: set<T>, f: T -> int): int {
    if s == {} then 0 else var x :| x in s; f(x) + SumSet(s - {x}, f)
  }

  lemma {:induction false} SumSetRemove<T(!new)>(s: set<T>, f: T -> int, x: T)
    requires x in s
    ensures SumSet(s, f) == f(x) + SumSet(s - {x}, f)
    decreases |s|
  {
    var y :| y in s && SumSet(s, f) == f(y) + SumSet(s - {y}, f);
    if y != x {
      SumSetRemove(s - {y}, f, x);
      SumSetRemove(s - {x}, f, y);
      assert s - {y} - {x} == s - {x} - {y};
    }
  }

  lemma SumSetAdd<T(!new)>(s: set<T>, f: T -> int, x: T)
    requires x !in s
    ensures SumSet(s + {x}, f) == SumSet(s, f) + f(x)
  {
    SumSetRemove(s + {x}, f, x);
    assert s + {x} - {x} == s;
  }

  lemma {:induction false} SumSetSplit<T(!new)>(s: set<T>, t: set<T>, f: T -> int)
    requires t <= s
    ensures SumSet(s, f) == SumSet(s - t, f) + SumSet(t, f)
    decreases |t|
  {
    if t == {} {
      assert s - t == s;
    } else {
      var x :| x in t;
      SumSetRemove(s, f, x);
      SumSetRemove(t, f, x);
      SumSetSplit(s - {x}, t - {x}, f);
      assert s - {x} - (t - {x}) == s - t;
    }
  }

  lemma {:induction false} SumSetPointwise<T(!new)>(s: set<T>, f: T -> int, g: T -> int, h: T -> int)
    requires forall x :: x in s ==> h(x) == f(x) + g(x)
    ensures SumSet(s, h) == SumSet(s, f) + SumSet(s, g)
    decreases |s|
  {
    if s != {} {
      var x :| x in s;
      SumSetRemove(s, f, x);
      SumSetRemove(s, g, x);
      SumSetRemove(s, h, x);
      SumSetPointwise(s - {x}, f, g, h);
    }
  }

  lemma {:induction false} SumSetCongruence<T(!new)>(s: set<T>, f: T -> int, g: T -> int)
    requires forall x :: x in s ==> f(x) == g(x)
    ensures SumSet(s, f) == SumSet(s, g)
    decreases |s|
  {
    if s != {} {
      var x :| x in s;
      SumSetRemove(s, f, x);
      SumSetRemove(s, g, x);
      SumSetCongruence(s - {x}, f, g);
    }
  }

  lemma {:induction false} SumSetZero<T(!new)>(s: set<T>, f: T -> int)
    requires forall x :: x in s ==> f(x) == 0
    ensures SumSet(s, f) == 0
    decreases |s|
  {
    if s != {} {
      var x :| x in s;
      SumSetRemove(s, f, x);
      SumSetZero(s - {x}, f);
    }
  }

  /** A function that differs from zero only at a and b sums to its values there. */
  lemma SumSetTwoPoints<T(!new)>(s: set<T>, f: T -> int, a: T, b: T)
    requires a in s && b in s
    requires forall x :: x in s && x != a && x != b ==> f(x) == 0
    ensures SumSet(s, f) == if a == b then f(a) else f(a) + f(b)
  {
    SumSetRemove(s, f, a);
    if a == b {
      SumSetZero(s - {a}, f);
    } else {
      SumSetRemove(s - {a}, f, b);
      SumSetZero(s - {a} - {b}, f);
    }
  }

  /** The sum of a sequence, read the way a Go loop accumulates it. */
  function SumSeq(s: seq<int>): int {
    if s == [] then 0 else SumSeq(s[..|s|-1]) + s[|s|-1]
  }

  lemma {:induction false} SumSeqZero(s: seq<int>)
    requires forall i :: 0 <= i < |s| ==> s[i] == 0
    ensures SumSeq(s) == 0
  {
    if s != [] { SumSeqZero(s[..|s|-1]); }
  }

  lemma SumSeqSnoc(s: seq<int>, x: int)
    ensures SumSeq(s + [x]) == SumSeq(s) + x
  {
    assert (s + [x])[..|s|] == s;
  }

  /** Changing one element changes the sum by the difference. */
  lemma {:induction false} SumSeqUpdate(s: seq<int>, i: nat, x: int)
    requires i < |s|
    ensures SumSeq(s[i := x]) == SumSeq(s) - s[i] + x
  {
    var n := |s| - 1;
    if i == n {
      assert s[i := x][..n] == s[..n];
    } else {
      SumSeqUpdate(s[..n], i, x);
      assert s[i := x][..n] == s[..n][i := x];
    }
  }

  /** The sum of f over a multiset, each element as often as it occurs. */
  ghost function SumMultiset<T(!new)>(m: multiset<T>, f: T -> int): int
    decreases |m|
  {
    if m == multiset{} then 0 else var x :| x in m; f(x) + SumMultiset(m - multiset{x}, f)
  }

  lemma {:induction false} SumMultisetRemove<T(!new)>(m: multiset<T>, f: T -> int, x: T)
    requires x in m
    ensures SumMultiset(m, f) == f(x) + SumMultiset(m - multiset{x}, f)
    decreases |m|
  {
    var y :| y in m && SumMultiset(m, f) == f(y) + SumMultiset(m - multiset{y}, f);
    if y != x {
      SumMultisetRemove(m - multiset{y}, f, x);
      SumMultisetRemove(m - multiset{x}, f, y);
      assert m - multiset{y} - multiset{x} == m - multiset{x} - multiset{y};
    }
  }

  lemma {:induction false} SumMultisetUnion<T(!new)>(m: multiset<T>, n: multiset<T>, f: T -> int)
    ensures SumMultiset(m + n, f) == SumMultiset(m, f) + SumMultiset(n, f)
    decreases |n|
  {
    if n == multiset{} {
      assert m + n == m;
    } else {
      var x :| x in n;
      SumMultisetRemove(n, f, x);
      SumMultisetRemove(m + n, f, x);
      assert m + n - multiset{x} == m + (n - multiset{x});
      SumMultisetUnion(m, n - multiset{x}, f);
    }
  }

  /** Taking part of a multiset away takes its sum away. */
  lemma SumMultisetMinus<T(!new)>(m: multiset<T>, n: multiset<T>, f: T -> int)
    requires n <= m
    ensures SumMultiset(m - n, f) == SumMultiset(m, f) - SumMultiset(n, f)
  {
    assert m - n + n == m;
    SumMultisetUnion(m - n, n, f);
  }

  /** The sum of f along a sequence. */
  function SumOf<T>(s: seq<T>, f: T -> int): int {
    if s == [] then 0 else SumOf(s[..|s|-1], f) + f(s[|s|-1])
  }

  lemma SumOfSnoc<T>(s: seq<T>, x: T, f: T -> int)
    ensures SumOf(s + [x], f) == SumOf(s, f) + f(x)
  {
    assert (s + [x])[..|s|] == s;
  }

  lemma {:induction false} SumOfConcat<T>(s: seq<T>, t: seq<T>, f: T -> int)
    ensures SumOf(s + t, f) == SumOf(s, f) + SumOf(t, f)
  {
    if t == [] {
      assert s + t == s;
    } else {
      SumOfConcat(s, t[..|t|-1], f);
      assert (s + t)[..|s + t|-1] == s + t[..|t|-1];
    }
  }

  lemma {:induction false} SumOfMultiset<T(!new)>(s: seq<T>, f: T -> int)
    ensures SumMultiset(multiset(s), f) == SumOf(s, f)
  {
    if s != [] {
      var init, x := s[..|s|-1], s[|s|-1];
      SumOfMultiset(init, f);
      assert s == init + [x];
      assert multiset(s) == multiset(init) + multiset{x};
      SumMultisetUnion(multiset(init), multiset{x}, f);
      SumMultisetOne(x, f);
    }
  }

  lemma {:induction false} SumMultisetNonNegative<T(!new)>(m: multiset<T>, f: T -> int)
    requires forall x :: f(x) >= 0
    ensures SumMultiset(m, f) >= 0
    decreases |m|
  {
    if m != multiset{} {
      var x :| x in m;
      SumMultisetRemove(m, f, x);
      SumMultisetNonNegative(m - multiset{x}, f);
    }
  }

  lemma {:induction false} SumOfNonNegative<T(!new)>(s: seq<T>, f: T -> int)
    requires forall x :: f(x) >= 0
    ensures SumOf(s, f) >= 0
  {
    if s != [] { SumOfNonNegative(s[..|s|-1], f); }
  }

  lemma {:induction false} SumSeqNonNegative(s: seq<int>)
    requires forall i :: 0 <= i < |s| ==> s[i] >= 0
    ensures SumSeq(s) >= 0
  {
    if s != [] { SumSeqNonNegative(s[..|s|-1]); }
  }

  lemma SumMultisetOne<T(!new)>(x: T, f: T -> int)
    ensures SumMultiset(multiset{x}, f) == f(x)
  {
    SumMultisetRemove(multiset{x}, f, x);
    assert multiset{x} - multiset{x} == multiset{};
  }
}
