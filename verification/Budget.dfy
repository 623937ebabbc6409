/** Per-block subsidy budgets in unsigned 64-bit arithmetic (economics/subsidy_budget/budget.go). */
module SubsidyBudget {
  import opened Shards
  import opened Sums

  const WORD := 0x1_0000_0000_0000_0000

  /** The value that is left of a result in a 64-bit word. */
  function Wrap(x: nat): (w: nat)
    ensures w < WORD
  {
    x % WORD
  }

  predicate Words(s: seq<int>) {
    forall i :: 0 <= i < |s| ==> 0 <= s[i] < WORD
  }

  datatype Budget = Budget(bMin: nat, bMax: nat)

  predicate BudgetOk(b: Budget) {
    b.bMin < WORD && b.bMax < WORD
  }

  /** A budget needs its minimum not to exceed its maximum, unless the maximum is 0, which switches it off. */
  function NewBudget(min: nat, max: nat): Option<Budget> {
    if max > 0 && min > max then None else Some(Budget(min, max))
  }

  datatype ScalingFactor = ScalingFactor(num: nat, den: nat)

  function Apply(b: Budget, sumR: nat): ScalingFactor {
    if b.bMax == 0 then ScalingFactor(1, 1)
    else if sumR > b.bMax then ScalingFactor(b.bMax, sumR)
    else if b.bMin > 0 && sumR < b.bMin && sumR > 0 then ScalingFactor(b.bMin, sumR)
    else ScalingFactor(1, 1)
  }

  /** The product is truncated to a word before the division. */
  function ScaleSubsidy(sf: ScalingFactor, R: nat): nat {
    if sf.den == 0 then R else Wrap(R * sf.num) / sf.den
  }

  /** A subsidy is scaled to its true floored share exactly when the product fits a word. */
  lemma ScalesExactlyIff(sf: ScalingFactor, R: nat)
    requires 0 < sf.den < WORD
    ensures ScaleSubsidy(sf, R) == R * sf.num / sf.den <==> R * sf.num < WORD
  {
    var x, w := R * sf.num, Wrap(R * sf.num);
    FloorDiv(x, sf.den);
    FloorDiv(w, sf.den);
  }

  lemma SmallWrap(x: nat)
    ensures Wrap(x) == x <==> x < WORD
  {
  }

  lemma FloorDiv(x: nat, d: nat)
    requires d > 0
    ensures d * (x / d) <= x < d * (x / d) + d
  {
  }

  lemma MulMono(d: nat, a: int, b: int)
    requires a <= b
    ensures d * a <= d * b
  {
  }

  /** The smallest kind of overflow: scaling 2^63 by 2/3 gives 0. */
  lemma ScalingOverflows()
    ensures ScaleSubsidy(ScalingFactor(2, 3), 0x8000_0000_0000_0000) == 0
  {
  }

  // ---------- a whole block ----------

  /** What the accumulating loop computes. */
  function WordSum(s: seq<int>): (w: nat)
    requires Words(s)
    ensures w < WORD
  {
    if s == [] then 0 else Wrap(WordSum(s[..|s|-1]) + s[|s|-1])
  }

  lemma {:induction false} SumNonNegative(s: seq<int>)
    requires Words(s)
    ensures SumSeq(s) >= 0
  {
    if s != [] { SumNonNegative(s[..|s|-1]); }
  }

  /** The loop computes the sum exactly when the sum fits a word. */
  lemma {:induction false} WordSumExactIff(s: seq<int>)
    requires Words(s)
    ensures WordSum(s) == SumSeq(s) <==> SumSeq(s) < WORD
  {
    if s != [] {
      WordSumExactIff(s[..|s|-1]);
      SumNonNegative(s[..|s|-1]);
    }
  }

  function ScaleAll(sf: ScalingFactor, s: seq<int>): (r: seq<int>)
    requires Words(s)
    ensures |r| == |s| && forall i :: 0 <= i < |s| ==> r[i] == ScaleSubsidy(sf, s[i])
  {
    seq(|s|, i requires 0 <= i < |s| => ScaleSubsidy(sf, s[i]))
  }

  predicate ProductsFit(sf: ScalingFactor, s: seq<int>)
    requires Words(s)
  {
    forall i :: 0 <= i < |s| ==> s[i] * sf.num < WORD
  }

  /** What the rounding leaves over, in units of the denominator, is less than one denominator an entry. */
  lemma {:induction false} ScaledSum(sf: ScalingFactor, s: seq<int>)
    requires Words(s) && 0 < sf.den < WORD && ProductsFit(sf, s)
    ensures var left := sf.num * SumSeq(s) - sf.den * SumSeq(ScaleAll(sf, s));
            0 <= left <= |s| * (sf.den - 1)
  {
    if s != [] {
      var n := |s| - 1;
      ScaledSum(sf, s[..n]);
      ScaledOne(sf, s[n]);
      assert ScaleAll(sf, s)[..n] == ScaleAll(sf, s[..n]);
      DistributeTwice(sf.num, SumSeq(s[..n]), s[n], sf.den, SumSeq(ScaleAll(sf, s[..n])), ScaleSubsidy(sf, s[n]));
      OneMore(n, sf.den - 1);
    } else {
      assert ScaleAll(sf, s) == [];
    }
  }

  lemma OneMore(n: int, d: int)
    ensures (n + 1) * d == n * d + d
  {
  }

  lemma ScaledOne(sf: ScalingFactor, R: nat)
    requires 0 < sf.den < WORD && R * sf.num < WORD
    ensures 0 <= sf.num * R - sf.den * ScaleSubsidy(sf, R) <= sf.den - 1
  {
    SmallWrap(R * sf.num);
    FloorDiv(R * sf.num, sf.den);
    assert R * sf.num == sf.num * R;
  }

  lemma DistributeTwice(a: int, x: int, y: int, b: int, u: int, v: int)
    ensures a * (x + y) - b * (u + v) == (a * x - b * u) + (a * y - b * v)
  {
  }

  /** The block loses less than one unit for each entry but one. */
  lemma RoundingBound(bound: nat, n: nat, den: nat, sum: int)
    requires n >= 1 && den > 0 && 0 <= bound * den - den * sum <= n * (den - 1)
    ensures bound - (n - 1) <= sum <= bound
  {
  }

  /**
   * Without overflow a scaled block adds up to the bound it is scaled towards, less at most one unit for each
   * entry but one, and the order of the subsidies is kept.
   */
  lemma ScaledBlock(b: Budget, s: seq<int>)
    requires BudgetOk(b) && Words(s) && SumSeq(s) < WORD
    requires var sf := Apply(b, WordSum(s)); sf.num != sf.den && ProductsFit(sf, s)
    ensures var sf := Apply(b, WordSum(s));
            && sf.num == (if SumSeq(s) > b.bMax then b.bMax else b.bMin)
            && sf.num - (|s| - 1) <= SumSeq(ScaleAll(sf, s)) <= sf.num
            && forall i, j :: 0 <= i < |s| && 0 <= j < |s| && s[i] <= s[j] ==> ScaleAll(sf, s)[i] <= ScaleAll(sf, s)[j]
  {
    var sf := Apply(b, WordSum(s));
    WordSumExactIff(s);
    ScaledSum(sf, s);
    assert s != [];
    assert sf.num * SumSeq(s) == sf.num * sf.den;
    RoundingBound(sf.num, |s|, sf.den, SumSeq(ScaleAll(sf, s)));
    forall i, j | 0 <= i < |s| && 0 <= j < |s| && s[i] <= s[j] ensures ScaleAll(sf, s)[i] <= ScaleAll(sf, s)[j] {
      ScalingKeepsOrder(sf, s[i], s[j]);
    }
  }

  lemma ScalingKeepsOrder(sf: ScalingFactor, R: nat, R': nat)
    requires R <= R' && 0 < sf.den && R * sf.num < WORD && R' * sf.num < WORD
    ensures ScaleSubsidy(sf, R) <= ScaleSubsidy(sf, R')
  {
    SmallWrap(R * sf.num);
    SmallWrap(R' * sf.num);
    MulMono(sf.num, R, R');
    QuotientMono(R * sf.num, R' * sf.num, sf.den);
  }

  lemma QuotientMono(x: nat, y: nat, d: nat)
    requires d > 0 && x <= y
    ensures x / d <= y / d
  {
    FloorDiv(x, d);
    FloorDiv(y, d);
    if y / d < x / d {
      MulMono(d, y / d + 1, x / d);
      assert false;
    }
  }

  /** What the block ends up with; subsidies that need no scaling are returned as they are. */
  function Budgeted(b: Budget, s: seq<int>): seq<int>
    requires Words(s)
  {
    var sf := Apply(b, WordSum(s));
    if sf.num == sf.den then s else ScaleAll(sf, s)
  }

  /** Truncating the product only lowers a scaled subsidy. */
  lemma ScaledAtMost(sf: ScalingFactor, R: nat)
    requires sf.den > 0
    ensures sf.den * ScaleSubsidy(sf, R) <= R * sf.num
  {
    FloorDiv(Wrap(R * sf.num), sf.den);
    WrapLowers(R * sf.num);
  }

  lemma WrapLowers(x: nat)
    ensures Wrap(x) <= x
  {
  }

  lemma {:induction false} ScaledSumAtMost(sf: ScalingFactor, s: seq<int>)
    requires Words(s) && sf.den > 0
    ensures sf.den * SumSeq(ScaleAll(sf, s)) <= SumSeq(s) * sf.num
  {
    if s == [] {
      assert ScaleAll(sf, s) == [];
    } else {
      var n := |s| - 1;
      ScaledSumAtMost(sf, s[..n]);
      ScaledAtMost(sf, s[n]);
      assert ScaleAll(sf, s)[..n] == ScaleAll(sf, s[..n]);
      DistributeTwice(sf.num, SumSeq(s[..n]), s[n], sf.den, SumSeq(ScaleAll(sf, s[..n])), ScaleSubsidy(sf, s[n]));
      Commute(sf.num, SumSeq(s), SumSeq(s[..n]), s[n]);
    }
  }

  lemma Commute(a: int, x: int, y: int, z: int)
    ensures a * x == x * a && a * y == y * a && a * z == z * a
  {
  }

  /** A block scaled towards a bound never exceeds it, whether or not products wrap. */
  lemma ScaledUnderBound(b: Budget, s: seq<int>)
    requires Words(s) && SumSeq(s) < WORD
    requires var sf := Apply(b, WordSum(s)); sf.num != sf.den
    ensures SumSeq(ScaleAll(Apply(b, WordSum(s)), s)) <= Apply(b, WordSum(s)).num
  {
    var sf := Apply(b, WordSum(s));
    WordSumExactIff(s);
    ScaledSumAtMost(sf, s);
    CancelFactor(sf.den, SumSeq(ScaleAll(sf, s)), sf.num);
  }

  lemma CancelFactor(d: nat, x: int, y: int)
    requires d > 0 && d * x <= d * y
    ensures x <= y
  {
    if x > y { MulMono(d, y + 1, x); }
  }

  /** An active budget is never exceeded as long as the sum of the subsidies fits a word. */
  lemma BudgetNotExceeded(min: nat, max: nat, s: seq<int>)
    requires 0 < max && NewBudget(min, max).Some? && Words(s) && SumSeq(s) < WORD
    ensures SumSeq(Budgeted(NewBudget(min, max).value, s)) <= max
  {
    var b := NewBudget(min, max).value;
    var sf := Apply(b, WordSum(s));
    WordSumExactIff(s);
    if sf.num != sf.den { ScaledUnderBound(b, s); }
  }

  /** If no product wraps either, the minimum is missed by less than one unit for each entry but one. */
  lemma BudgetKept(min: nat, max: nat, s: seq<int>)
    requires min < WORD && 0 < max < WORD && NewBudget(min, max).Some? && s != []
    requires Words(s) && 0 < SumSeq(s) < WORD && ProductsFit(Apply(NewBudget(min, max).value, WordSum(s)), s)
    ensures SumSeq(Budgeted(NewBudget(min, max).value, s)) >= min - (|s| - 1)
  {
    var b := NewBudget(min, max).value;
    var sf := Apply(b, WordSum(s));
    WordSumExactIff(s);
    if sf.num != sf.den { ScaledBlock(b, s); }
  }

  /** A budget is refused exactly if it is switched on and its minimum exceeds its maximum. */
  lemma BudgetRefusedIff(min: nat, max: nat)
    ensures NewBudget(min, max) == None <==> max != 0 && min > max
    ensures NewBudget(min, max).Some? ==> NewBudget(min, max).value == Budget(min, max)
  {
  }

  /** A maximum of 0 switches a budget off: whatever the block adds up to, every subsidy is paid as it is. */
  lemma SwitchedOff(min: nat, s: seq<int>)
    requires Words(s)
    ensures Budgeted(Budget(min, 0), s) == s
  {
  }

  /** A block left unscaled exceeds an active budget exactly when its sum wraps, however many entries it has. */
  lemma UnscaledExceedsIff(b: Budget, s: seq<int>)
    requires 0 < b.bMax < WORD && Words(s)
    requires b.bMin <= WordSum(s) <= b.bMax || WordSum(s) == 0
    ensures Budgeted(b, s) == s
    ensures SumSeq(Budgeted(b, s)) > b.bMax <==> SumSeq(s) >= WORD
  {
    WordSumExactIff(s);
  }

  /** A wrapped sum is short by whole words. */
  lemma {:induction false} SumInWords(s: seq<int>) returns (k: nat)
    requires Words(s)
    ensures SumSeq(s) == WordSum(s) + k * WORD
  {
    k := 0;
    if s != [] {
      var before := SumInWords(s[..|s|-1]);
      var carry := (WordSum(s[..|s|-1]) + s[|s|-1]) / WORD;
      k := before + carry;
    }
  }

  /** Scaling upwards lowers no subsidy. */
  lemma {:induction false} ScaledUp(sf: ScalingFactor, s: seq<int>)
    requires Words(s) && 0 < sf.den <= sf.num && ProductsFit(sf, s)
    ensures SumSeq(ScaleAll(sf, s)) >= SumSeq(s)
  {
    if s == [] {
      assert ScaleAll(sf, s) == [];
    } else {
      var n := |s| - 1;
      ScaledUp(sf, s[..n]);
      OneScaledUp(sf, s[n]);
      assert ScaleAll(sf, s)[..n] == ScaleAll(sf, s[..n]);
    }
  }

  lemma OneScaledUp(sf: ScalingFactor, R: nat)
    requires 0 < sf.den <= sf.num && R * sf.num < WORD
    ensures ScaleSubsidy(sf, R) >= R
  {
    SmallWrap(R * sf.num);
    MulMono(R, sf.den, sf.num);
    QuotientMono(R * sf.den, R * sf.num, sf.den);
    WholeQuotient(R, sf.den);
  }

  lemma WholeQuotient(q: nat, d: nat)
    requires d > 0
    ensures q * d / d >= q
  {
    FloorDiv(q * d, d);
    if q * d / d < q { MulMono(d, q * d / d + 1, q); }
  }

  /** Scaling a sum of more than a word down as if it were its remainder leaves more than the bound. */
  lemma StillTooMuch(max: nat, den: nat, n: nat, sum: nat, scaled: int)
    requires 0 < max < den < WORD && n <= max && sum >= den + WORD
    requires max * sum - den * scaled <= n * (den - 1)
    ensures scaled > max
  {
    MulMono(max, den + WORD, sum);
    Distribute(max, den, WORD);
    MulMono(max, den, WORD);
    MulMono(den - 1, n, max);
    assert n * (den - 1) == (den - 1) * n && max * (den - 1) == (den - 1) * max;
    Distribute(max, den - 1, 1);
    if scaled <= max { MulMono(den, scaled, max); }
  }

  lemma Distribute(a: int, x: int, y: int)
    ensures a * (x + y) == a * x + a * y
  {
  }

  /**
   * Exactly when an active budget holds: for no more entries than the maximum has units and as long as no product
   * wraps, the block stays within the maximum if and only if the sum of its subsidies fits a word.
   */
  lemma NotExceededIff(b: Budget, s: seq<int>)
    requires BudgetOk(b) && 0 < b.bMax && b.bMin <= b.bMax && |s| <= b.bMax && Words(s)
    requires ProductsFit(Apply(b, WordSum(s)), s)
    ensures SumSeq(Budgeted(b, s)) <= b.bMax <==> SumSeq(s) < WORD
  {
    var sf := Apply(b, WordSum(s));
    WordSumExactIff(s);
    if SumSeq(s) < WORD {
      if sf.num != sf.den { ScaledUnderBound(b, s); }
    } else {
      WrappedByWords(s);
      if sf.num > sf.den { ScaledUp(sf, s); }
      if sf.num < sf.den { ScaledDown(sf, s); }
    }
  }

  lemma WrappedByWords(s: seq<int>)
    requires Words(s) && SumSeq(s) >= WORD
    ensures SumSeq(s) >= WordSum(s) + WORD
  {
    var k := SumInWords(s);
  }

  lemma ScaledDown(sf: ScalingFactor, s: seq<int>)
    requires Words(s) && 0 < sf.num < sf.den < WORD && ProductsFit(sf, s) && |s| <= sf.num && SumSeq(s) >= sf.den + WORD
    ensures SumSeq(ScaleAll(sf, s)) > sf.num
  {
    ScaledSum(sf, s);
    StillTooMuch(sf.num, sf.den, |s|, SumSeq(s), SumSeq(ScaleAll(sf, s)));
  }

  /** Once products wrap as well, either can happen: the same block exceeds a maximum of 1 and keeps one of 2. */
  lemma WrappedProductsEitherWay()
    ensures var s := [0x8000_0000_0000_0000, 0x8000_0000_0000_0000, 5];
            && Words(s) && SumSeq(s) == WORD + 5
            && SumSeq(Budgeted(Budget(0, 1), s)) > 1
            && SumSeq(Budgeted(Budget(0, 2), s)) == 2
  {
    var x := 0x8000_0000_0000_0000;
    SumOfThree(x, x, 5);
    WrappedSample();
    ScaledSamples();
    BudgetedThree(Budget(0, 1), ScalingFactor(1, 5), x, x, 5);
    BudgetedThree(Budget(0, 2), ScalingFactor(2, 5), x, x, 5);
  }

  lemma WrappedSample()
    ensures WordSum([0x8000_0000_0000_0000, 0x8000_0000_0000_0000, 5]) == 5
  {
    WordSumOfThree(0x8000_0000_0000_0000, 0x8000_0000_0000_0000, 5);
  }

  lemma BudgetedThree(b: Budget, sf: ScalingFactor, x: nat, y: nat, z: nat)
    requires x < WORD && y < WORD && z < WORD && Apply(b, WordSum([x, y, z])) == sf && sf.num != sf.den
    ensures SumSeq(Budgeted(b, [x, y, z])) == ScaleSubsidy(sf, x) + ScaleSubsidy(sf, y) + ScaleSubsidy(sf, z)
  {
    ScaledThree(sf, x, y, z);
  }

  lemma ScaledSamples()
    ensures ScaleSubsidy(ScalingFactor(1, 5), 0x8000_0000_0000_0000) > 1 && ScaleSubsidy(ScalingFactor(1, 5), 5) == 1
    ensures ScaleSubsidy(ScalingFactor(2, 5), 0x8000_0000_0000_0000) == 0 && ScaleSubsidy(ScalingFactor(2, 5), 5) == 2
  {
  }

  /** More entries than the maximum has units: rounding alone can bring a wrapped block under it. */
  lemma RoundedUnderMaximum()
    ensures var s := [0x8000_0000_0000_0001, 0x8000_0000_0000_0001, 0x8000_0000_0000_0001];
            && Words(s) && ProductsFit(Apply(Budget(0, 1), WordSum(s)), s)
            && SumSeq(s) >= WORD && SumSeq(Budgeted(Budget(0, 1), s)) == 0
  {
    var x, sf := 0x8000_0000_0000_0001, ScalingFactor(1, 0x8000_0000_0000_0003);
    SumOfThree(x, x, x);
    WrappedThirds();
    RoundedAway(sf, x);
    BudgetedThree(Budget(0, 1), sf, x, x, x);
  }

  lemma WrappedThirds()
    ensures WordSum([0x8000_0000_0000_0001, 0x8000_0000_0000_0001, 0x8000_0000_0000_0001]) == 0x8000_0000_0000_0003
  {
    WordSumOfThree(0x8000_0000_0000_0001, 0x8000_0000_0000_0001, 0x8000_0000_0000_0001);
  }

  lemma RoundedAway(sf: ScalingFactor, R: nat)
    requires sf.num == 1 && R < sf.den && R < WORD
    ensures ScaleSubsidy(sf, R) == 0
  {
    SmallWrap(R);
    FloorDiv(R, sf.den);
    if R / sf.den > 0 { MulMono(sf.den, 1, R / sf.den); }
  }

  lemma ScaledThree(sf: ScalingFactor, x: nat, y: nat, z: nat)
    requires x < WORD && y < WORD && z < WORD
    ensures SumSeq(ScaleAll(sf, [x, y, z])) == ScaleSubsidy(sf, x) + ScaleSubsidy(sf, y) + ScaleSubsidy(sf, z)
  {
    assert ScaleAll(sf, [x, y, z]) == [ScaleSubsidy(sf, x), ScaleSubsidy(sf, y), ScaleSubsidy(sf, z)];
    SumOfThree(ScaleSubsidy(sf, x), ScaleSubsidy(sf, y), ScaleSubsidy(sf, z));
  }

  lemma SumOfThree(x: int, y: int, z: int)
    ensures SumSeq([x, y, z]) == x + y + z
  {
    assert [x, y, z][..2] == [x, y] && [x, y][..1] == [x] && [x][..0] == [];
    assert SumSeq([x]) == x && SumSeq([x, y]) == x + y;
  }

  lemma WordSumOfOne(x: nat)
    requires x < WORD
    ensures WordSum([x]) == x
  {
    assert [x][..0] == [];
    SmallWrap(x);
  }

  lemma WordSumOfTwo(x: nat, y: nat)
    requires x < WORD && y < WORD
    ensures WordSum([x, y]) == Wrap(x + y)
  {
    WordSumOfOne(x);
    assert [x, y][..1] == [x];
  }

  lemma WordSumOfThree(x: nat, y: nat, z: nat)
    requires x < WORD && y < WORD && z < WORD
    ensures WordSum([x, y, z]) == Wrap(Wrap(x + y) + z)
  {
    WordSumOfTwo(x, y);
    assert [x, y, z][..2] == [x, y];
  }

  /** Two subsidies of 2^63 under a budget of 1. */
  lemma BudgetExceeded()
    ensures var s := [0x8000_0000_0000_0000, 0x8000_0000_0000_0000];
            Words(s) && Budgeted(Budget(0, 1), s) == s && SumSeq(s) == WORD
  {
    var x := 0x8000_0000_0000_0000;
    WordSumOfTwo(x, x);
    assert [x, x][..1] == [x] && [x][..0] == [];
    assert SumSeq([x]) == x && SumSeq([x, x]) == WORD;
  }

  method ApplyBudgetToBlock(b: Budget, subsidies: seq<int>) returns (scaled: seq<int>, sf: ScalingFactor)
    requires Words(subsidies)
    ensures sf == Apply(b, WordSum(subsidies)) && scaled == Budgeted(b, subsidies)
  {
    var sumR := 0;
    for i := 0 to |subsidies|
      invariant sumR == WordSum(subsidies[..i])
    {
      assert subsidies[..i+1][..i] == subsidies[..i];
      sumR := Wrap(sumR + subsidies[i]);
    }
    assert subsidies[..|subsidies|] == subsidies;
    sf := Apply(b, sumR);
    if sf.num == sf.den {
      return subsidies, sf;
    }
    scaled := [];
    for i := 0 to |subsidies|
      invariant scaled == ScaleAll(sf, subsidies)[..i]
    {
      scaled := scaled + [ScaleSubsidy(sf, subsidies[i])];
    }
  }
}
