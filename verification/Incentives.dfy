/** What the subsidy modes pay and how their controllers move (incentive/justitia/justitia.go). */
module Incentives {
  import opened Shards
  import opened Justitia

  // ---------- what a mode pays ----------

  /**
   * What the two proposers get together beyond the fee: nothing, the destination's average, both averages, one ether,
   * or what the custom function says, less the unit an odd split loses.
   */
  lemma PayoutByMode(mode: SubsidyMode, fAB: int, EA: int, EB: int, customF: CustomF)
    ensures var u := Split2(fAB, RAB(mode, EA, EB, customF), EA, EB);
            var paid, lost := u.0 + u.1 - fAB, LostUnit(fAB, RAB(mode, EA, EB, customF), EA, EB);
            && (mode == SubsidyNone ==> paid == 0 - lost)
            && (mode == SubsidySumAvg ==> paid == EA + EB - lost)
            && (mode == SubsidyExtremeFixed ==> paid == 1_000_000_000_000_000_000 - lost)
            && (mode == SubsidyDestAvg || FallsBack(mode, customF) ==> paid == EB - lost)
            && (mode == SubsidyCustom && customF.Some? && customF.value(EA, EB).Some? ==>
                  paid == customF.value(EA, EB).value - lost)
            && (mode == SubsidyCustom && customF.Some? && customF.value(EA, EB).None? ==> paid == 0 - lost)
  {
    Split2Exact(fAB, RAB(mode, EA, EB, customF), EA, EB);
  }

  function LostUnit(fAB: int, R: int, EA: int, EB: int): int {
    if Clamped(fAB, R, EA, EB) then 0 else (fAB + R + EA - EB) % 2
  }

  /** Without a subsidy a transaction is first at either end exactly if its own fee covers both averages. */
  lemma NoSubsidyNeedsBothAverages(fAB: int, EA: int, EB: int, customF: CustomF)
    requires fAB >= 0 && EA >= 1 && EB >= 1
    ensures var u := Split2(fAB, RAB(SubsidyNone, EA, EB, customF), EA, EB);
            (Classify(u.0, EA, EB) == Case1 <==> fAB >= EA + EB) && (Classify(u.1, EB, EA) == Case1 <==> fAB >= EA + EB)
  {
    ClassifyClosedForm(fAB, 0, EA, EB);
    ClassifyClosedForm(fAB, 0, EB, EA);
    BothEndsAgreeIff(fAB, 0, EA, EB);
  }

  /** One ether puts every transaction first at both ends, since averages never exceed a ten-thousandth of that. */
  lemma ExtremeFixedAlwaysFirst(fAB: int, EA: int, EB: int, customF: CustomF)
    requires fAB >= 0 && 0 <= EA <= 100_000_000_000_000 && 0 <= EB <= 100_000_000_000_000
    ensures var u := Split2(fAB, RAB(SubsidyExtremeFixed, EA, EB, customF), EA, EB);
            Classify(u.0, EA, EB) == Case1 && Classify(u.1, EB, EA) == Case1
  {
  }

  // ---------- the Lagrangian subsidy ----------

  lemma PositiveProduct(x: real, y: real)
    requires x > 0.0 && y > 0.0
    ensures x * y > 0.0
  {
  }

  lemma ProductsCompare(x: real, y: real, d: real)
    requires d > 0.0
    ensures x * d < y * d <==> x < y
  {
    if x < y { PositiveProduct(y - x, d); }
    if y < x { PositiveProduct(x - y, d); }
  }

  /**
   * The Lagrangian subsidy is the largest whole amount that, at the price in force, costs no more than the average
   * weighted by the congestion. The price in force is the shadow price, but at least its minimum.
   */
  lemma LargestAffordable(EB: int, congestion: real, price: real, minLambda: real, inForce: real)
    requires inForce == (if price < minLambda then minLambda else price) && inForce > 0.0
    requires EB as real * congestion >= 0.0
    ensures var r := LagrangianSubsidy(EB, congestion, price, minLambda);
            r >= 0 && r as real * inForce <= EB as real * congestion < (r + 1) as real * inForce
  {
    var r, q := LagrangianSubsidy(EB, congestion, price, minLambda), EB as real * (congestion / inForce);
    QuotientTimes(EB as real, congestion, inForce, q);
    NotNegative(q, inForce);
    ProductsCompare(q, r as real, inForce);
    ProductsCompare(q, (r + 1) as real, inForce);
  }

  lemma NotNegative(q: real, d: real)
    requires d > 0.0 && q * d >= 0.0
    ensures q >= 0.0
  {
    if q < 0.0 { PositiveProduct(-q, d); }
  }

  lemma QuotientTimes(e: real, c: real, d: real, q: real)
    requires d != 0.0 && q == e * (c / d)
    ensures q * d == e * c
  {
    assert c / d * d == c;
    assert e * (c / d) * d == e * (c / d * d);
  }

  // ---------- the shadow price ----------

  /** The violation is the overspending in units of the limit; without a positive limit there is none. */
  lemma ViolationTimesLimit(total: int, limit: int)
    ensures limit > 0 ==> Violation(total, limit) * limit as real == total as real - limit as real
    ensures limit <= 0 ==> Violation(total, limit) == 0.0
  {
  }

  /** One epoch moves the price by alpha times the violation, or to the bound that this would pass. */
  lemma PriceMoves(p: LagrangianParams, price: real, violation: real)
    requires p.minLambda <= p.maxLambda
    ensures var moved := price + p.alpha * violation;
            && (p.minLambda <= moved <= p.maxLambda ==> NextLambda(p, price, violation) == moved)
            && (moved < p.minLambda ==> NextLambda(p, price, violation) == p.minLambda)
            && (moved > p.maxLambda ==> NextLambda(p, price, violation) == p.maxLambda)
  {
  }

  function Sum(s: seq<real>): real {
    if s == [] then 0.0 else Sum(s[..|s|-1]) + s[|s|-1]
  }

  /** What the violations move the price by, one after the other. */
  function Drift(alpha: real, violations: seq<real>): real {
    if violations == [] then 0.0 else Drift(alpha, violations[..|violations|-1]) + alpha * violations[|violations|-1]
  }

  lemma {:induction false} DriftIsSum(alpha: real, violations: seq<real>)
    ensures Drift(alpha, violations) == alpha * Sum(violations)
  {
    if violations == [] {
      assert alpha * 0.0 == 0.0;
    } else {
      DriftIsSum(alpha, violations[..|violations|-1]);
      ProductOfSum(alpha, Sum(violations[..|violations|-1]), violations[|violations|-1]);
    }
  }

  /** No epoch's move passes a bound. */
  predicate StaysInside(p: LagrangianParams, price: real, violations: seq<real>) {
    violations != [] ==>
      && StaysInside(p, price, violations[..|violations|-1])
      && p.minLambda <= price + Drift(p.alpha, violations) <= p.maxLambda
  }

  lemma {:induction false} PriceDrifts(p: LagrangianParams, price: real, violations: seq<real>)
    requires p.minLambda <= p.maxLambda && StaysInside(p, price, violations)
    ensures LambdaAfter(p, price, violations) == price + Drift(p.alpha, violations)
  {
    if violations != [] {
      var init, last := violations[..|violations|-1], violations[|violations|-1];
      var before, step := LambdaAfter(p, price, init), p.alpha * last;
      assert before == price + Drift(p.alpha, init) by { PriceDrifts(p, price, init); }
      assert Drift(p.alpha, violations) == Drift(p.alpha, init) + step;
      PriceMoves(p, before, last);
      assert LambdaAfter(p, price, violations) == NextLambda(p, before, last);
    }
  }

  /** As long as no bound is passed, the price has moved by alpha times the sum of the violations. */
  lemma PriceFollowsViolations(p: LagrangianParams, price: real, violations: seq<real>)
    requires p.minLambda <= p.maxLambda && StaysInside(p, price, violations)
    ensures LambdaAfter(p, price, violations) == price + p.alpha * Sum(violations)
  {
    PriceDrifts(p, price, violations);
    DriftIsSum(p.alpha, violations);
  }

  // ---------- the controller ----------

  /** Utilization is the queue length in units of the capacity, or of 1000 where none is configured. */
  lemma UtilizationTimesCapacity(m: Mechanism, queueLength: int)
    ensures m.Utilization(queueLength) * (if m.pid.capacityB > 0.0 then m.pid.capacityB else 1000.0)
         == queueLength as real
  {
  }

  /** The integral grows by error times seconds and stops at plus and minus ten. */
  lemma IntegralGrows(integral: real, error: real, dt: real)
    ensures var grown := integral + error * dt;
            && (-10.0 <= grown <= 10.0 ==> Accumulated(integral, error, dt) == grown)
            && (grown > 10.0 ==> Accumulated(integral, error, dt) == 10.0)
            && (grown < -10.0 ==> Accumulated(integral, error, dt) == -10.0)
  {
  }

  /** A clock that has not moved, or has moved back, counts as one second. */
  lemma SecondsCounted(elapsed: real)
    ensures elapsed > 0.0 ==> Mechanism.Seconds(elapsed) == elapsed
    ensures elapsed <= 0.0 ==> Mechanism.Seconds(elapsed) == 1.0
  {
  }

  lemma ProductOfSum(a: real, x: real, y: real)
    ensures a * (x + y) == a * x + a * y
  {
  }

  /** At rest the output is 0. */
  lemma OutputAtRest(pid: PIDParams, dt: real)
    requires dt > 0.0
    ensures Output(pid, 0.0, 0.0, 0.0, dt) == 0.0
  {
    assert pid.kp * 0.0 == 0.0 && pid.ki * 0.0 == 0.0 && pid.kd * (0.0 / dt) == 0.0;
  }

  /** What each input adds to the output at rest: its proportional, integral or derivative gain. */
  lemma OutputMoves(pid: PIDParams, error: real, prev: real, integral: real, dt: real, x: real)
    requires dt > 0.0
    ensures Output(pid, error, prev, integral + x, dt) == Output(pid, error, prev, integral, dt) + pid.ki * x
    ensures Output(pid, error, prev + x, integral, dt) == Output(pid, error, prev, integral, dt) - pid.kd * (x / dt)
    ensures Output(pid, error + x, prev + x, integral, dt) == Output(pid, error, prev, integral, dt) + pid.kp * x
  {
    ProductOfSum(pid.ki, integral, x);
    ProductOfSum(pid.kp, error, x);
    assert (error - (prev + x)) / dt == (error - prev) / dt - x / dt;
    ProductOfSum(pid.kd, (error - prev) / dt, -(x / dt));
    assert pid.kd * -(x / dt) == -(pid.kd * (x / dt));
  }

  /** The factor is one more than the output, between its two bounds. */
  lemma FactorOfOutput(pid: PIDParams, error: real, prev: real, integral: real, dt: real)
    requires dt > 0.0 && pid.minSubsidy <= pid.maxSubsidy
    ensures var f, m := 1.0 + Output(pid, error, prev, integral, dt), Multiplier(pid, error, prev, integral, dt);
            && (pid.minSubsidy <= f <= pid.maxSubsidy ==> m == f)
            && (f < pid.minSubsidy ==> m == pid.minSubsidy) && (f > pid.maxSubsidy ==> m == pid.maxSubsidy)
  {
  }
}
