/**
 * The incentive for cross-shard transactions: subsidy, two-party split and classification, and the dynamic
 * subsidy modes (incentive/justitia/justitia.go). A nil amount reads as 0. Floating point is exact here.
 */
module Justitia {
  import opened Shards

  const ONE_ETH := 1_000_000_000_000_000_000

  datatype SubsidyMode =
    SubsidyNone | SubsidyDestAvg | SubsidySumAvg | SubsidyCustom | SubsidyExtremeFixed | SubsidyPID | SubsidyLagrangian

  type CustomF = Option<(int, int) -> Option<int>>

  /** The stateless subsidy; the transaction's own fee plays no part in it. */
  function RAB(mode: SubsidyMode, EA: int, EB: int, customF: CustomF): int {
    match mode
    case SubsidyNone => 0
    case SubsidyDestAvg => EB
    case SubsidySumAvg => EA + EB
    case SubsidyCustom =>
      if customF.None? then EB
      else (match customF.value(EA, EB) case None => 0 case Some(r) => r)
    case SubsidyExtremeFixed => ONE_ETH
    case SubsidyPID => EB
    case SubsidyLagrangian => EB
  }

  // ---------- the split ----------

  /** The two shares of fee plus subsidy, by floored halves, with a negative half clamped to 0. */
  function Split2(fAB: int, R: int, EA: int, EB: int): (int, int) {
    var total := fAB + R;
    var diff := EA - EB;
    var uA := (total + diff) / 2;
    var uB := (total - diff) / 2;
    if uA < 0 then (0, total)
    else if uB < 0 then (total, 0)
    else (uA, uB)
  }

  /** One of the halves was negative. */
  predicate Clamped(fAB: int, R: int, EA: int, EB: int) {
    (fAB + R + EA - EB) / 2 < 0 || (fAB + R + EB - EA) / 2 < 0
  }

  /**
   * Exactly what the split pays out. It conserves the total if a share was clamped or the halved sums are even;
   * otherwise one unit is lost. Both shares are non-negative exactly when the total is.
   */
  lemma Split2Exact(fAB: int, R: int, EA: int, EB: int)
    ensures var u := Split2(fAB, R, EA, EB);
            u.0 + u.1 == fAB + R - if Clamped(fAB, R, EA, EB) then 0 else (fAB + R + EA - EB) % 2
    ensures var u := Split2(fAB, R, EA, EB);
            u.0 >= 0 && u.1 >= 0 <==> fAB + R >= 0
    ensures fAB + R >= 0 ==> Split2(fAB, R, EB, EA) == (Split2(fAB, R, EA, EB).1, Split2(fAB, R, EA, EB).0)
  {
    assert (fAB + R + EA - EB) - (fAB + R + EB - EA) == 2 * (EA - EB);
  }

  /**
   * Who gets what. Unless a share was clamped, the shares differ by exactly what the averages differ by; a clamped end,
   * the one with the lower average, gets nothing and the other end everything. With Split2Exact this settles the split.
   */
  lemma SharesFollowAverages(fAB: int, R: int, EA: int, EB: int)
    requires fAB + R >= 0
    ensures var u := Split2(fAB, R, EA, EB);
            && (!Clamped(fAB, R, EA, EB) ==> u.0 - u.1 == EA - EB)
            && (Clamped(fAB, R, EA, EB) ==> u == if EA < EB then (0, fAB + R) else (fAB + R, 0))
    ensures Clamped(fAB, R, EA, EB) <==> fAB + R < EA - EB || fAB + R < EB - EA
  {
  }

  /** The smallest case in which a unit is lost: a total of 1 split between equal shards. */
  lemma Split2LosesAUnit()
    ensures Split2(1, 0, 0, 0) == (0, 0)
  {
  }

  /** A higher fee never lowers either share. */
  lemma SharesMonotone(f: int, f': int, R: int, EA: int, EB: int)
    requires f <= f' && f + R >= 0
    ensures Split2(f, R, EA, EB).0 <= Split2(f', R, EA, EB).0
    ensures Split2(f, R, EA, EB).1 <= Split2(f', R, EA, EB).1
  {
  }

  // ---------- classification ----------

  datatype Case = Case1 | Case2 | Case3

  /** u is the local share, local and remote the two shards' average fees. */
  function Classify(u: int, local: int, remote: int): Case {
    if u >= local then Case1
    else if remote >= local then (if u <= 0 then Case2 else Case3)
    else if u <= local - remote then Case2
    else Case3
  }

  function Abs(x: int): nat {
    if x < 0 then -x else x
  }

  /**
   * The class depends on the total alone, through rounding and clamping; only where the average is 0 everything is
   * taken as Case1.
   */
  lemma ClassifyClosedForm(fAB: int, R: int, EA: int, EB: int)
    requires fAB + R >= 0 && EA >= 0 && EB >= 0
    ensures Classify(Split2(fAB, R, EA, EB).0, EA, EB)
         == if EA == 0 || fAB + R >= EA + EB then Case1 else if fAB + R <= Abs(EA - EB) + 1 then Case2 else Case3
  {
  }

  /**
   * Both ends classify a transaction alike exactly when both averages are positive or the total covers them.
   * A shard without fee history has average 0 and takes every transaction as Case1.
   */
  lemma BothEndsAgreeIff(fAB: int, R: int, EA: int, EB: int)
    requires fAB + R >= 0 && EA >= 0 && EB >= 0
    ensures var u := Split2(fAB, R, EA, EB);
            Classify(u.0, EA, EB) == Classify(u.1, EB, EA) <==> (EA >= 1 && EB >= 1) || fAB + R >= EA + EB
  {
  }

  /**
   * Under DestAvg a source-shard transaction is Case1 exactly when its own fee reaches the local average, the
   * test intra-shard transactions face, and its score is then the mean of the two, whatever the remote average.
   */
  lemma DestAvgFairness(fAB: int, EA: int, EB: int, customF: CustomF)
    requires fAB >= 0 && EA >= 0 && EB >= 0
    ensures var u := Split2(fAB, RAB(SubsidyDestAvg, EA, EB, customF), EA, EB);
            && (Classify(u.0, EA, EB) == Case1 <==> fAB >= EA)
            && (fAB >= EA ==> u.0 == (fAB + EA) / 2)
  {
  }

  predicate FallsBack(mode: SubsidyMode, customF: CustomF) {
    mode == SubsidyPID || mode == SubsidyLagrangian || (mode == SubsidyCustom && customF == None)
  }

  /**
   * A dynamic mode without its mechanism and a custom mode without its function are as fair as DestAvg: Case1 at
   * the source is a matter of the fee reaching the source's average, and so it is at the destination, except that a
   * shard without fee history takes everything.
   */
  lemma FallbackModesAreFair(mode: SubsidyMode, fAB: int, EA: int, EB: int, customF: CustomF)
    requires FallsBack(mode, customF) && fAB >= 0 && EA >= 0 && EB >= 0
    ensures var u := Split2(fAB, RAB(mode, EA, EB, customF), EA, EB);
            && (Classify(u.0, EA, EB) == Case1 <==> fAB >= EA)
            && (Classify(u.1, EB, EA) == Case1 <==> fAB >= EA || EB == 0)
  {
  }

  /** Under SumAvg every transaction is Case1 at both ends. */
  lemma SumAvgAlwaysCase1(fAB: int, EA: int, EB: int, customF: CustomF)
    requires fAB >= 0 && EA >= 0 && EB >= 0
    ensures var u := Split2(fAB, RAB(SubsidySumAvg, EA, EB, customF), EA, EB);
            Classify(u.0, EA, EB) == Case1 && Classify(u.1, EB, EA) == Case1
  {
  }

  // ---------- dynamic modes ----------

  datatype PIDParams = PIDParams(
    kp: real, ki: real, kd: real, targetUtilization: real, capacityB: real, minSubsidy: real, maxSubsidy: real)

  datatype LagrangianParams = LagrangianParams(
    alpha: real, windowSize: real, minLambda: real, maxLambda: real, congestionExp: real)

  const MAX_INTEGRAL := 10.0

  /** Real to integer conversion that drops the fraction, with negative results raised to 0. */
  function Truncated(x: real): int {
    if x < 0.0 then 0 else x.Floor
  }

  function Clamp(x: real, lo: real, hi: real): real {
    var y := if x < lo then lo else x;
    if y > hi then hi else y
  }

  /** The shadow price a subsidy is divided by. */
  function EffectivePrice(price: real, minLambda: real): real {
    if price < minLambda then minLambda else price
  }

  /**
   * R = EB * congestion / price, for a congestion factor computed by an arbitrary power function. The program
   * stops on the infinite quotient of a zero price.
   */
  function LagrangianSubsidy(EB: int, congestion: real, price: real, minLambda: real): int
    requires EffectivePrice(price, minLambda) != 0.0
  {
    Truncated(EB as real * (congestion / EffectivePrice(price, minLambda)))
  }

  /** A higher shadow price never raises the subsidy. */
  lemma SubsidyFallsWithLambda(EB: int, congestion: real, price: real, price': real, minLambda: real)
    requires minLambda > 0.0 && EB >= 0 && congestion >= 0.0 && price <= price'
    ensures LagrangianSubsidy(EB, congestion, price', minLambda) <= LagrangianSubsidy(EB, congestion, price, minLambda)
  {
  }

  lemma ScaleLess(c: real, a: real, b: real)
    requires c >= 0.0 && a <= b
    ensures c * a <= c * b
  {
  }

  lemma TruncatedLess(c: real, a: real, b: real)
    requires c >= 0.0 && a <= b
    ensures Truncated(c * a) <= Truncated(c * b)
  {
    ScaleLess(c, a, b);
  }

  /** A multiple between two others is between them after truncation too. */
  lemma BetweenMultiples(EB: int, lo: real, m: real, hi: real, r: int)
    requires r == Truncated(EB as real * m) && (lo <= hi ==> lo <= m <= hi)
    ensures EB >= 0 && lo <= hi ==> Truncated(EB as real * lo) <= r <= Truncated(EB as real * hi)
  {
    if EB >= 0 && lo <= hi {
      var e := EB as real;
      TruncatedLess(e, lo, m);
      TruncatedLess(e, m, hi);
      assert Truncated(e * lo) <= Truncated(e * m) && Truncated(e * m) == r;
      assert r <= Truncated(e * hi);
    }
  }

  /** By what fraction of the limit an epoch overspent. */
  function Violation(total: int, limit: int): real {
    if limit > 0 then (total - limit) as real / limit as real else 0.0
  }

  /** Overspending by at least the fraction d means issuing at least 1 + d times the limit. */
  lemma ViolationIff(total: int, limit: int, d: real)
    requires limit > 0
    ensures Violation(total, limit) >= d <==> total as real >= limit as real * (1.0 + d)
  {
    var l, v := limit as real, Violation(total, limit);
    assert v * l == total as real - l;
    if v >= d {
      ScaleLess(l, d, v);
    } else {
      assert l * (d - v) > 0.0;
    }
  }

  /** The next shadow price after an epoch that overspent by the given fraction. */
  function NextLambda(p: LagrangianParams, price: real, violation: real): real {
    Clamp(price + p.alpha * violation, p.minLambda, p.maxLambda)
  }

  /** The shadow price after a whole run of epochs. */
  function LambdaAfter(p: LagrangianParams, price: real, violations: seq<real>): real {
    if violations == [] then price
    else NextLambda(p, LambdaAfter(p, price, violations[..|violations|-1]), violations[|violations|-1])
  }

  /** After any positive number of epochs the shadow price is within its bounds. */
  lemma LambdaInBounds(p: LagrangianParams, price: real, violations: seq<real>)
    requires p.minLambda <= p.maxLambda && violations != []
    ensures p.minLambda <= LambdaAfter(p, price, violations) <= p.maxLambda
  {
  }

  function Min(a: real, b: real): real {
    if a <= b then a else b
  }

  /** Epochs that all overspend by at least the fraction d raise the price by alpha * d each, up to its maximum. */
  lemma OverspendingRaisesLambda(p: LagrangianParams, price: real, violations: seq<real>, d: real)
    requires p.minLambda <= p.maxLambda && p.alpha > 0.0 && d > 0.0
    requires forall i :: 0 <= i < |violations| ==> violations[i] >= d
    ensures LambdaAfter(p, price, violations) >= Min(p.maxLambda, price + |violations| as real * (p.alpha * d))
  {
    RaisedInTotal(p, price, violations, d, p.alpha * d, |violations| as real * (p.alpha * d));
  }

  lemma RaisedInTotal(
    p: LagrangianParams, price: real, violations: seq<real>, d: real, step: real, total: real)
    requires p.minLambda <= p.maxLambda && p.alpha > 0.0 && d > 0.0
    requires forall i :: 0 <= i < |violations| ==> violations[i] >= d
    requires step == p.alpha * d && total == |violations| as real * step
    ensures LambdaAfter(p, price, violations) >= Min(p.maxLambda, price + total)
  {
    EachStepIsEnough(p, violations, d, step);
    RaisedByEveryEpoch(p, price, violations, step);
    TimesIsProduct(|violations|, step);
  }

  lemma EachStepIsEnough(p: LagrangianParams, violations: seq<real>, d: real, step: real)
    requires p.alpha > 0.0 && d > 0.0 && step == p.alpha * d
    requires forall i :: 0 <= i < |violations| ==> violations[i] >= d
    ensures step >= 0.0
    ensures forall i :: 0 <= i < |violations| ==> p.alpha * violations[i] >= step
  {
  }

  function Times(n: nat, step: real): real {
    if n == 0 then 0.0 else Times(n - 1, step) + step
  }

  lemma {:induction false} TimesIsProduct(n: nat, step: real)
    ensures Times(n, step) == n as real * step
  {
    if n > 0 {
      TimesIsProduct(n - 1, step);
      OneMore((n - 1) as real, step);
      assert n as real == (n - 1) as real + 1.0;
    }
  }

  lemma OneMore(x: real, step: real)
    ensures (x + 1.0) * step == x * step + step
  {
  }

  lemma {:induction false} RaisedByEveryEpoch(p: LagrangianParams, price: real, violations: seq<real>, step: real)
    requires p.minLambda <= p.maxLambda && step >= 0.0
    requires forall i :: 0 <= i < |violations| ==> p.alpha * violations[i] >= step
    ensures LambdaAfter(p, price, violations) >= Min(p.maxLambda, price + Times(|violations|, step))
  {
    if violations != [] {
      var n := |violations| - 1;
      RaisedByEveryEpoch(p, price, violations[..n], step);
      RaisedLambda(p, LambdaAfter(p, price, violations[..n]), violations[n], price + Times(n, step), step);
    }
  }

  lemma RaisedLambda(p: LagrangianParams, before: real, violation: real, bound: real, step: real)
    requires p.minLambda <= p.maxLambda && step >= 0.0 && p.alpha * violation >= step
    requires before >= Min(p.maxLambda, bound)
    ensures NextLambda(p, before, violation) >= Min(p.maxLambda, bound + step)
  {
  }

  /** Epochs within the limit never raise the price above where it was, unless it was below its minimum. */
  lemma {:induction false} ThriftNeverRaisesLambda(p: LagrangianParams, price: real, violations: seq<real>)
    requires p.minLambda <= p.maxLambda && p.alpha > 0.0 && p.minLambda <= price
    requires forall i :: 0 <= i < |violations| ==> violations[i] <= 0.0
    ensures LambdaAfter(p, price, violations) <= price
  {
    if violations != [] {
      var n := |violations| - 1;
      ThriftNeverRaisesLambda(p, price, violations[..n]);
      ScaleLess(p.alpha, violations[n], 0.0);
    }
  }

  /** The controller's accumulated error after dt seconds of an error, within its anti-windup bounds. */
  function Accumulated(integral: real, error: real, dt: real): real {
    Clamp(integral + error * dt, -MAX_INTEGRAL, MAX_INTEGRAL)
  }

  /** What EB is multiplied with, given the error now and before. */
  function Multiplier(pid: PIDParams, error: real, prevError: real, integral: real, dt: real): real
    requires dt != 0.0
  {
    Clamp(1.0 + Output(pid, error, prevError, integral, dt), pid.minSubsidy, pid.maxSubsidy)
  }

  function Output(pid: PIDParams, error: real, prevError: real, integral: real, dt: real): real
    requires dt != 0.0
  {
    pid.kp * error + pid.ki * integral + pid.kd * ((error - prevError) / dt)
  }

  /** A controller at rest on its target pays the destination's average, if its bounds allow a factor of one. */
  lemma PIDAtRest(pid: PIDParams, EB: int, dt: real)
    requires dt > 0.0 && pid.minSubsidy <= 1.0 <= pid.maxSubsidy && EB >= 0
    ensures Truncated(EB as real * Multiplier(pid, 0.0, 0.0, Accumulated(0.0, 0.0, dt), dt)) == EB
  {
    assert Accumulated(0.0, 0.0, dt) == 0.0;
    assert pid.kp * 0.0 == 0.0 && pid.ki * 0.0 == 0.0 && pid.kd * (0.0 / dt) == 0.0;
  }

  class Mechanism {
    const mode: SubsidyMode
    const pid: PIDParams
    const lagrangian: LagrangianParams
    const customF: CustomF
    const maxInflation: int
    var integral: real
    var prevError: real
    var lambda: real
    var totalSubsidy: int

    constructor (mode: SubsidyMode, pid: PIDParams, lagrangian: LagrangianParams, customF: CustomF, maxInflation: int)
      ensures this.mode == mode && this.pid == pid && this.lagrangian == lagrangian && this.customF == customF
      ensures this.maxInflation == maxInflation && lambda == 1.0 && totalSubsidy == 0 && integral == prevError == 0.0
    {
      this.mode, this.pid, this.lagrangian, this.customF := mode, pid, lagrangian, customF;
      this.maxInflation := maxInflation;
      integral, prevError, lambda, totalSubsidy := 0.0, 0.0, 1.0, 0;
    }

    /**
     * One PID step after elapsed seconds. The integral stays within its anti-windup bounds and the subsidy is a
     * multiple of EB between the two configured multipliers, rounded down.
     */
    method CalcPIDSubsidy(queueLengthB: int, EB: int, elapsed: real) returns (r: int, ghost multiplier: real)
      modifies this`integral, this`prevError
      ensures prevError == Utilization(queueLengthB) - pid.targetUtilization
      ensures integral == Accumulated(old(integral), prevError, Seconds(elapsed))
      ensures -MAX_INTEGRAL <= integral <= MAX_INTEGRAL
      ensures multiplier == Multiplier(pid, prevError, old(prevError), integral, Seconds(elapsed))
      ensures r == Truncated(EB as real * multiplier)
      ensures pid.minSubsidy <= pid.maxSubsidy ==> pid.minSubsidy <= multiplier <= pid.maxSubsidy
    {
      var error := Utilization(queueLengthB) - pid.targetUtilization;
      var dt := Seconds(elapsed);
      integral := AntiWindup(integral + error * dt);
      var m := 1.0 + Output(pid, error, prevError, integral, dt);
      prevError := error;
      if m < pid.minSubsidy {
        m := pid.minSubsidy;
      }
      if m > pid.maxSubsidy {
        m := pid.maxSubsidy;
      }
      multiplier := m;
      r := Truncated(EB as real * m);
    }

    static method AntiWindup(x: real) returns (y: real)
      ensures y == Clamp(x, -MAX_INTEGRAL, MAX_INTEGRAL)
    {
      y := x;
      if y > MAX_INTEGRAL {
        y := MAX_INTEGRAL;
      } else if y < -MAX_INTEGRAL {
        y := -MAX_INTEGRAL;
      }
    }

    /** A clock that has not moved counts as one second. */
    static function Seconds(elapsed: real): real {
      if elapsed <= 0.0 then 1.0 else elapsed
    }

    function Utilization(queueLengthB: int): real {
      queueLengthB as real / if pid.capacityB > 0.0 then pid.capacityB else 1000.0
    }

    /** In Lagrangian mode there is a price to divide by. */
    predicate Priced(price: real) {
      mode == SubsidyLagrangian ==> EffectivePrice(price, lagrangian.minLambda) != 0.0
    }

    /** The subsidy in every mode; congestion stands for the power of the utilization that Lagrangian mode takes. */
    method CalculateRAB(EA: int, EB: int, queueLengthB: int, congestion: real, elapsed: real) returns (r: int)
      requires Priced(lambda)
      modifies this`integral, this`prevError
      ensures mode != SubsidyPID && mode != SubsidyLagrangian ==> r == RAB(mode, EA, EB, customF)
      ensures mode == SubsidyLagrangian ==> r == LagrangianSubsidy(EB, congestion, lambda, lagrangian.minLambda)
      ensures mode == SubsidyPID ==>
                && prevError == Utilization(queueLengthB) - pid.targetUtilization
                && integral == Accumulated(old(integral), prevError, Seconds(elapsed))
                && r == Truncated(EB as real * Multiplier(pid, prevError, old(prevError), integral, Seconds(elapsed)))
      ensures mode != SubsidyPID ==> integral == old(integral) && prevError == old(prevError)
      ensures mode == SubsidyPID || mode == SubsidyLagrangian ==> r >= 0
      ensures mode == SubsidyPID && EB >= 0 && pid.minSubsidy <= pid.maxSubsidy ==>
                Truncated(EB as real * pid.minSubsidy) <= r <= Truncated(EB as real * pid.maxSubsidy)
    {
      match mode
      case SubsidyPID =>
        ghost var m;
        r, m := CalcPIDSubsidy(queueLengthB, EB, elapsed);
        BetweenMultiples(EB, pid.minSubsidy, m, pid.maxSubsidy, r);
      case SubsidyLagrangian =>
        r := LagrangianSubsidy(EB, congestion, lambda, lagrangian.minLambda);
      case _ =>
        r := RAB(mode, EA, EB, customF);
    }

    method UpdateShadowPrice(totalSubsidyIssued: int, inflationLimit: int)
      modifies this`lambda, this`totalSubsidy
      ensures lambda == NextLambda(lagrangian, old(lambda), Violation(totalSubsidyIssued, inflationLimit))
      ensures totalSubsidy == totalSubsidyIssued
    {
      var normalized := Violation(totalSubsidyIssued, inflationLimit);
      var newLambda := lambda + lagrangian.alpha * normalized;
      if newLambda < lagrangian.minLambda {
        newLambda := lagrangian.minLambda;
      }
      if newLambda > lagrangian.maxLambda {
        newLambda := lagrangian.maxLambda;
      }
      lambda, totalSubsidy := newLambda, totalSubsidyIssued;
    }

    /** A new epoch starts with no subsidy issued; the shadow price carries over. */
    method ResetEpoch()
      modifies this`totalSubsidy
      ensures totalSubsidy == 0
    {
      totalSubsidy := 0;
    }
  }
}
