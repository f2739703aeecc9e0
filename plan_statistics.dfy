/** The plan-level arithmetic of the engine: the percentage variance of an
    average from its target (`calculateVariance`) and the daily averages of a
    weekly plan. */
module PlanStatistics {
  import opened Seqs

  const PercentMultiplier: real := 100.0

  /** Signed percentage by which `actual` misses `target`; 0 for a zero target. */
  function CalculateVariance(actual: real, target: real): (v: real)
    ensures target == 0.0 ==> v == 0.0
  {
    if target == 0.0 then 0.0 else ((actual - target) / target) * PercentMultiplier
  }

  /** The variance determines the actual value back from the target. */
  lemma VarianceRoundTrip(actual: real, target: real)
    requires target != 0.0
    ensures target + target * CalculateVariance(actual, target) / 100.0 == actual
  {
    var q := (actual - target) / target;
    assert target * q == actual - target;
    assert target * (q * 100.0) / 100.0 == target * q;
  }

  /** For a positive target the sign of the variance says whether the
      actual value is over, on or under target. */
  lemma VarianceSign(actual: real, target: real)
    requires target > 0.0
    ensures CalculateVariance(actual, target) > 0.0 <==> actual > target
    ensures CalculateVariance(actual, target) == 0.0 <==> actual == target
    ensures CalculateVariance(actual, target) < 0.0 <==> actual < target
  {
    var q := (actual - target) / target;
    assert target * q == actual - target;
    assert q > 0.0 <==> actual - target > 0.0;
    assert q < 0.0 <==> actual - target < 0.0;
  }

  /** For a positive target a larger actual value never has a smaller variance. */
  lemma VarianceMonotone(a: real, b: real, target: real)
    requires target > 0.0 && a <= b
    ensures CalculateVariance(a, target) <= CalculateVariance(b, target)
  {
    var qa := (a - target) / target;
    var qb := (b - target) / target;
    assert target * qa == a - target && target * qb == b - target;
    assert target * (qb - qa) == b - a;
  }

  /** The variance reported for a plan's daily average lies between the
      variances of its lowest and its highest day. */
  lemma MeanVarianceBetween(xs: seq<real>, target: real, lo: real, hi: real)
    requires target > 0.0 && |xs| > 0
    requires forall i :: 0 <= i < |xs| ==> lo <= xs[i] <= hi
    ensures CalculateVariance(lo, target) <= CalculateVariance(Mean(xs), target) <= CalculateVariance(hi, target)
  {
    MeanBounds(xs, lo, hi);
    VarianceMonotone(lo, Mean(xs), target);
    VarianceMonotone(Mean(xs), hi, target);
  }

  /** A plan whose every day meets the target exactly reports zero variance. */
  lemma OnTargetDaysZeroVariance(xs: seq<real>, target: real)
    requires |xs| > 0
    requires forall i :: 0 <= i < |xs| ==> xs[i] == target
    ensures CalculateVariance(Mean(xs), target) == 0.0
  {
    MeanOfConstant(xs, target);
  }
}
