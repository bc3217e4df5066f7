/** The static helpers of NormalizerImpl: the two-place rescale and the two
    normalisation formulas. */
module Normalizer {
  import opened Exceptions
  import opened Decimals

  /** convertToRequiredScale: two decimal places, HALF_EVEN. */
  function ConvertToRequiredScale(number: real): (r: real)
    ensures HasScale2(r)
    ensures IsHalfEvenRounding(Unscaled2(r), number * 100.0)
  {
    SetScale2(number)
  }

  /** normalizeMinMax: (number - min) / (max - min), divided at scale 2 and
      rescaled; a division by zero when max == min. */
  function NormalizeMinMax(number: real, minInList: real, maxInList: real): (r: Result<real>)
    ensures r.Thrown? <==> maxInList == minInList
    ensures r.Thrown? ==> r.exception == ArithmeticException
    ensures r.Ok? ==> HasScale2(r.value)
    ensures r.Ok? ==> IsHalfEvenRounding(Unscaled2(r.value),
                        (number - minInList) / (maxInList - minInList) * 100.0)
  {
    var q :- DivideToScale2(number - minInList, maxInList - minInList);
    SetScale2Idempotent((number - minInList) / (maxInList - minInList));
    Ok(ConvertToRequiredScale(q))
  }

  /** normalizeZScore: (number - mean) / sd, divided at scale 2 and rescaled;
      a division by zero when sd == 0. */
  function NormalizeZScore(number: real, mean: real, sd: real): (r: Result<real>)
    ensures r.Thrown? <==> sd == 0.0
    ensures r.Thrown? ==> r.exception == ArithmeticException
    ensures r.Ok? ==> HasScale2(r.value)
    ensures r.Ok? ==> IsHalfEvenRounding(Unscaled2(r.value), (number - mean) / sd * 100.0)
  {
    var score :- DivideToScale2(number - mean, sd);
    SetScale2Idempotent((number - mean) / sd);
    Ok(ConvertToRequiredScale(score))
  }

  // ---------------------------------------------------------------- min-max

  /** The minimum of the group maps to 0.00. */
  lemma MinMaxOfMinimum(minInList: real, maxInList: real)
    requires minInList != maxInList
    ensures NormalizeMinMax(minInList, minInList, maxInList) == Ok(0.0)
  {
    assert (minInList - minInList) / (maxInList - minInList) == 0.0;
    SetScale2OfInteger(0.0);
  }

  /** The maximum of the group maps to 1.00. */
  lemma MinMaxOfMaximum(minInList: real, maxInList: real)
    requires minInList != maxInList
    ensures NormalizeMinMax(maxInList, minInList, maxInList) == Ok(1.0)
  {
    assert (maxInList - minInList) / (maxInList - minInList) == 1.0;
    SetScale2OfInteger(1.0);
  }

  /** Inside [min, max] the result stays inside [0, 1]. */
  lemma MinMaxInUnitInterval(number: real, minInList: real, maxInList: real)
    requires minInList <= number <= maxInList && minInList < maxInList
    ensures NormalizeMinMax(number, minInList, maxInList).Ok?
    ensures 0.0 <= NormalizeMinMax(number, minInList, maxInList).value <= 1.0
  {
    var q := (number - minInList) / (maxInList - minInList);
    QuotientInUnitInterval(number - minInList, maxInList - minInList);
    SetScale2Monotonic(0.0, q);
    SetScale2Monotonic(q, 1.0);
    SetScale2OfInteger(0.0);
    SetScale2OfInteger(1.0);
    SetScale2Idempotent(q);
  }

  lemma QuotientInUnitInterval(a: real, b: real)
    requires 0.0 <= a <= b && b > 0.0
    ensures 0.0 <= a / b <= 1.0
  {
  }

  /** Min-max scaling preserves the order of the values. */
  lemma MinMaxMonotonic(x1: real, x2: real, minInList: real, maxInList: real)
    requires x1 <= x2 && minInList < maxInList
    ensures NormalizeMinMax(x1, minInList, maxInList).value
         <= NormalizeMinMax(x2, minInList, maxInList).value
  {
    var d := maxInList - minInList;
    assert (x1 - minInList) / d <= (x2 - minInList) / d;
    SetScale2Monotonic((x1 - minInList) / d, (x2 - minInList) / d);
    SetScale2Idempotent((x1 - minInList) / d);
    SetScale2Idempotent((x2 - minInList) / d);
  }

  /** The result is already at scale 2: rescaling it again changes nothing. */
  lemma MinMaxRescaleIdempotent(number: real, minInList: real, maxInList: real)
    requires minInList != maxInList
    ensures ConvertToRequiredScale(NormalizeMinMax(number, minInList, maxInList).value)
         == NormalizeMinMax(number, minInList, maxInList).value
  {
    SetScale2OfScaled(NormalizeMinMax(number, minInList, maxInList).value);
  }

  // ---------------------------------------------------------------- z-score

  /** The mean maps to 0.00. */
  lemma ZScoreOfMean(mean: real, sd: real)
    requires sd != 0.0
    ensures NormalizeZScore(mean, mean, sd) == Ok(0.0)
  {
    assert (mean - mean) / sd == 0.0;
    SetScale2OfInteger(0.0);
  }

  /** With a positive deviation the score has the sign of number - mean. */
  lemma ZScoreSign(number: real, mean: real, sd: real)
    requires sd > 0.0
    ensures number >= mean ==> NormalizeZScore(number, mean, sd).value >= 0.0
    ensures number <= mean ==> NormalizeZScore(number, mean, sd).value <= 0.0
  {
    var q := (number - mean) / sd;
    assert number >= mean ==> q >= 0.0;
    assert number <= mean ==> q <= 0.0;
    SetScale2OfInteger(0.0);
    SetScale2Idempotent(q);
    if number >= mean {
      SetScale2Monotonic(0.0, q);
    }
    if number <= mean {
      SetScale2Monotonic(q, 0.0);
    }
  }

  /** Values equally far above and below the mean get opposite scores. */
  lemma ZScoreAntisymmetric(mean: real, distance: real, sd: real)
    requires sd != 0.0
    ensures NormalizeZScore(mean + distance, mean, sd).value
         == -NormalizeZScore(mean - distance, mean, sd).value
  {
    var q := distance / sd;
    assert (mean + distance - mean) / sd == q;
    assert (mean - distance - mean) / sd == -q;
    RoundHalfEvenNegate(q * 100.0);
    assert -q * 100.0 == -(q * 100.0);
    SetScale2Idempotent(q);
    SetScale2Idempotent(-q);
  }
}
