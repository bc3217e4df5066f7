/** The ScoringSummary that getScoringSummary returns: an object over the list
    of column values whose accessors each run one BigDecimalUtils statistic
    when called and rescale the answer to two decimal places. */
module Scoring {
  import opened Exceptions
  import opened Decimals
  import opened Normalizer
  import Utils = BigDecimalUtils

  /** The summary keeps the list it was built from; nothing is computed until
      an accessor is called, so an accessor on an empty list throws only when
      it is called. */
  datatype ScoringSummary = ScoringSummary(numbers: seq<real>) {

    /** mean(): the integer mean, which rescaling leaves unchanged. */
    function Mean(): (r: Result<real>)
      ensures r.Thrown? <==> numbers == []
      ensures r.Thrown? ==> r.exception == ArithmeticException
      ensures r.Ok? ==> HasScale2(r.value) && IsInteger(r.value)
      ensures r.Ok? ==> r.value == Utils.Mean(numbers).value
    {
      var m :- Utils.Mean(numbers);
      SetScale2OfInteger(m);
      Ok(ConvertToRequiredScale(m))
    }

    /** standardDeviation(): 0.00 for one value, the rescaled square root of
        the variance for more; fpSqrt stands for the double square root. It
        throws for an empty list and for a variance beyond the double range. */
    function StandardDeviation(fpSqrt: real -> real): (r: Result<real>)
      ensures r.Thrown? <==>
                numbers == [] || (|numbers| > 1 && Utils.PopulationVarianceOf(numbers).value >= Utils.DoubleOverflow)
      ensures r.Thrown? ==> r.exception == NumberFormatException
      ensures |numbers| == 1 ==> r == Ok(0.0)
      ensures r.Ok? ==> HasScale2(r.value)
      ensures r.Ok? ==> r.value == ConvertToRequiredScale(Utils.StandardDeviation(numbers, fpSqrt).value)
    {
      var sd :- Utils.StandardDeviation(numbers, fpSqrt);
      SetScale2OfInteger(0.0);
      Ok(ConvertToRequiredScale(sd))
    }

    /** variance(): the integer population variance, unchanged by rescaling. */
    function Variance(): (r: Result<real>)
      ensures r.Thrown? <==> numbers == []
      ensures r.Thrown? ==> r.exception == NumberFormatException
      ensures r.Ok? ==> HasScale2(r.value) && IsInteger(r.value) && r.value >= 0.0
      ensures r.Ok? ==> r.value == Utils.PopulationVarianceOf(numbers).value
    {
      var v :- Utils.PopulationVarianceOf(numbers);
      SetScale2OfInteger(v);
      Ok(ConvertToRequiredScale(v))
    }

    /** median(): already at two places, so rescaling changes nothing. */
    function Median(): (r: Result<real>)
      ensures r == Utils.MedianOf(numbers)
      ensures r.Thrown? <==> numbers == []
      ensures r.Ok? ==> HasScale2(r.value)
    {
      var m :- Utils.MedianOf(numbers);
      SetScale2Idempotent(m);
      Ok(ConvertToRequiredScale(m))
    }

    /** min(): the smallest value, rounded to two places; no rounded value
        of the list is smaller. */
    function Min(): (r: Result<real>)
      ensures r.Thrown? <==> numbers == []
      ensures r.Thrown? ==> r.exception == NoSuchElementException
      ensures r.Ok? ==> HasScale2(r.value)
      ensures r.Ok? ==> exists k :: 0 <= k < |numbers| && r.value == ConvertToRequiredScale(numbers[k])
      ensures r.Ok? ==> forall k :: 0 <= k < |numbers| ==> r.value <= ConvertToRequiredScale(numbers[k])
    {
      var m :- Utils.Min(numbers);
      RoundedBelow(numbers, m);
      Ok(ConvertToRequiredScale(m))
    }

    /** max(): the largest value, rounded to two places; no rounded value of
        the list is larger. */
    function Max(): (r: Result<real>)
      ensures r.Thrown? <==> numbers == []
      ensures r.Thrown? ==> r.exception == NoSuchElementException
      ensures r.Ok? ==> HasScale2(r.value)
      ensures r.Ok? ==> exists k :: 0 <= k < |numbers| && r.value == ConvertToRequiredScale(numbers[k])
      ensures r.Ok? ==> forall k :: 0 <= k < |numbers| ==> ConvertToRequiredScale(numbers[k]) <= r.value
    {
      var m :- Utils.Max(numbers);
      RoundedAbove(numbers, m);
      Ok(ConvertToRequiredScale(m))
    }
  }

  /** Rounding keeps a lower bound that is one of the values. */
  lemma RoundedBelow(numbers: seq<real>, m: real)
    requires m in numbers
    requires forall x :: x in numbers ==> m <= x
    ensures forall k :: 0 <= k < |numbers| ==> SetScale2(m) <= SetScale2(numbers[k])
    ensures exists k :: 0 <= k < |numbers| && SetScale2(m) == SetScale2(numbers[k])
  {
    forall k | 0 <= k < |numbers| ensures SetScale2(m) <= SetScale2(numbers[k]) {
      assert numbers[k] in numbers;
      SetScale2Monotonic(m, numbers[k]);
    }
    var k :| 0 <= k < |numbers| && numbers[k] == m;
  }

  /** Rounding keeps an upper bound that is one of the values. */
  lemma RoundedAbove(numbers: seq<real>, m: real)
    requires m in numbers
    requires forall x :: x in numbers ==> x <= m
    ensures forall k :: 0 <= k < |numbers| ==> SetScale2(numbers[k]) <= SetScale2(m)
    ensures exists k :: 0 <= k < |numbers| && SetScale2(m) == SetScale2(numbers[k])
  {
    forall k | 0 <= k < |numbers| ensures SetScale2(numbers[k]) <= SetScale2(m) {
      assert numbers[k] in numbers;
      SetScale2Monotonic(numbers[k], m);
    }
    var k :| 0 <= k < |numbers| && numbers[k] == m;
  }

  // ---------------------------------------------------------------- lemmas

  /** On a non-empty list every accessor but standardDeviation succeeds, and
      min <= median <= max. */
  lemma SummaryOrder(summary: ScoringSummary)
    requires summary.numbers != []
    ensures summary.Min().Ok? && summary.Median().Ok? && summary.Max().Ok?
    ensures summary.Min().value <= summary.Median().value <= summary.Max().value
  {
    Utils.MedianBetweenMinMax(summary.numbers);
  }

  /** A summary of one value: min, max and median are that value rounded,
      and variance and standard deviation are zero. */
  lemma SingleValueSummary(x: real, fpSqrt: real -> real)
    ensures ScoringSummary([x]).Min() == Ok(ConvertToRequiredScale(x))
    ensures ScoringSummary([x]).Max() == Ok(ConvertToRequiredScale(x))
    ensures ScoringSummary([x]).Median() == Ok(ConvertToRequiredScale(x))
    ensures ScoringSummary([x]).Variance() == Ok(0.0)
    ensures ScoringSummary([x]).StandardDeviation(fpSqrt) == Ok(0.0)
  {
    Utils.VarianceOfOne(x);
    SetScale2OfInteger(0.0);
  }

  /** A list of equal values has standard deviation zero, provided the
      square root of zero is zero. */
  lemma ConstantListHasNoDeviation(numbers: seq<real>, fpSqrt: real -> real)
    requires numbers != []
    requires forall i :: 0 <= i < |numbers| ==> numbers[i] == numbers[0]
    requires fpSqrt(0.0) == 0.0
    ensures ScoringSummary(numbers).Variance() == Ok(0.0)
    ensures ScoringSummary(numbers).StandardDeviation(fpSqrt) == Ok(0.0)
  {
    Utils.VarianceOfConstant(numbers);
    SetScale2OfInteger(0.0);
  }

  /** The values 10, 20, 30: the squared differences from the mean 20 add up
      to 200, and 200 / 3 is rounded to the integer 67 before the two-place
      rescale. */
  lemma SummaryOfTenTwentyThirty()
    ensures ScoringSummary([10.0, 20.0, 30.0]).Mean() == Ok(20.0)
    ensures ScoringSummary([10.0, 20.0, 30.0]).Variance() == Ok(67.0)
  {
    var numbers := [10.0, 20.0, 30.0];
    assert numbers[..2][..1] == [10.0] && numbers[..2] == [10.0, 20.0];
    assert Utils.SumOf([10.0]) == 10.0 by { assert [10.0][..0] == []; }
    assert Utils.SumOf(numbers) == 60.0;
    RoundHalfEvenOfInteger(20);
    assert Utils.Mean(numbers) == Ok(20.0);
    var squares := Utils.Squares(numbers, 20.0);
    assert squares == [100.0, 0.0, 100.0];
    assert squares[..2][..1] == [100.0] && squares[..2] == [100.0, 0.0];
    assert Utils.SumOf([100.0]) == 100.0 by { assert [100.0][..0] == []; }
    assert Utils.SumOf(squares) == 200.0;
    assert IsHalfEvenRounding(67, 200.0 / 3.0);
    HalfEvenRoundingUnique(RoundHalfEven(200.0 / 3.0), 67, 200.0 / 3.0);
    SetScale2OfInteger(67.0);
    SetScale2OfInteger(20.0);
  }

  /** median() sorts the list the summary holds in place; every accessor
      gives the same result on the reordered list. */
  lemma SummaryPermutationInvariant(s: seq<real>, t: seq<real>, fpSqrt: real -> real)
    requires multiset(s) == multiset(t)
    ensures ScoringSummary(s).Mean() == ScoringSummary(t).Mean()
    ensures ScoringSummary(s).StandardDeviation(fpSqrt) == ScoringSummary(t).StandardDeviation(fpSqrt)
    ensures ScoringSummary(s).Variance() == ScoringSummary(t).Variance()
    ensures ScoringSummary(s).Median() == ScoringSummary(t).Median()
    ensures ScoringSummary(s).Min() == ScoringSummary(t).Min()
    ensures ScoringSummary(s).Max() == ScoringSummary(t).Max()
  {
    Utils.StatisticsPermutationInvariant(s, t, fpSqrt);
  }
}
