/** NormalizerImpl.BigDecimalUtils: the statistics over a list of decimals.
    MATH_CTX has precision 0, which java.math reads as unlimited precision, so
    the squares in the variance and the halving in the median are exact; the
    only roundings are the scale-0 divisions of mean and variance. */
module BigDecimalUtils {
  import opened Exceptions
  import opened Decimals
  import opened Normalizer

  // ---------------------------------------------------------------- sum

  /** The exact sum, folded left to right. */
  function SumOf(numbers: seq<real>): real {
    if numbers == [] then 0.0 else SumOf(numbers[..|numbers| - 1]) + numbers[|numbers| - 1]
  }

  /** sum: starts at BigDecimal.ZERO and adds every number in list order. */
  method Sum(numbers: seq<real>) returns (sum: real)
    ensures sum == SumOf(numbers)
  {
    sum := 0.0;
    for i := 0 to |numbers|
      invariant sum == SumOf(numbers[..i])
    {
      assert numbers[..i + 1][..i] == numbers[..i];
      sum := sum + numbers[i];
    }
    assert numbers[..|numbers|] == numbers;
  }

  /** A sum of n numbers in [lo, hi] lies in [n * lo, n * hi]. */
  lemma {:induction false} SumBounds(numbers: seq<real>, lo: real, hi: real)
    requires forall i :: 0 <= i < |numbers| ==> lo <= numbers[i] <= hi
    ensures |numbers| as real * lo <= SumOf(numbers) <= |numbers| as real * hi
  {
    if numbers != [] {
      var n := |numbers|;
      SumBounds(numbers[..n - 1], lo, hi);
      assert (n - 1) as real * lo + lo == n as real * lo;
      assert (n - 1) as real * hi + hi == n as real * hi;
    }
  }

  /** A sum of non-negative numbers is non-negative. */
  lemma {:induction false} SumNonNegative(numbers: seq<real>)
    requires forall i :: 0 <= i < |numbers| ==> numbers[i] >= 0.0
    ensures SumOf(numbers) >= 0.0
  {
    if numbers != [] {
      SumNonNegative(numbers[..|numbers| - 1]);
    }
  }

  // ---------------------------------------------------------------- mean

  /** mean: the sum divided by the count at scale 0, HALF_EVEN; for an empty
      list this divides by zero. */
  function Mean(numbers: seq<real>): (r: Result<real>)
    ensures r.Thrown? <==> numbers == []
    ensures r.Thrown? ==> r.exception == ArithmeticException
    ensures r.Ok? ==> IsInteger(r.value)
    ensures r.Ok? ==> IsHalfEvenRounding(r.value.Floor, SumOf(numbers) / |numbers| as real)
  {
    DivideToScale0(SumOf(numbers), |numbers| as real)
  }

  // ---------------------------------------------------------------- min, max

  /** min: new TreeSet<>(numbers).first(); an empty set has no first element. */
  function Min(numbers: seq<real>): (r: Result<real>)
    ensures r.Thrown? <==> numbers == []
    ensures r.Thrown? ==> r.exception == NoSuchElementException
    ensures r.Ok? ==> r.value in numbers && forall x :: x in numbers ==> r.value <= x
  {
    if numbers == [] then Thrown(NoSuchElementException)
    else if |numbers| == 1 then Ok(numbers[0])
    else
      var rest := Min(numbers[1..]);
      assert numbers == [numbers[0]] + numbers[1..];
      Ok(if numbers[0] <= rest.value then numbers[0] else rest.value)
  }

  /** max: new TreeSet<>(numbers).last(); an empty set has no last element. */
  function Max(numbers: seq<real>): (r: Result<real>)
    ensures r.Thrown? <==> numbers == []
    ensures r.Thrown? ==> r.exception == NoSuchElementException
    ensures r.Ok? ==> r.value in numbers && forall x :: x in numbers ==> x <= r.value
  {
    if numbers == [] then Thrown(NoSuchElementException)
    else if |numbers| == 1 then Ok(numbers[0])
    else
      var rest := Max(numbers[1..]);
      assert numbers == [numbers[0]] + numbers[1..];
      Ok(if numbers[0] >= rest.value then numbers[0] else rest.value)
  }

  /** The mean lies between the minimum and the maximum, each rounded to an
      integer the way the mean itself is. */
  lemma MeanBetweenRoundedMinMax(numbers: seq<real>)
    requires numbers != []
    ensures SetScale0(Min(numbers).value) <= Mean(numbers).value <= SetScale0(Max(numbers).value)
  {
    var n := |numbers|;
    var lo, hi := Min(numbers).value, Max(numbers).value;
    forall i | 0 <= i < n ensures lo <= numbers[i] <= hi {
      assert numbers[i] in numbers;
    }
    SumBounds(numbers, lo, hi);
    var avg := SumOf(numbers) / n as real;
    AverageBounds(SumOf(numbers), n as real, lo, hi);
    SetScale0Monotonic(lo, avg);
    SetScale0Monotonic(avg, hi);
  }

  lemma AverageBounds(sum: real, n: real, lo: real, hi: real)
    requires n > 0.0 && n * lo <= sum <= n * hi
    ensures lo <= sum / n <= hi
  {
    var q := sum / n;
    assert sum == n * q;
    assert n * (q - lo) >= 0.0 && n * (hi - q) >= 0.0;
  }

  /** The mean is not bounded by the minimum itself: it is rounded to an
      integer first, so {0.1, 0.2} has mean 0 and minimum 0.1. */
  lemma MeanCanFallBelowMinimum()
    ensures Mean([0.1, 0.2]) == Ok(0.0)
    ensures Min([0.1, 0.2]) == Ok(0.1)
  {
    assert [0.1, 0.2][..1] == [0.1];
    assert [0.1][..0] == [];
    assert SumOf([0.1, 0.2]) == 0.3;
    assert RoundHalfEven(0.15) == 0;
  }

  // ---------------------------------------------------------------- sorting

  predicate Sorted(s: seq<real>) {
    forall i, j :: 0 <= i < j < |s| ==> s[i] <= s[j]
  }

  function InsertSorted(x: real, s: seq<real>): (r: seq<real>)
    requires Sorted(s)
    ensures Sorted(r) && multiset(r) == multiset(s) + multiset{x}
  {
    if s == [] || x <= s[0] then
      SortedCons(x, s);
      [x] + s
    else
      var rest := InsertSorted(x, s[1..]);
      assert s == [s[0]] + s[1..];
      forall y | y in multiset(rest) ensures s[0] <= y {
        assert y in multiset(s[1..]) || y == x;
      }
      SortedCons(s[0], rest);
      [s[0]] + rest
  }

  /** Putting a lower bound in front of a sorted list keeps it sorted. */
  lemma SortedCons(h: real, t: seq<real>)
    requires Sorted(t)
    requires forall y :: y in multiset(t) ==> h <= y
    ensures Sorted([h] + t)
  {
    forall j | 0 <= j < |t| ensures h <= t[j] {
      assert t[j] in multiset(t);
    }
  }

  /** Collections.sort: the ascending permutation of s. */
  function Sort(s: seq<real>): (r: seq<real>)
    ensures Sorted(r) && multiset(r) == multiset(s)
  {
    if s == [] then []
    else
      assert s == [s[0]] + s[1..];
      InsertSorted(s[0], Sort(s[1..]))
  }

  /** A sorted permutation is unique. */
  lemma {:induction false} SortedUnique(a: seq<real>, b: seq<real>)
    requires Sorted(a) && Sorted(b) && multiset(a) == multiset(b)
    ensures a == b
  {
    if a == [] {
      assert |b| == |multiset(b)| == 0;
    } else {
      assert |b| == |multiset(b)| == |a|;
      SortedHeadIsLeast(a, b[0]);
      SortedHeadIsLeast(b, a[0]);
      RemoveHead(a, b);
      SortedUnique(a[1..], b[1..]);
    }
  }

  lemma SortedHeadIsLeast(s: seq<real>, x: real)
    requires Sorted(s) && x in multiset(s)
    ensures s[0] <= x
  {
    assert x in s;
  }

  lemma RemoveHead(a: seq<real>, b: seq<real>)
    requires a != [] && b != [] && a[0] == b[0] && multiset(a) == multiset(b)
    ensures multiset(a[1..]) == multiset(b[1..])
  {
    assert a == [a[0]] + a[1..] && b == [b[0]] + b[1..];
    assert multiset(a) == multiset{a[0]} + multiset(a[1..]);
    assert multiset(b) == multiset{b[0]} + multiset(b[1..]);
    assert multiset(a[1..]) == multiset(a) - multiset{a[0]};
    assert multiset(b[1..]) == multiset(b) - multiset{b[0]};
  }

  /** Collections.sort on a list: an in-place insertion sort. */
  method SortInPlace(a: array<real>)
    modifies a
    ensures Sorted(a[..]) && multiset(a[..]) == multiset(old(a[..]))
  {
    var i := 1;
    while i < a.Length
      invariant 1 <= i || a.Length == 0
      invariant i <= a.Length || a.Length == 0
      invariant forall k, l :: 0 <= k < l < i && l < a.Length ==> a[k] <= a[l]
      invariant multiset(a[..]) == multiset(old(a[..]))
    {
      var j := i;
      while j > 0 && a[j - 1] > a[j]
        invariant 0 <= j <= i < a.Length
        invariant forall k, l :: 0 <= k < l <= i && l != j ==> a[k] <= a[l]
        invariant multiset(a[..]) == multiset(old(a[..]))
      {
        a[j - 1], a[j] := a[j], a[j - 1];
        j := j - 1;
      }
      i := i + 1;
    }
  }

  // ---------------------------------------------------------------- median

  /** median: after sorting, the middle element when the count is odd, the
      exact average of the two middle elements when it is even, rescaled to
      two places; an empty list reads index -1. */
  function MedianOf(numbers: seq<real>): (r: Result<real>)
    ensures r.Thrown? <==> numbers == []
    ensures r.Thrown? ==> r.exception == IndexOutOfBoundsException
    ensures r.Ok? ==> HasScale2(r.value)
  {
    MedianOfSorted(Sort(numbers))
  }

  /** The middle of a list that is already sorted. */
  function MedianOfSorted(sorted: seq<real>): (r: Result<real>)
    ensures r.Thrown? <==> sorted == []
    ensures r.Thrown? ==> r.exception == IndexOutOfBoundsException
    ensures r.Ok? ==> HasScale2(r.value)
  {
    var n := |sorted|;
    if n % 2 == 1 then Ok(ConvertToRequiredScale(sorted[(n + 1) / 2 - 1]))
    else if n == 0 then Thrown(IndexOutOfBoundsException)
    else Ok(ConvertToRequiredScale((sorted[n / 2 - 1] + sorted[n / 2]) / 2.0))
  }

  /** median sorts its argument in place, then reads the middle of it. */
  method Median(numbers: array<real>) returns (r: Result<real>)
    modifies numbers
    ensures Sorted(numbers[..]) && multiset(numbers[..]) == multiset(old(numbers[..]))
    ensures numbers[..] == Sort(old(numbers[..]))
    ensures r == MedianOf(old(numbers[..]))
  {
    SortInPlace(numbers);
    SortedUnique(numbers[..], Sort(old(numbers[..])));
    MedianPermutationInvariant(numbers[..], old(numbers[..]));
    r := Middle(numbers);
  }

  /** The reads median performs once the list is sorted: on a sorted array
      they give the median of its contents. */
  method Middle(numbers: array<real>) returns (r: Result<real>)
    requires Sorted(numbers[..])
    ensures r == MedianOf(numbers[..])
  {
    ghost var contents := numbers[..];
    SortedMedian(contents);
    var n := numbers.Length;
    if n % 2 == 1 {
      r := Ok(ConvertToRequiredScale(numbers[(n + 1) / 2 - 1]));
      assert numbers[(n + 1) / 2 - 1] == contents[(n + 1) / 2 - 1];
    } else if n / 2 - 1 < 0 {
      r := Thrown(IndexOutOfBoundsException);
    } else {
      var lower := numbers[n / 2 - 1];
      var upper := numbers[n / 2];
      assert lower == contents[n / 2 - 1] && upper == contents[n / 2];
      r := Ok(ConvertToRequiredScale((lower + upper) / 2.0));
    }
  }

  /** Sorting a sorted list changes nothing, so its median is read from it
      directly. */
  lemma SortedMedian(s: seq<real>)
    requires Sorted(s)
    ensures MedianOf(s) == MedianOfSorted(s)
  {
    SortedUnique(s, Sort(s));
  }

  /** The median does not depend on the order of the list, so sorting it in
      place does not change the median. */
  lemma MedianPermutationInvariant(s: seq<real>, t: seq<real>)
    requires multiset(s) == multiset(t)
    ensures MedianOf(s) == MedianOf(t)
  {
    SortedUnique(Sort(s), Sort(t));
  }

  /** The median lies between the minimum and the maximum, all three rescaled
      to two places. */
  lemma MedianBetweenMinMax(numbers: seq<real>)
    requires numbers != []
    ensures ConvertToRequiredScale(Min(numbers).value) <= MedianOf(numbers).value
    ensures MedianOf(numbers).value <= ConvertToRequiredScale(Max(numbers).value)
  {
    var lo, hi := Min(numbers).value, Max(numbers).value;
    var sorted := Sort(numbers);
    forall k | 0 <= k < |sorted| ensures lo <= sorted[k] <= hi {
      assert sorted[k] in multiset(sorted);
      assert sorted[k] in numbers;
    }
    var m := MiddleValue(sorted, lo, hi);
    SetScale2Monotonic(lo, m);
    SetScale2Monotonic(m, hi);
  }

  /** The unrounded middle of a sorted list whose elements lie in [lo, hi]. */
  lemma MiddleValue(sorted: seq<real>, lo: real, hi: real) returns (m: real)
    requires sorted != []
    requires forall k :: 0 <= k < |sorted| ==> lo <= sorted[k] <= hi
    ensures lo <= m <= hi
    ensures MedianOfSorted(sorted) == Ok(ConvertToRequiredScale(m))
  {
    var n := |sorted|;
    if n % 2 == 1 {
      m := sorted[(n + 1) / 2 - 1];
    } else {
      m := (sorted[n / 2 - 1] + sorted[n / 2]) / 2.0;
    }
  }

  // ---------------------------------------------------------------- variance

  /** (x - mean)^2, exact. */
  function SquaredDistance(x: real, mean: real): real {
    (x - mean) * (x - mean)
  }

  /** The squared differences from the mean, in the order of the numbers. */
  function Squares(numbers: seq<real>, mean: real): (r: seq<real>)
    ensures |r| == |numbers|
    ensures forall i :: 0 <= i < |r| ==> r[i] == SquaredDistance(numbers[i], mean)
  {
    seq(|numbers|, i requires 0 <= i < |numbers| => SquaredDistance(numbers[i], mean))
  }

  /** populationVariance: NaN (which BigDecimal.valueOf rejects) for an empty
      list, 0 for one number, otherwise the sum of the squared differences
      from the integer mean divided by the count at scale 0. */
  function PopulationVarianceOf(numbers: seq<real>): (r: Result<real>)
    ensures r.Thrown? <==> numbers == []
    ensures r.Thrown? ==> r.exception == NumberFormatException
    ensures r.Ok? ==> IsInteger(r.value) && r.value >= 0.0
  {
    var n := |numbers|;
    if n == 0 then Thrown(NumberFormatException)
    else if n == 1 then Ok(0.0)
    else
      var squares := Squares(numbers, Mean(numbers).value);
      SumNonNegative(squares);
      SetScale0Monotonic(0.0, SumOf(squares) / n as real);
      DivideToScale0(SumOf(squares), n as real)
  }

  /** populationVariance, building the list of squares in a loop. */
  method PopulationVariance(numbers: seq<real>) returns (r: Result<real>)
    ensures r == PopulationVarianceOf(numbers)
  {
    var n := |numbers|;
    if n == 0 {
      return Thrown(NumberFormatException);
    } else if n == 1 {
      return Ok(0.0);
    }
    var mean := Mean(numbers).value;
    var squares: seq<real> := [];
    for i := 0 to n
      invariant |squares| == i
      invariant forall j :: 0 <= j < i ==> squares[j] == (numbers[j] - mean) * (numbers[j] - mean)
    {
      var xMinMean := numbers[i] - mean;
      squares := squares + [xMinMean * xMinMean];
    }
    ghost var expected := Squares(numbers, mean);
    assert forall j :: 0 <= j < n ==> squares[j] == expected[j];
    assert squares == expected;
    var sum := Sum(squares);
    r := DivideToScale0(sum, n as real);
  }

  /** A single number has variance 0. */
  lemma VarianceOfOne(x: real)
    ensures PopulationVarianceOf([x]) == Ok(0.0)
  {
  }

  /** A constant list has variance 0: every difference from the rounded mean
      is at most one half, so the average square is at most one quarter. */
  lemma VarianceOfConstant(numbers: seq<real>)
    requires numbers != []
    requires forall i :: 0 <= i < |numbers| ==> numbers[i] == numbers[0]
    ensures PopulationVarianceOf(numbers) == Ok(0.0)
  {
    var n := |numbers|;
    if n > 1 {
      var mean := MeanOfConstant(numbers);
      var squares := Squares(numbers, mean);
      var avg := AverageSquareOfConstant(numbers, mean);
      var r := DivideToScale0(SumOf(squares), n as real).value;
      HalfEvenRoundingUnique(r.Floor, 0, avg);
    }
  }

  /** The rounded mean of a constant list is within one half of the constant. */
  lemma MeanOfConstant(numbers: seq<real>) returns (mean: real)
    requires numbers != []
    requires forall i :: 0 <= i < |numbers| ==> numbers[i] == numbers[0]
    ensures mean == Mean(numbers).value
    ensures -0.5 <= numbers[0] - mean <= 0.5
  {
    var c := numbers[0];
    SumBounds(numbers, c, c);
    AverageBounds(SumOf(numbers), |numbers| as real, c, c);
    mean := Mean(numbers).value;
  }

  /** The average square difference of a constant list from a value within
      one half of it rounds to zero. */
  lemma AverageSquareOfConstant(numbers: seq<real>, mean: real) returns (avg: real)
    requires numbers != []
    requires forall i :: 0 <= i < |numbers| ==> numbers[i] == numbers[0]
    requires -0.5 <= numbers[0] - mean <= 0.5
    ensures avg == SumOf(Squares(numbers, mean)) / |numbers| as real
    ensures IsHalfEvenRounding(0, avg)
  {
    var d := numbers[0] - mean;
    SquareAtMostQuarter(d);
    var squares := Squares(numbers, mean);
    SumBounds(squares, d * d, d * d);
    AverageBounds(SumOf(squares), |numbers| as real, d * d, d * d);
    avg := SumOf(squares) / |numbers| as real;
  }

  lemma SquareAtMostQuarter(d: real)
    requires -0.5 <= d <= 0.5
    ensures 0.0 <= d * d <= 0.25
  {
    if d >= 0.0 {
      assert d * d <= 0.5 * d;
    } else {
      assert d * d <= -0.5 * d;
    }
  }

  /** The least decimal whose doubleValue() is Infinity: the point halfway
      between Double.MAX_VALUE (2^1024 - 2^971) and 2^1024, which rounds up. */
  const DoubleOverflow: real := 179769313486231580793728971405303415079934132710037826936173778980444968292764750946649017977587207096330286416692887910946555547851940402630657488671505820681908902000708383676273854845817711531764475730270069855571366959622842914819860834936475292719074168444365510704342711559699508093042880177904174497792.0

  /** standardDeviation: NaN (rejected by BigDecimal.valueOf) for an empty
      list, 0 for one number, otherwise the binary square root of the
      variance, given here as fpSqrt. A variance beyond the double range
      becomes Infinity, whose square root BigDecimal.valueOf rejects too. */
  function StandardDeviation(numbers: seq<real>, fpSqrt: real -> real): (r: Result<real>)
    ensures r.Thrown? <==> numbers == [] || (|numbers| > 1 && PopulationVarianceOf(numbers).value >= DoubleOverflow)
    ensures r.Thrown? ==> r.exception == NumberFormatException
    ensures |numbers| == 1 ==> r == Ok(0.0)
    ensures |numbers| > 1 && PopulationVarianceOf(numbers).value < DoubleOverflow ==>
              r == Ok(fpSqrt(PopulationVarianceOf(numbers).value))
  {
    var n := |numbers|;
    if n > 0 then
      if n > 1 then
        var variance := PopulationVarianceOf(numbers).value;
        if variance >= DoubleOverflow then Thrown(NumberFormatException) else Ok(fpSqrt(variance))
      else
        Ok(0.0)
    else
      Thrown(NumberFormatException)
  }

  /** 10^200, a value whose square is beyond the double range. */
  const Huge: real := 100000000000000000000000000000000000000000000000000000000000000000000000000000000000000000000000000000000000000000000000000000000000000000000000000000000000000000000000000000000000000000000000000000000.0

  /** For Huge and -Huge the mean is 0 and the variance Huge^2 = 10^400,
      which doubleValue() turns into Infinity: the standard deviation throws
      although the list is not empty. */
  lemma DeviationCanOverflow(fpSqrt: real -> real)
    ensures PopulationVarianceOf([Huge, -Huge]) == Ok(Huge * Huge)
    ensures Huge * Huge >= DoubleOverflow
    ensures StandardDeviation([Huge, -Huge], fpSqrt) == Thrown(NumberFormatException)
  {
    var numbers := [Huge, -Huge];
    assert numbers[..1] == [Huge] && [Huge][..0] == [];
    assert SumOf([Huge]) == Huge;
    assert SumOf(numbers) == 0.0;
    RoundHalfEvenOfInteger(0);
    assert Mean(numbers) == Ok(0.0);
    var square := Huge * Huge;
    var squares := Squares(numbers, 0.0);
    assert squares == [square, square];
    assert squares[..1] == [square] && [square][..0] == [];
    assert SumOf([square]) == square;
    assert SumOf(squares) == 2.0 * square;
    var k := square.Floor;
    assert k as real == square;
    RoundHalfEvenOfInteger(k);
  }

  // ---------------------------------------------------------------- order

  /** The sum of two lists one after the other. */
  lemma {:induction false} SumOfConcat(a: seq<real>, b: seq<real>)
    ensures SumOf(a + b) == SumOf(a) + SumOf(b)
  {
    if b == [] {
      assert a + b == a;
    } else {
      SumOfConcat(a, b[..|b| - 1]);
      assert (a + b)[..|a + b| - 1] == a + b[..|b| - 1];
      assert (a + b)[|a + b| - 1] == b[|b| - 1];
    }
  }

  /** An occurrence of x in t, and t split around it. */
  lemma Occurrence(t: seq<real>, x: real) returns (i: nat)
    requires x in multiset(t)
    ensures i < |t| && t[i] == x
    ensures t == t[..i] + [x] + t[i + 1..]
    ensures multiset(t[..i] + t[i + 1..]) == multiset(t) - multiset{x}
  {
    assert x in t;
    var j :| 0 <= j < |t| && t[j] == x;
    i := j;
    assert t == t[..i] + [x] + t[i + 1..];
  }

  /** The sum does not depend on the order of the numbers. */
  lemma {:induction false} SumOfPermutation(s: seq<real>, t: seq<real>)
    requires multiset(s) == multiset(t)
    ensures SumOf(s) == SumOf(t)
    decreases |s|
  {
    if s == [] {
      assert |t| == |multiset(t)| == 0;
    } else {
      var n := |s|;
      var x := s[n - 1];
      assert s == s[..n - 1] + [x];
      assert multiset(s[..n - 1]) == multiset(s) - multiset{x};
      var i := Occurrence(t, x);
      SumOfPermutation(s[..n - 1], t[..i] + t[i + 1..]);
      SumOfConcat(t[..i] + [x], t[i + 1..]);
      SumOfConcat(t[..i], t[i + 1..]);
      assert SumOf(t[..i] + [x]) == SumOf(t[..i]) + x by {
        assert (t[..i] + [x])[..i] == t[..i];
      }
    }
  }

  /** The squares of a concatenation are the squares of each part. */
  lemma SquaresConcat(a: seq<real>, b: seq<real>, mean: real)
    ensures Squares(a + b, mean) == Squares(a, mean) + Squares(b, mean)
  {
    var l, r := Squares(a + b, mean), Squares(a, mean) + Squares(b, mean);
    forall i | 0 <= i < |l| ensures l[i] == r[i] {
      if i < |a| {
        assert (a + b)[i] == a[i];
      } else {
        assert (a + b)[i] == b[i - |a|];
      }
    }
  }

  /** Reordering the numbers reorders their squares. */
  lemma {:induction false} SquaresPermutation(s: seq<real>, t: seq<real>, mean: real)
    requires multiset(s) == multiset(t)
    ensures multiset(Squares(s, mean)) == multiset(Squares(t, mean))
    decreases |s|
  {
    if s == [] {
      assert |t| == |multiset(t)| == 0;
    } else {
      var n := |s|;
      var x := s[n - 1];
      assert s == s[..n - 1] + [x];
      assert multiset(s[..n - 1]) == multiset(s) - multiset{x};
      var i := Occurrence(t, x);
      SquaresPermutation(s[..n - 1], t[..i] + t[i + 1..], mean);
      SquaresConcat(s[..n - 1], [x], mean);
      SquaresConcat(t[..i] + [x], t[i + 1..], mean);
      SquaresConcat(t[..i], [x], mean);
      SquaresConcat(t[..i], t[i + 1..], mean);
    }
  }

  /** Reordering the list, as the in-place sort of median does, changes no
      statistic: sum, mean, min, max, median, variance and standard
      deviation are the same. */
  lemma StatisticsPermutationInvariant(s: seq<real>, t: seq<real>, fpSqrt: real -> real)
    requires multiset(s) == multiset(t)
    ensures SumOf(s) == SumOf(t) && Mean(s) == Mean(t)
    ensures Min(s) == Min(t) && Max(s) == Max(t)
    ensures MedianOf(s) == MedianOf(t)
    ensures PopulationVarianceOf(s) == PopulationVarianceOf(t)
    ensures StandardDeviation(s, fpSqrt) == StandardDeviation(t, fpSqrt)
  {
    MeanPermutationInvariant(s, t);
    BoundsPermutationInvariant(s, t);
    MedianPermutationInvariant(s, t);
    VariancePermutationInvariant(s, t);
  }

  lemma MeanPermutationInvariant(s: seq<real>, t: seq<real>)
    requires multiset(s) == multiset(t)
    ensures |s| == |t| && SumOf(s) == SumOf(t) && Mean(s) == Mean(t)
  {
    assert |s| == |multiset(s)| == |multiset(t)| == |t|;
    SumOfPermutation(s, t);
  }

  lemma BoundsPermutationInvariant(s: seq<real>, t: seq<real>)
    requires multiset(s) == multiset(t)
    ensures Min(s) == Min(t) && Max(s) == Max(t)
  {
    if s != [] {
      assert |s| == |multiset(s)| == |multiset(t)| == |t|;
      var lo, lo' := Min(s).value, Min(t).value;
      assert lo in multiset(t) && lo' in multiset(s);
      assert lo in t && lo' in s;
      assert lo' <= lo && lo <= lo';
      var hi, hi' := Max(s).value, Max(t).value;
      assert hi in multiset(t) && hi' in multiset(s);
      assert hi in t && hi' in s;
      assert hi <= hi' && hi' <= hi;
    } else {
      assert |t| == |multiset(t)| == 0;
    }
  }

  lemma VariancePermutationInvariant(s: seq<real>, t: seq<real>)
    requires multiset(s) == multiset(t)
    ensures PopulationVarianceOf(s) == PopulationVarianceOf(t)
  {
    MeanPermutationInvariant(s, t);
    if |s| > 1 {
      var mean := Mean(s).value;
      SquaresPermutation(s, t, mean);
      SumOfPermutation(Squares(s, mean), Squares(t, mean));
    }
  }
}
