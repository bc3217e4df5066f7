/** Exact decimal arithmetic as java.math.BigDecimal performs it, with values
    held as Dafny reals and rounding mode HALF_EVEN. The source rounds at two
    scales only: 0 (the statistics' divisions) and 2 (everything it reports). */
module Decimals {
  import opened Exceptions

  predicate IsInteger(y: real) {
    y.Floor as real == y
  }

  /** n is the integer nearest to y; when y lies exactly halfway, n is even. */
  predicate IsHalfEvenRounding(n: int, y: real) {
    var d := y - n as real;
    -0.5 <= d <= 0.5 && ((d == 0.5 || d == -0.5) ==> n % 2 == 0)
  }

  /** RoundingMode.HALF_EVEN applied at the units digit. */
  function RoundHalfEven(y: real): (n: int)
    ensures IsHalfEvenRounding(n, y)
  {
    var f := y.Floor;
    var d := y - f as real;
    if d < 0.5 then f
    else if d > 0.5 then f + 1
    else if f % 2 == 0 then f else f + 1
  }

  /** x has at most two digits after the decimal point. */
  predicate HasScale2(x: real) {
    IsInteger(x * 100.0)
  }

  /** The unscaled value of a scale-2 decimal. */
  function Unscaled2(x: real): int {
    (x * 100.0).Floor
  }

  /** setScale(0, HALF_EVEN): the integer nearest to x, ties to even. */
  function SetScale0(x: real): (r: real)
    ensures IsInteger(r) && IsHalfEvenRounding(r.Floor, x)
  {
    RoundHalfEven(x) as real
  }

  /** setScale(2, HALF_EVEN): the hundredth nearest to x, ties to even
      (the unscaled value is even). */
  function SetScale2(x: real): (r: real)
    ensures HasScale2(r) && IsHalfEvenRounding(Unscaled2(r), x * 100.0)
  {
    RoundHalfEven(x * 100.0) as real / 100.0
  }

  /** divide(divisor, 0, HALF_EVEN). */
  function DivideToScale0(dividend: real, divisor: real): (r: Result<real>)
    ensures r.Thrown? <==> divisor == 0.0
    ensures r.Thrown? ==> r.exception == ArithmeticException
    ensures r.Ok? ==> r.value == SetScale0(dividend / divisor)
  {
    if divisor == 0.0 then Thrown(ArithmeticException) else Ok(SetScale0(dividend / divisor))
  }

  /** divide(divisor, 2, HALF_EVEN). */
  function DivideToScale2(dividend: real, divisor: real): (r: Result<real>)
    ensures r.Thrown? <==> divisor == 0.0
    ensures r.Thrown? ==> r.exception == ArithmeticException
    ensures r.Ok? ==> r.value == SetScale2(dividend / divisor)
  {
    if divisor == 0.0 then Thrown(ArithmeticException) else Ok(SetScale2(dividend / divisor))
  }

  // ---------------------------------------------------------------- lemmas

  /** There is only one half-even rounding of y. */
  lemma HalfEvenRoundingUnique(n: int, m: int, y: real)
    requires IsHalfEvenRounding(n, y) && IsHalfEvenRounding(m, y)
    ensures n == m
  {
  }

  /** An integer rounds to itself. */
  lemma RoundHalfEvenOfInteger(n: int)
    ensures RoundHalfEven(n as real) == n
  {
    HalfEvenRoundingUnique(RoundHalfEven(n as real), n, n as real);
  }

  /** Rounding preserves order. */
  lemma RoundHalfEvenMonotonic(y1: real, y2: real)
    requires y1 <= y2
    ensures RoundHalfEven(y1) <= RoundHalfEven(y2)
  {
  }

  /** HALF_EVEN is symmetric about zero. */
  lemma RoundHalfEvenNegate(y: real)
    ensures RoundHalfEven(-y) == -RoundHalfEven(y)
  {
    var n := RoundHalfEven(y);
    assert IsHalfEvenRounding(-n, -y);
    HalfEvenRoundingUnique(RoundHalfEven(-y), -n, -y);
  }

  /** SetScale2 is the only scale-2 half-even rounding of x. */
  lemma SetScale2Unique(x: real, r: real)
    requires HasScale2(r) && IsHalfEvenRounding(Unscaled2(r), x * 100.0)
    ensures r == SetScale2(x)
  {
    HalfEvenRoundingUnique(Unscaled2(r), Unscaled2(SetScale2(x)), x * 100.0);
  }

  /** A value already at scale 2 is left unchanged by SetScale2. */
  lemma SetScale2OfScaled(x: real)
    requires HasScale2(x)
    ensures SetScale2(x) == x
  {
    RoundHalfEvenOfInteger(Unscaled2(x));
  }

  /** Rescaling to two places is idempotent. */
  lemma SetScale2Idempotent(x: real)
    ensures SetScale2(SetScale2(x)) == SetScale2(x)
  {
    SetScale2OfScaled(SetScale2(x));
  }

  /** Rescaling preserves order. */
  lemma SetScale2Monotonic(x1: real, x2: real)
    requires x1 <= x2
    ensures SetScale2(x1) <= SetScale2(x2)
  {
    RoundHalfEvenMonotonic(x1 * 100.0, x2 * 100.0);
  }

  /** Integers (in particular every scale-0 result) are unchanged by SetScale2. */
  lemma SetScale2OfInteger(x: real)
    requires IsInteger(x)
    ensures SetScale2(x) == x
  {
    var n := x.Floor;
    assert x * 100.0 == (n * 100) as real;
    RoundHalfEvenOfInteger(n * 100);
  }

  /** Rounding to an integer preserves order. */
  lemma SetScale0Monotonic(x1: real, x2: real)
    requires x1 <= x2
    ensures SetScale0(x1) <= SetScale0(x2)
  {
    RoundHalfEvenMonotonic(x1, x2);
  }
}
