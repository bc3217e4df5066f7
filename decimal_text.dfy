/** The text form of decimals: new BigDecimal(String) for the CSV fields and
    BigDecimal.toString() for the scale-2 values the normalizer writes. */
module DecimalText {
  import opened Decimals

  datatype Option<+T> = None | Some(value: T)

  function Pow10(k: nat): (p: nat)
    ensures p >= 1
  {
    if k == 0 then 1 else 10 * Pow10(k - 1)
  }

  predicate IsDigit(c: char) {
    '0' <= c <= '9'
  }

  predicate AllDigits(s: string) {
    forall i :: 0 <= i < |s| ==> IsDigit(s[i])
  }

  function DigitValue(c: char): (d: nat)
    requires IsDigit(c)
    ensures d < 10
  {
    c as int - '0' as int
  }

  function DigitChar(d: nat): (c: char)
    requires d < 10
    ensures IsDigit(c) && DigitValue(c) == d
  {
    ('0' as int + d) as char
  }

  /** The decimal numeral of n, without leading zeros. */
  function Digits(n: nat): (s: string)
    ensures |s| >= 1 && AllDigits(s)
  {
    if n < 10 then [DigitChar(n)] else Digits(n / 10) + [DigitChar(n % 10)]
  }

  /** The value of a string of decimal digits, read left to right. */
  function DigitsValue(s: string): nat
    requires AllDigits(s)
  {
    if s == [] then 0 else DigitsValue(s[..|s| - 1]) * 10 + DigitValue(s[|s| - 1])
  }

  /** BigDecimal.toString() of a decimal of scale 2: an optional minus sign,
      the integer part, a point and exactly two fraction digits. */
  function ToString(x: real): (s: string)
    requires HasScale2(x)
    ensures |s| > 0 && ',' !in s
  {
    SignedText(Unscaled2(x))
  }

  /** The text of the scale-2 decimal with unscaled value u. */
  function SignedText(u: int): (s: string)
    ensures |s| > 0 && ',' !in s
  {
    (if u < 0 then "-" else "") + UnsignedText(if u < 0 then -u else u)
  }

  /** The text of unscaled value a >= 0 at scale 2. */
  function UnsignedText(a: nat): (s: string)
    ensures |s| > 0 && IsDigit(s[0])
    ensures forall i :: 0 <= i < |s| ==> IsDigit(s[i]) || s[i] == '.'
  {
    Digits(a / 100) + "." + [DigitChar(a / 10 % 10), DigitChar(a % 10)]
  }

  /** new BigDecimal(String): an optional sign, then a significand of
      digits with at most one decimal point and at least one digit, then an
      optional exponent; None where Java throws NumberFormatException. An
      empty field is not a decimal, and a field of digits with an optional
      sign is the integer they spell. */
  function ParseDecimal(s: string): (r: Option<real>)
    ensures s == [] ==> r.None?
    ensures s != [] && AllDigits(s) ==> r == Some(DigitsValue(s) as real)
    ensures |s| > 1 && s[0] == '-' && AllDigits(s[1..]) ==> r == Some(-(DigitsValue(s[1..]) as real))
    ensures |s| > 1 && s[0] == '+' && AllDigits(s[1..]) ==> r == Some(DigitsValue(s[1..]) as real)
  {
    if |s| > 0 && (s[0] == '+' || s[0] == '-') then
      IntegerText(s[1..]);
      match ParseUnsigned(s[1..])
      case None => None
      case Some(v) => Some(if s[0] == '-' then -v else v)
    else
      IntegerText(s);
      ParseUnsigned(s)
  }

  /** A non-empty run of digits reads as the integer it spells. */
  lemma IntegerText(w: string)
    ensures w != [] && AllDigits(w) ==> ParseUnsigned(w) == Some(DigitsValue(w) as real)
  {
    if w != [] && AllDigits(w) {
      ScanIntegerPart(w, []);
      assert w + [] == w;
    }
  }

  /** The text after the sign, read one character at a time. */
  function ParseUnsigned(s: string): Option<real> {
    Scan(s, 0, 0, None)
  }

  /** Reads the rest s of a significand of which `digits` digits have been
      read, as the integer `unscaled`; `scale` counts the digits read after
      the decimal point, once there has been one. */
  function Scan(s: string, unscaled: nat, digits: nat, scale: Option<nat>): Option<real> {
    if s == [] then
      if digits == 0 then None else Some(Scaled(unscaled, scale))
    else if IsDigit(s[0]) then
      Scan(s[1..], unscaled * 10 + DigitValue(s[0]), digits + 1, if scale.Some? then Some(scale.value + 1) else None)
    else if s[0] == '.' && scale.None? then
      Scan(s[1..], unscaled, digits, Some(0))
    else if (s[0] == 'e' || s[0] == 'E') && digits > 0 then
      match ParseExponent(s[1..])
      case None => None
      case Some(x) => Some(ScaleByPowerOfTen(Scaled(unscaled, scale), x))
    else
      None
  }

  /** The value of an unscaled integer at a scale: unscaled / 10^scale. */
  function Scaled(unscaled: nat, scale: Option<nat>): real {
    if scale.None? then unscaled as real else unscaled as real / Pow10(scale.value) as real
  }

  /** m * 10^x. */
  function ScaleByPowerOfTen(m: real, x: int): real {
    if x >= 0 then m * Pow10(x) as real else m / Pow10(-x) as real
  }

  /** An optionally signed, non-empty string of digits. */
  function ParseExponent(s: string): Option<int> {
    var digits := if |s| > 0 && (s[0] == '+' || s[0] == '-') then s[1..] else s;
    if |digits| > 0 && AllDigits(digits) then
      Some(if |s| > 0 && s[0] == '-' then -(DigitsValue(digits) as int) else DigitsValue(digits))
    else
      None
  }

  // ---------------------------------------------------------------- lemmas

  /** Reading back a numeral gives the number. */
  lemma {:induction false} DigitsRoundTrip(n: nat)
    ensures DigitsValue(Digits(n)) == n
  {
    if n >= 10 {
      DigitsRoundTrip(n / 10);
      var s := Digits(n);
      assert s[..|s| - 1] == Digits(n / 10);
    }
  }

  /** Reading the integer digits w, then the rest. */
  lemma {:induction false} ScanIntegerPart(w: string, rest: string)
    requires AllDigits(w)
    ensures Scan(w + rest, 0, 0, None) == Scan(rest, DigitsValue(w), |w|, None)
  {
    if w == [] {
      assert w + rest == rest;
    } else {
      var init, c := w[..|w| - 1], w[|w| - 1];
      ScanIntegerPart(init, [c] + rest);
      assert init + ([c] + rest) == w + rest;
      assert ([c] + rest)[1..] == rest;
    }
  }

  /** The text of a >= 0 at scale 2 reads back as a / 100. */
  lemma UnsignedTextRoundTrip(a: nat)
    ensures ParseUnsigned(UnsignedText(a)) == Some(a as real / 100.0)
  {
    var q := Digits(a / 100);
    var d1, d0 := DigitChar(a / 10 % 10), DigitChar(a % 10);
    assert UnsignedText(a) == q + ("." + [d1, d0]);
    ScanIntegerPart(q, "." + [d1, d0]);
    DigitsRoundTrip(a / 100);
    ScanTwoPlaces(a / 100, |q|, d1, d0);
    assert a / 10 == a / 100 * 10 + a / 10 % 10 && a == a / 10 * 10 + a % 10;
  }

  /** Reading a point and two digits after an integer part. */
  lemma ScanTwoPlaces(unscaled: nat, digits: nat, d1: char, d0: char)
    requires IsDigit(d1) && IsDigit(d0)
    ensures Scan("." + [d1, d0], unscaled, digits, None) ==
            Some(((unscaled * 10 + DigitValue(d1)) * 10 + DigitValue(d0)) as real / 100.0)
  {
    var u1 := unscaled * 10 + DigitValue(d1);
    var u2 := u1 * 10 + DigitValue(d0);
    assert ("." + [d1, d0])[1..] == [d1, d0] && [d1, d0][1..] == [d0] && [d0][1..] == [];
    assert Scan("." + [d1, d0], unscaled, digits, None) == Scan([d1, d0], unscaled, digits, Some(0));
    assert Scan([d1, d0], unscaled, digits, Some(0)) == Scan([d0], u1, digits + 1, Some(1));
    assert Scan([d0], u1, digits + 1, Some(1)) == Scan([], u2, digits + 2, Some(2));
    assert Pow10(2) == 100;
  }

  lemma SignedTextRoundTrip(u: int)
    ensures ParseDecimal(SignedText(u)) == Some(u as real / 100.0)
  {
    if u < 0 {
      NegativeTextRoundTrip(u);
    } else {
      PositiveTextRoundTrip(u);
    }
  }

  lemma NegativeTextRoundTrip(u: int)
    requires u < 0
    ensures ParseDecimal(SignedText(u)) == Some(u as real / 100.0)
  {
    var t := UnsignedText(-u);
    UnsignedTextRoundTrip(-u);
    var s := SignedText(u);
    assert s == "-" + t;
    assert s[0] == '-' && s[1..] == t;
  }

  lemma PositiveTextRoundTrip(u: int)
    requires u >= 0
    ensures ParseDecimal(SignedText(u)) == Some(u as real / 100.0)
  {
    var t := UnsignedText(u);
    UnsignedTextRoundTrip(u);
    assert SignedText(u) == t;
    assert !(t[0] == '+' || t[0] == '-');
  }

  /** Idempotence of formatting: the text the normalizer writes for a scale-2
      value parses back as a BigDecimal to exactly that value. */
  lemma ToStringRoundTrip(x: real)
    requires HasScale2(x)
    ensures ParseDecimal(ToString(x)) == Some(x)
  {
    var u := Unscaled2(x);
    ToStringIsSignedText(x);
    SignedTextRoundTrip(u);
    assert ToString(x) == SignedText(u);
  }

  lemma ToStringIsSignedText(x: real)
    requires HasScale2(x)
    ensures ToString(x) == SignedText(Unscaled2(x))
    ensures Unscaled2(x) as real / 100.0 == x
  {
  }

  /** Re-parsing a written value and rescaling it to two places reproduces the same text. */
  lemma ReformatIsIdentity(x: real)
    requires HasScale2(x)
    ensures ParseDecimal(ToString(x)).Some?
    ensures SetScale2(ParseDecimal(ToString(x)).value) == x
    ensures ToString(SetScale2(ParseDecimal(ToString(x)).value)) == ToString(x)
  {
    ToStringRoundTrip(x);
    SetScale2OfScaled(x);
  }

  /** Fields that are not decimals: an empty field, a lone sign, a lone
      point, two points, and a missing exponent. */
  lemma MalformedFields()
    ensures ParseDecimal("") == None && ParseDecimal("-") == None && ParseDecimal(".") == None
    ensures ParseDecimal("1.2.3") == None && ParseDecimal("1e") == None
  {
    assert "-"[1..] == [];
    assert "."[1..] == [];
    assert "1.2.3"[1..] == ".2.3" && ".2.3"[1..] == "2.3" && "2.3"[1..] == ".3";
    assert "1e"[1..] == "e" && "e"[1..] == [];
  }

  /** An exponent scales the significand: "-1.5E2" is -150 and "25e-1" is 2.5. */
  lemma ExponentFields()
    ensures ParseDecimal("-1.5E2") == Some(-150.0)
    ensures ParseDecimal("25e-1") == Some(2.5)
  {
    PositiveExponentField();
    NegativeExponentField();
  }

  /** "-1.5E2" is -150. */
  lemma PositiveExponentField()
    ensures ParseDecimal("-1.5E2") == Some(-150.0)
  {
    assert "-1.5E2"[1..] == "1.5E2" && "1.5E2"[1..] == ".5E2" && ".5E2"[1..] == "5E2";
    assert "5E2"[1..] == "E2" && "E2"[1..] == "2";
    assert ParseExponent("2") == Some(2) by { assert "2"[..0] == []; }
    assert Pow10(2) == 100;
  }

  /** "25e-1" is 2.5. */
  lemma NegativeExponentField()
    ensures ParseDecimal("25e-1") == Some(2.5)
  {
    assert "25e-1"[1..] == "5e-1" && "5e-1"[1..] == "e-1" && "e-1"[1..] == "-1" && "-1"[1..] == "1";
    assert ParseExponent("-1") == Some(-1) by { assert "1"[..0] == []; }
    assert Scan("e-1", 25, 2, None) == Some(2.5) by { assert Pow10(1) == 10; }
    assert Scan("25e-1", 0, 0, None) == Scan("e-1", 25, 2, None);
  }
}
