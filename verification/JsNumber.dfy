/**
 JavaScript numbers and the text `JSON.stringify` gives them.
 A finite number is kept as its shortest decimal: the value is
 0.d1d2...dk times ten to the power `point`, which is what Number::toString of
 ECMA-262 computes before it lays out the digits.
 */
module JsNumber {
  import opened JsText

  datatype Number =
    | Finite(negative: bool, digits: seq<Digit>, point: int)
    | NonFinite  // NaN and the infinities

  /** A shortest decimal has no superfluous zero at either end; zero is the digit 0 alone. */
  ghost predicate ValidNumber(x: Number) {
    x.Finite? ==>
      && |x.digits| > 0
      && (IsZero(x) || (x.digits[0] != 0 && x.digits[|x.digits| - 1] != 0))
  }

  predicate IsZero(x: Number) {
    x.Finite? && x.digits == [0] && x.point == 1
  }

  const ONE: Number := Finite(false, [1], 1)

  /** Minus zero prints as zero, so the two are one value for every reader of the text. */
  function DropMinusZero(x: Number): Number {
    if IsZero(x) then x.(negative := false) else x
  }

  // ---------------------------------------------------------------- printing

  function ExponentText(e: int): Text {
    (if e < 0 then [MINUS] else [PLUS]) + Decimal(if e < 0 then -e else e)
  }

  function MagnitudeText(digits: seq<Digit>, n: int): Text
    requires |digits| > 0
  {
    var k := |digits|;
    var t := DigitText(digits);
    if k <= n <= 21 then t + Zeros(n - k)
    else if 0 < n <= 21 then t[..n] + [DOT] + t[n..]
    else if -6 < n <= 0 then [ZERO, DOT] + Zeros(-n) + t
    else if k == 1 then t + [LOWER_E] + ExponentText(n - 1)
    else t[..1] + [DOT] + t[1..] + [LOWER_E] + ExponentText(n - 1)
  }

  /** Number::toString on a finite number. */
  function FiniteText(x: Number): Text
    requires x.Finite? && |x.digits| > 0
  {
    (if x.negative && !IsZero(x) then [MINUS] else []) + MagnitudeText(x.digits, x.point)
  }

  /** Scientific notation begins at 1e21 and below 1e-6; a dot is printed exactly for what is not whole otherwise. */
  lemma LayoutIff(digits: seq<Digit>, n: int)
    requires |digits| > 0
    ensures LOWER_E in MagnitudeText(digits, n) <==> n > 21 || n <= -6
    ensures -6 < n <= 21 ==> (DOT in MagnitudeText(digits, n) <==> |digits| > n)
  {
    var t := DigitText(digits);
    assert forall u <- t :: IsDigit(u);
    assert !IsDigit(LOWER_E) && !IsDigit(DOT);
    if -6 < n <= 21 && |digits| > n {
      assert MagnitudeText(digits, n)[if n > 0 then n else 1] == DOT;
    } else if n > 21 || n <= -6 {
      var m := if |digits| == 1 then t else t[..1] + [DOT] + t[1..];
      assert MagnitudeText(digits, n)[|m|] == LOWER_E;
    }
  }

  /** The units that can occur in the text of a number. */
  predicate IsNumberUnit(u: CodeUnit) {
    IsDigit(u) || u == PLUS || u == MINUS || u == DOT || u == LOWER_E
  }

  ghost predicate NumberUnits(t: Text) {
    forall i :: 0 <= i < |t| ==> IsNumberUnit(t[i])
  }

  lemma NumberUnitsConcat(a: Text, b: Text)
    requires NumberUnits(a) && NumberUnits(b)
    ensures NumberUnits(a + b)
  {
  }

  lemma MagnitudeUnits(digits: seq<Digit>, n: int)
    requires |digits| > 0
    ensures MagnitudeText(digits, n) != [] && NumberUnits(MagnitudeText(digits, n))
  {
    var t := DigitText(digits);
    if |digits| <= n <= 21 || 0 < n <= 21 || -6 < n <= 0 {
    } else {
      var m := if |digits| == 1 then t else t[..1] + [DOT] + t[1..];
      var e := if n - 1 < 0 then 1 - n else n - 1;
      assert forall u <- Decimal(e) :: IsDigit(u);
      NumberUnitsConcat(if n - 1 < 0 then [MINUS] else [PLUS], Decimal(e));
      NumberUnitsConcat(m, [LOWER_E]);
      NumberUnitsConcat(m + [LOWER_E], ExponentText(n - 1));
    }
  }

  lemma FiniteTextUnits(x: Number)
    requires x.Finite? && |x.digits| > 0
    ensures FiniteText(x) != [] && NumberUnits(FiniteText(x))
  {
    MagnitudeUnits(x.digits, x.point);
    NumberUnitsConcat(if x.negative && !IsZero(x) then [MINUS] else [], MagnitudeText(x.digits, x.point));
  }

  // ---------------------------------------------------------------- reading back

  /** How many zeros start the text. */
  function LeadingZeros(t: Text): (z: nat)
    ensures z <= |t|
    ensures z < |t| ==> t[z] != ZERO
    ensures forall i :: 0 <= i < z ==> t[i] == ZERO
  {
    if t == [] || t[0] != ZERO then 0 else 1 + LeadingZeros(t[1..])
  }

  /** Drops trailing zeros but keeps the first unit. */
  function DropTrailingZeros(t: Text): (r: Text)
    requires |t| > 0
    ensures 0 < |r| <= |t| && r == t[..|r|]
    ensures |r| == 1 || r[|r| - 1] != ZERO
    ensures forall i :: |r| <= i < |t| ==> t[i] == ZERO
  {
    if |t| > 1 && t[|t| - 1] == ZERO then DropTrailingZeros(t[..|t| - 1]) else t
  }

  function ReadExponent(t: Text): int {
    if |t| > 1 && (forall u <- t[1..] :: IsDigit(u)) then
      (if t[0] == MINUS then 0 - DecimalValue(t[1..]) else DecimalValue(t[1..]))
    else 0
  }

  function ReadMagnitude(t: Text): (Text, int)
    requires |t| > 0
  {
    var e := IndexOf(t, LOWER_E);
    var dot := IndexOf(t, DOT);
    if e < |t| then
      ((if e <= 1 then t[..e] else t[..1] + t[2..e]), ReadExponent(t[e + 1..]) + 1)
    else if dot < |t| then
      if t[..dot] == [ZERO] then
        var z := LeadingZeros(t[dot + 1..]);
        (t[dot + 1 + z..], 0 - z)
      else
        (t[..dot] + t[dot + 1..], dot)
    else
      (DropTrailingZeros(t), |t|)
  }

  function ReadNumber(t: Text): Number
    requires |t| > 0
  {
    if t[0] == MINUS && |t| > 1 then
      var (ds, n) := ReadMagnitude(t[1..]);
      Finite(true, DigitsOf(ds), n)
    else
      var (ds, n) := ReadMagnitude(t);
      Finite(false, DigitsOf(ds), n)
  }

  // ---------------------------------------------------------------- the round trip

  lemma ExponentRoundTrip(e: int)
    ensures ReadExponent(ExponentText(e)) == e
  {
    var n := if e < 0 then -e else e;
    DecimalRoundTrip(n);
    assert ExponentText(e)[1..] == Decimal(n);
  }

  lemma IntegerRoundTrip(digits: seq<Digit>, n: int)
    requires |digits| > 0 && |digits| <= n <= 21
    requires digits[|digits| - 1] != 0 || |digits| == 1
    ensures ReadMagnitude(MagnitudeText(digits, n)) == (DigitText(digits), n)
  {
    var t := DigitText(digits) + Zeros(n - |digits|);
    IndexOfAbsent(t, LOWER_E);
    IndexOfAbsent(t, DOT);
    var r := DropTrailingZeros(t);
    assert t[|digits| - 1] == ZERO + digits[|digits| - 1];
    assert |r| == |digits|;
    assert r == DigitText(digits);
  }

  lemma ReadFraction(a: Text, b: Text)
    requires DOT !in a && LOWER_E !in a && LOWER_E !in b
    requires a != [] && a != [ZERO]
    ensures ReadMagnitude(a + [DOT] + b) == (a + b, |a|)
  {
    IndexOfAbsent(a + [DOT] + b, LOWER_E);
    IndexOfSplit(a, DOT, b);
    SplitParts(a, DOT, b);
  }

  lemma NoMarks(d: Text, n: nat)
    requires n <= |d| && forall i :: 0 <= i < |d| ==> IsDigit(d[i])
    ensures DOT !in d[..n] && LOWER_E !in d[..n] && DOT !in d[n..] && LOWER_E !in d[n..]
  {
  }

  lemma FractionRoundTrip(digits: seq<Digit>, n: int)
    requires |digits| > 0 && 0 < n <= 21 && n < |digits|
    requires digits[0] != 0
    ensures ReadMagnitude(MagnitudeText(digits, n)) == (DigitText(digits), n)
  {
    var d := DigitText(digits);
    var a, b := d[..n], d[n..];
    NoMarks(d, n);
    assert a[0] == d[0] != ZERO;
    ReadFraction(a, b);
    assert a + b == d;
  }

  lemma SmallRoundTrip(digits: seq<Digit>, n: int)
    requires |digits| > 0 && -6 < n <= 0
    requires digits[0] != 0
    ensures ReadMagnitude(MagnitudeText(digits, n)) == (DigitText(digits), n)
  {
    var d := DigitText(digits);
    var t := MagnitudeText(digits, n);
    IndexOfAbsent(t, LOWER_E);
    assert t == [ZERO] + [DOT] + (Zeros(-n) + d);
    IndexOfSplit([ZERO], DOT, Zeros(-n) + d);
    assert t[..1] == [ZERO];
    assert t[2..] == Zeros(-n) + d;
    assert LeadingZeros(t[2..]) == -n by {
      assert t[2..][-n] == d[0];
    }
    assert t[2 - n..] == d;
  }

  lemma ReadExponentForm(m: Text, e: int)
    requires |m| > 0 && LOWER_E !in m
    ensures ReadMagnitude(m + [LOWER_E] + ExponentText(e))
         == ((if |m| == 1 then m else m[..1] + m[2..]), e + 1)
  {
    var x := ExponentText(e);
    var t := m + [LOWER_E] + x;
    ExponentRoundTrip(e);
    IndexOfSplit(m, LOWER_E, x);
    assert t[|m| + 1..] == x;
    assert t[..|m|] == m;
    if |m| > 1 {
      assert t[..1] == m[..1] && t[2..|m|] == m[2..];
    }
  }

  lemma ReadExponentSplit(a: Text, b: Text, e: int)
    requires |a| == 1 && LOWER_E !in a && LOWER_E !in b
    ensures ReadMagnitude(a + [DOT] + b + [LOWER_E] + ExponentText(e)) == (a + b, e + 1)
  {
    SplitParts(a, DOT, b);
    ReadExponentForm(a + [DOT] + b, e);
  }

  lemma ExponentFormRoundTrip(digits: seq<Digit>, n: int)
    requires |digits| > 0 && (n <= -6 || 21 < n)
    ensures ReadMagnitude(MagnitudeText(digits, n)) == (DigitText(digits), n)
  {
    var d := DigitText(digits);
    if |digits| == 1 {
      ReadExponentForm(d, n - 1);
    } else {
      var a, b := d[..1], d[1..];
      ReadExponentSplit(a, b, n - 1);
      assert a + b == d;
    }
  }

  /** The text of a finite number determines the number, minus zero aside. */
  lemma NumberRoundTrip(x: Number)
    requires x.Finite? && ValidNumber(x)
    ensures |FiniteText(x)| > 0
    ensures ReadNumber(FiniteText(x)) == DropMinusZero(x)
  {
    MagnitudeRoundTrip(x.digits, x.point);
    DigitsRoundTrip(x.digits);
    var m := MagnitudeText(x.digits, x.point);
    assert m != [] && m[0] != MINUS;
    if x.negative && !IsZero(x) {
      ConsParts(MINUS, m);
    } else {
      assert FiniteText(x) == m;
    }
  }

  lemma MagnitudeRoundTrip(digits: seq<Digit>, n: int)
    requires ValidNumber(Finite(false, digits, n))
    ensures MagnitudeText(digits, n) != []
    ensures ReadMagnitude(MagnitudeText(digits, n)) == (DigitText(digits), n)
  {
    if |digits| <= n <= 21 {
      IntegerRoundTrip(digits, n);
    } else if 0 < n <= 21 {
      FractionRoundTrip(digits, n);
    } else if -6 < n <= 0 {
      SmallRoundTrip(digits, n);
    } else {
      ExponentFormRoundTrip(digits, n);
    }
  }
}
