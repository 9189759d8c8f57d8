/**
 Strings as the JavaScript runtime sees them: sequences of UTF-16 code units.
 The module holds the code-unit order used by `Array.prototype.sort`, decimal
 numerals and small search helpers.
 */
module JsText {

  type CodeUnit = u: int | 0 <= u < 0x10000

  type Text = seq<CodeUnit>

  const QUOTE: CodeUnit := 0x22
  const PLUS: CodeUnit := 0x2B
  const COMMA: CodeUnit := 0x2C
  const MINUS: CodeUnit := 0x2D
  const DOT: CodeUnit := 0x2E
  const ZERO: CodeUnit := 0x30
  const COLON: CodeUnit := 0x3A
  const OPEN_BRACKET: CodeUnit := 0x5B
  const BACKSLASH: CodeUnit := 0x5C
  const CLOSE_BRACKET: CodeUnit := 0x5D
  const LOWER_E: CodeUnit := 0x65
  const LOWER_F: CodeUnit := 0x66
  const LOWER_N: CodeUnit := 0x6E
  const LOWER_T: CodeUnit := 0x74
  const LOWER_U: CodeUnit := 0x75
  const OPEN_BRACE: CodeUnit := 0x7B
  const CLOSE_BRACE: CodeUnit := 0x7D

  // ---------------------------------------------------------------- taking texts apart

  lemma ConsParts(u: CodeUnit, t: Text)
    ensures ([u] + t)[0] == u && ([u] + t)[1..] == t
  {
  }

  lemma ConcatParts(a: Text, b: Text)
    ensures (a + b)[..|a|] == a && (a + b)[|a|..] == b
  {
  }

  lemma Regroup(a: Text, b: Text, c: Text)
    ensures a + b + c == a + (b + c)
  {
  }

  lemma Regroup4(a: Text, b: Text, c: Text, d: Text)
    ensures a + b + c + d == a + (b + (c + d))
  {
  }

  lemma SplitParts(a: Text, u: CodeUnit, b: Text)
    ensures (a + [u] + b)[..|a|] == a && (a + [u] + b)[|a| + 1..] == b
  {
  }

  // ---------------------------------------------------------------- code-unit order

  /** Lexicographic comparison by code units: the default order of `sort()` on strings. */
  predicate AtMost(a: Text, b: Text) {
    a == [] || (b != [] && (a[0] < b[0] || (a[0] == b[0] && AtMost(a[1..], b[1..]))))
  }

  /** The first place where two texts differ, and which is smaller there. */
  ghost predicate SmallerAt(a: Text, b: Text, k: nat) {
    k < |a| && k < |b| && a[k] < b[k] && forall i :: 0 <= i < k ==> a[i] == b[i]
  }

  /** A text is at most another exactly when it starts it, or is smaller at the first difference. */
  lemma {:induction false} AtMostIff(a: Text, b: Text)
    ensures AtMost(a, b) <==> a <= b || exists k: nat :: SmallerAt(a, b, k)
  {
    if a != [] && b != [] {
      if a[0] == b[0] {
        AtMostIff(a[1..], b[1..]);
        assert a <= b <==> a[1..] <= b[1..] by {
          assert a == [a[0]] + a[1..] && b == [b[0]] + b[1..];
        }
        if k: nat :| SmallerAt(a[1..], b[1..], k) { assert SmallerAt(a, b, k + 1); }
        if k: nat :| SmallerAt(a, b, k) { assert SmallerAt(a[1..], b[1..], k - 1); }
      } else if a[0] < b[0] {
        assert SmallerAt(a, b, 0);
      }
    }
  }

  lemma {:induction false} AtMostTotal(a: Text, b: Text)
    ensures AtMost(a, b) || AtMost(b, a)
  {
    if a != [] && b != [] && a[0] == b[0] {
      AtMostTotal(a[1..], b[1..]);
    }
  }

  lemma {:induction false} AtMostAntisymmetric(a: Text, b: Text)
    requires AtMost(a, b) && AtMost(b, a)
    ensures a == b
  {
    if a != [] {
      AtMostAntisymmetric(a[1..], b[1..]);
      assert a == [a[0]] + a[1..] && b == [b[0]] + b[1..];
    }
  }

  lemma {:induction false} AtMostTransitive(a: Text, b: Text, c: Text)
    requires AtMost(a, b) && AtMost(b, c)
    ensures AtMost(a, c)
  {
    if a != [] && a[0] == b[0] == c[0] {
      AtMostTransitive(a[1..], b[1..], c[1..]);
    }
  }

  // ---------------------------------------------------------------- searching

  /** `String.prototype.indexOf` for one unit, with the length for "absent". */
  function IndexOf(t: Text, u: CodeUnit): (i: nat)
    ensures i <= |t|
    ensures i < |t| ==> t[i] == u
    ensures u !in t[..i]
  {
    if t == [] || t[0] == u then 0
    else
      var i := 1 + IndexOf(t[1..], u);
      assert t[..i] == [t[0]] + t[1..][..i - 1];
      i
  }

  lemma IndexOfSplit(a: Text, u: CodeUnit, b: Text)
    requires u !in a
    ensures IndexOf(a + [u] + b, u) == |a|
  {
    var t := a + [u] + b;
    assert t[|a|] == u;
    assert forall j :: 0 <= j < |a| ==> t[j] == a[j] && a[j] in a;
    assert forall j :: 0 <= j < IndexOf(t, u) ==> t[j] == t[..IndexOf(t, u)][j];
  }

  lemma IndexOfAbsent(t: Text, u: CodeUnit)
    requires u !in t
    ensures IndexOf(t, u) == |t|
  {
  }

  // ---------------------------------------------------------------- numerals

  type Digit = d: int | 0 <= d < 10

  predicate IsDigit(u: CodeUnit) {
    ZERO <= u < ZERO + 10
  }

  function DigitText(ds: seq<Digit>): (t: Text)
    ensures |t| == |ds|
    ensures forall i :: 0 <= i < |t| ==> t[i] == ZERO + ds[i]
  {
    seq(|ds|, i requires 0 <= i < |ds| => ZERO + ds[i])
  }

  function DigitsOf(t: Text): (ds: seq<Digit>)
    ensures |ds| == |t|
    ensures forall i :: 0 <= i < |t| && IsDigit(t[i]) ==> ds[i] == t[i] - ZERO
  {
    seq(|t|, i requires 0 <= i < |t| => if IsDigit(t[i]) then t[i] - ZERO else 0)
  }

  lemma DigitsRoundTrip(ds: seq<Digit>)
    ensures DigitsOf(DigitText(ds)) == ds
  {
  }

  /** The decimal numeral of a natural number, without leading zeros. */
  function Decimal(n: nat): (t: Text)
    ensures |t| > 0
    ensures forall u <- t :: IsDigit(u)
  {
    if n < 10 then [ZERO + n] else Decimal(n / 10) + [ZERO + n % 10]
  }

  function DecimalValue(t: Text): nat
    requires forall u <- t :: IsDigit(u)
  {
    if t == [] then 0
    else
      assert IsDigit(t[|t| - 1]);
      10 * DecimalValue(t[..|t| - 1]) + (t[|t| - 1] - ZERO)
  }

  lemma {:induction false} DecimalRoundTrip(n: nat)
    ensures DecimalValue(Decimal(n)) == n
  {
    if 10 <= n {
      DecimalRoundTrip(n / 10);
      var t := Decimal(n);
      assert t[..|t| - 1] == Decimal(n / 10);
    } else {
      assert DecimalValue([]) == 0;
    }
  }

  function Zeros(n: nat): (t: Text)
    ensures |t| == n
    ensures forall i :: 0 <= i < n ==> t[i] == ZERO
  {
    seq(n, i requires 0 <= i < n => ZERO)
  }
}
