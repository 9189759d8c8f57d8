/**
 Quoting of strings by `JSON.stringify` (QuoteJSONString of ECMA-262, which follows
 section 7 of RFC 8259), and a reader that undoes it.
 */
module JsonString {
  import opened JsText
  import opened Wrappers

  predicate IsLead(u: CodeUnit) { 0xD800 <= u < 0xDC00 }

  predicate IsTrail(u: CodeUnit) { 0xDC00 <= u < 0xE000 }

  /** The letter of a two-unit escape, for the seven units that have one. */
  function ShortEscape(u: CodeUnit): Option<CodeUnit> {
    if u == 0x08 then Some(0x62)
    else if u == 0x09 then Some(0x74)
    else if u == 0x0A then Some(0x6E)
    else if u == 0x0C then Some(0x66)
    else if u == 0x0D then Some(0x72)
    else if u == QUOTE || u == BACKSLASH then Some(u)
    else None
  }

  function ReadShortEscape(letter: CodeUnit): Option<CodeUnit> {
    if letter == 0x62 then Some(0x08)
    else if letter == 0x74 then Some(0x09)
    else if letter == 0x6E then Some(0x0A)
    else if letter == 0x66 then Some(0x0C)
    else if letter == 0x72 then Some(0x0D)
    else if letter == QUOTE || letter == BACKSLASH then Some(letter)
    else None
  }

  function HexDigit(d: int): CodeUnit
    requires 0 <= d < 16
  {
    if d < 10 then ZERO + d else 0x61 + d - 10
  }

  function HexValue(u: CodeUnit): (d: int)
    ensures 0 <= d < 16
  {
    if IsDigit(u) then u - ZERO else if 0x61 <= u < 0x67 then u - 0x61 + 10 else 0
  }

  function Hex4(u: CodeUnit): Text {
    [HexDigit(u / 4096), HexDigit(u / 256 % 16), HexDigit(u / 16 % 16), HexDigit(u % 16)]
  }

  /** The text of one unit that is not half of a surrogate pair. */
  function EscapeUnit(u: CodeUnit): Text {
    if ShortEscape(u).Some? then [BACKSLASH, ShortEscape(u).value]
    else if u < 0x20 || IsLead(u) || IsTrail(u) then [BACKSLASH, LOWER_U] + Hex4(u)
    else [u]
  }

  function QuoteBody(s: Text): Text {
    if s == [] then []
    else if |s| > 1 && IsLead(s[0]) && IsTrail(s[1]) then s[..2] + QuoteBody(s[2..])
    else EscapeUnit(s[0]) + QuoteBody(s[1..])
  }

  /** `JSON.stringify` of a string. */
  function Quote(s: Text): Text {
    [QUOTE] + QuoteBody(s) + [QUOTE]
  }

  // ---------------------------------------------------------------- reading back

  /** One unit of a quoted string, escaped or raw, and what follows it. */
  function ReadUnit(t: Text): (r: Option<(CodeUnit, Text)>)
    ensures r.Some? ==> |r.value.1| < |t|
  {
    if t == [] || t[0] == QUOTE then None
    else if t[0] != BACKSLASH then Some((t[0], t[1..]))
    else if |t| < 2 then None
    else if t[1] == LOWER_U then
      if |t| < 6 then None
      else Some((HexValue(t[2]) * 4096 + HexValue(t[3]) * 256 + HexValue(t[4]) * 16 + HexValue(t[5]), t[6..]))
    else if ReadShortEscape(t[1]).Some? then Some((ReadShortEscape(t[1]).value, t[2..]))
    else None
  }

  /** The string whose quoted form, opening quote removed, starts the text; and the rest. */
  function ReadString(t: Text): (r: Option<(Text, Text)>)
    ensures r.Some? ==> |r.value.1| < |t|
    decreases |t|
  {
    if t == [] then None
    else if t[0] == QUOTE then Some(([], t[1..]))
    else
      var u := ReadUnit(t);
      if u.None? then None
      else
        var s := ReadString(u.value.1);
        if s.None? then None else Some(([u.value.0] + s.value.0, s.value.1))
  }

  // ---------------------------------------------------------------- the round trip

  lemma HexRoundTrip(u: CodeUnit)
    ensures HexValue(HexDigit(u / 4096)) * 4096 + HexValue(HexDigit(u / 256 % 16)) * 256
          + HexValue(HexDigit(u / 16 % 16)) * 16 + HexValue(HexDigit(u % 16)) == u
  {
    assert u / 256 == u / 4096 * 16 + u / 256 % 16;
    assert u / 16 == u / 256 * 16 + u / 16 % 16;
  }

  lemma UnitRoundTrip(u: CodeUnit, rest: Text)
    ensures EscapeUnit(u)[0] != QUOTE
    ensures ReadUnit(EscapeUnit(u) + rest) == Some((u, rest))
  {
    var t := EscapeUnit(u) + rest;
    if ShortEscape(u).Some? {
      assert t[2..] == rest;
    } else if u < 0x20 || IsLead(u) || IsTrail(u) {
      HexRoundTrip(u);
      assert t[6..] == rest;
    } else {
      assert t[1..] == rest;
    }
  }

  lemma ReadRaw(u: CodeUnit, tail: Text, s: Text, rest: Text)
    requires u != QUOTE && u != BACKSLASH
    requires ReadString(tail) == Some((s, rest))
    ensures ReadString([u] + tail) == Some(([u] + s, rest))
  {
    ConsParts(u, tail);
  }

  lemma ReadPair(u: CodeUnit, v: CodeUnit, tail: Text, s: Text, rest: Text)
    requires IsLead(u) && IsTrail(v)
    requires ReadString(tail) == Some((s, rest))
    ensures ReadString([u, v] + tail) == Some(([u, v] + s, rest))
  {
    ReadRaw(v, tail, s, rest);
    ReadRaw(u, [v] + tail, [v] + s, rest);
    Regroup([u], [v], tail);
    Regroup([u], [v], s);
    assert [u] + [v] == [u, v];
  }

  lemma ReadEscaped(u: CodeUnit, tail: Text, s: Text, rest: Text)
    requires ReadString(tail) == Some((s, rest))
    ensures ReadString(EscapeUnit(u) + tail) == Some(([u] + s, rest))
  {
    UnitRoundTrip(u, tail);
    assert (EscapeUnit(u) + tail)[0] == EscapeUnit(u)[0];
  }

  /** Reading back a quoted string gives the string, whatever its code units are. */
  lemma {:induction false} StringRoundTrip(s: Text, rest: Text)
    ensures ReadString(QuoteBody(s) + ([QUOTE] + rest)) == Some((s, rest))
    decreases |s|
  {
    var close := [QUOTE] + rest;
    if s == [] {
      ConsParts(QUOTE, rest);
      assert QuoteBody(s) + close == close;
    } else if |s| > 1 && IsLead(s[0]) && IsTrail(s[1]) {
      StringRoundTrip(s[2..], rest);
      ReadPair(s[0], s[1], QuoteBody(s[2..]) + close, s[2..], rest);
      Regroup(s[..2], QuoteBody(s[2..]), close);
      assert s[..2] == [s[0], s[1]];
      assert [s[0], s[1]] + s[2..] == s;
    } else {
      StringRoundTrip(s[1..], rest);
      ReadEscaped(s[0], QuoteBody(s[1..]) + close, s[1..], rest);
      Regroup(EscapeUnit(s[0]), QuoteBody(s[1..]), close);
      assert [s[0]] + s[1..] == s;
    }
  }

  // ---------------------------------------------------------------- what the text contains

  /** Every half of a surrogate pair stands beside its other half. */
  predicate WellFormedText(t: Text) {
    if t == [] then true
    else if IsLead(t[0]) then |t| > 1 && IsTrail(t[1]) && WellFormedText(t[2..])
    else !IsTrail(t[0]) && WellFormedText(t[1..])
  }

  predicate Plain(t: Text) {
    forall u <- t :: 0x20 <= u < 0xD800 || 0xE000 <= u
  }

  lemma {:induction false} PlainThen(a: Text, b: Text)
    requires Plain(a) && WellFormedText(b)
    ensures WellFormedText(a + b)
  {
    if a == [] {
      assert a + b == b;
    } else {
      assert a[0] in a && forall u <- a[1..] :: u in a;
      assert (a + b)[1..] == a[1..] + b;
      PlainThen(a[1..], b);
    }
  }

  lemma EscapeUnitPlain(u: CodeUnit)
    ensures Plain(EscapeUnit(u))
  {
  }

  /** A quoted string has no control character in it, and no unpaired surrogate, whatever it quotes. */
  lemma {:induction false} QuotedTextIsClean(s: Text)
    ensures WellFormedText(QuoteBody(s)) && forall u <- QuoteBody(s) :: u >= 0x20
    decreases |s|
  {
    if s != [] {
      if |s| > 1 && IsLead(s[0]) && IsTrail(s[1]) {
        QuotedTextIsClean(s[2..]);
        assert QuoteBody(s)[2..] == QuoteBody(s[2..]);
      } else {
        QuotedTextIsClean(s[1..]);
        EscapeUnitPlain(s[0]);
        PlainThen(EscapeUnit(s[0]), QuoteBody(s[1..]));
      }
    }
  }
}
