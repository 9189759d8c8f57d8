/**
 JSON values, the order-keeping printer `JSON.stringify`, and a parser that undoes it.
 */
module Json {
  import opened JsText
  import opened JsNumber
  import opened JsonString
  import opened Wrappers

  /** A property of an object, or its key with anything computed from its value. */
  datatype Entry<T> = Entry(key: Text, value: T)

  /** A JavaScript value as `stableStringify` tells them apart; members are in enumeration order. */
  datatype Json =
    | Null
    | Undefined
    | Bool(b: bool)
    | Num(n: Number)
    | Str(s: Text)
    | Arr(items: seq<Json>)
    | Obj(members: seq<Entry<Json>>)

  ghost predicate DistinctKeys<T>(es: seq<Entry<T>>) {
    forall i, j :: 0 <= i < j < |es| ==> es[i].key != es[j].key
  }

  /** What the language guarantees of a value: an object holds each key once. */
  ghost predicate WellFormed(v: Json) {
    match v
    case Num(n) => ValidNumber(n)
    case Arr(items) => forall x <- items :: WellFormed(x)
    case Obj(ms) => DistinctKeys(ms) && forall m <- ms :: WellFormed(m.value)
    case _ => true
  }

  /** Values that a JSON text can denote: no `undefined`, no non-finite number, no minus zero. */
  ghost predicate Denotable(v: Json) {
    match v
    case Undefined => false
    case Num(n) => n.Finite? && ValidNumber(n) && DropMinusZero(n) == n
    case Arr(items) => forall x <- items :: Denotable(x)
    case Obj(ms) => forall m <- ms :: Denotable(m.value)
    case _ => true
  }

  // ---------------------------------------------------------------- printing

  const NULL_TEXT: Text := [0x6E, 0x75, 0x6C, 0x6C]
  const TRUE_TEXT: Text := [0x74, 0x72, 0x75, 0x65]
  const FALSE_TEXT: Text := [0x66, 0x61, 0x6C, 0x73, 0x65]

  function NumberText(n: Number): Text {
    if n.Finite? && |n.digits| > 0 then FiniteText(n) else NULL_TEXT
  }

  /** `texts.join(',')` */
  function Join(ts: seq<Text>): Text {
    if ts == [] then [] else if |ts| == 1 then ts[0] else ts[0] + [COMMA] + Join(ts[1..])
  }

  function MemberTexts(es: seq<Entry<Text>>): (ts: seq<Text>)
    ensures |ts| == |es|
  {
    if es == [] then [] else [Quote(es[0].key) + [COLON] + es[0].value] + MemberTexts(es[1..])
  }

  function Bracketed(ts: seq<Text>): Text {
    [OPEN_BRACKET] + Join(ts) + [CLOSE_BRACKET]
  }

  function Braced(es: seq<Entry<Text>>): Text {
    [OPEN_BRACE] + Join(MemberTexts(es)) + [CLOSE_BRACE]
  }

  /** `JSON.stringify` of a value that holds no `undefined`: members keep their order. */
  function Stringify(v: Json): Text {
    match v
    case Null => NULL_TEXT
    case Undefined => NULL_TEXT
    case Bool(b) => if b then TRUE_TEXT else FALSE_TEXT
    case Num(n) => NumberText(n)
    case Str(s) => Quote(s)
    case Arr(items) => Bracketed(StringifyAll(items))
    case Obj(ms) => Braced(StringifyMembers(ms))
  }

  function StringifyAll(vs: seq<Json>): (ts: seq<Text>)
    ensures |ts| == |vs|
  {
    if vs == [] then [] else [Stringify(vs[0])] + StringifyAll(vs[1..])
  }

  function StringifyMembers(ms: seq<Entry<Json>>): (es: seq<Entry<Text>>)
    ensures |es| == |ms|
  {
    if ms == [] then [] else [Entry(ms[0].key, Stringify(ms[0].value))] + StringifyMembers(ms[1..])
  }

  // ---------------------------------------------------------------- parsing

  /** How many units at the start of the text can belong to a number. */
  function NumberRun(t: Text): (k: nat)
    ensures k <= |t|
  {
    if t == [] || !IsNumberUnit(t[0]) then 0 else 1 + NumberRun(t[1..])
  }

  /** The value whose text starts `t`, and what follows it. */
  function ParseValue(t: Text): (r: Option<(Json, Text)>)
    ensures r.Some? ==> |r.value.1| < |t|
    decreases |t|, 1
  {
    if NULL_TEXT <= t then Some((Null, t[4..]))
    else if TRUE_TEXT <= t then Some((Bool(true), t[4..]))
    else if FALSE_TEXT <= t then Some((Bool(false), t[5..]))
    else if t == [] then None
    else if t[0] == QUOTE then
      var s := ReadString(t[1..]);
      if s.None? then None else Some((Str(s.value.0), s.value.1))
    else if t[0] == OPEN_BRACKET then
      if |t| > 1 && t[1] == CLOSE_BRACKET then Some((Arr([]), t[2..]))
      else
        var vs := ParseItems(t[1..]);
        if vs.None? then None else Some((Arr(vs.value.0), vs.value.1))
    else if t[0] == OPEN_BRACE then
      if |t| > 1 && t[1] == CLOSE_BRACE then Some((Obj([]), t[2..]))
      else
        var ms := ParseMembers(t[1..]);
        if ms.None? then None else Some((Obj(ms.value.0), ms.value.1))
    else
      var k := NumberRun(t);
      if k == 0 then None else Some((Num(ReadNumber(t[..k])), t[k..]))
  }

  /** One or more values with commas between them, up to and including the closing bracket. */
  function ParseItems(t: Text): (r: Option<(seq<Json>, Text)>)
    ensures r.Some? ==> |r.value.1| < |t|
    decreases |t|, 2
  {
    var v := ParseValue(t);
    if v.None? || v.value.1 == [] then None
    else if v.value.1[0] == CLOSE_BRACKET then Some(([v.value.0], v.value.1[1..]))
    else if v.value.1[0] != COMMA then None
    else
      var vs := ParseItems(v.value.1[1..]);
      if vs.None? then None else Some(([v.value.0] + vs.value.0, vs.value.1))
  }

  /** One property: quoted key, colon, value. */
  function ParseMember(t: Text): (r: Option<(Entry<Json>, Text)>)
    ensures r.Some? ==> |r.value.1| < |t|
    decreases |t|, 1
  {
    if t == [] || t[0] != QUOTE then None
    else
      var k := ReadString(t[1..]);
      if k.None? || k.value.1 == [] || k.value.1[0] != COLON then None
      else
        var v := ParseValue(k.value.1[1..]);
        if v.None? then None else Some((Entry(k.value.0, v.value.0), v.value.1))
  }

  function ParseMembers(t: Text): (r: Option<(seq<Entry<Json>>, Text)>)
    ensures r.Some? ==> |r.value.1| < |t|
    decreases |t|, 2
  {
    var m := ParseMember(t);
    if m.None? || m.value.1 == [] then None
    else if m.value.1[0] == CLOSE_BRACE then Some(([m.value.0], m.value.1[1..]))
    else if m.value.1[0] != COMMA then None
    else
      var ms := ParseMembers(m.value.1[1..]);
      if ms.None? then None else Some(([m.value.0] + ms.value.0, ms.value.1))
  }

  // ---------------------------------------------------------------- the round trip

  /** A text that can follow a value: nothing, or a unit that no number contains. */
  predicate Delimited(rest: Text) {
    rest == [] || !IsNumberUnit(rest[0])
  }

  lemma {:induction false} NumberRunExact(t: Text, rest: Text)
    requires NumberUnits(t)
    requires Delimited(rest)
    ensures NumberRun(t + rest) == |t|
  {
    if t == [] {
      assert t + rest == rest;
    } else {
      NumberRunExact(t[1..], rest);
      assert (t + rest)[1..] == t[1..] + rest;
    }
  }

  /** A number starts with a digit or the minus sign, so with no other kind of value. */
  lemma NumberStart(n: Number)
    requires n.Finite? && |n.digits| > 0
    ensures |FiniteText(n)| > 0
    ensures IsDigit(FiniteText(n)[0]) || FiniteText(n)[0] == MINUS
  {
  }

  lemma ParseNumberUnits(t: Text, rest: Text)
    requires t != [] && (IsDigit(t[0]) || t[0] == MINUS)
    requires NumberUnits(t)
    requires Delimited(rest)
    ensures ParseValue(t + rest) == Some((Num(ReadNumber(t)), rest))
  {
    NumberRunExact(t, rest);
    ConcatParts(t, rest);
    assert (t + rest)[0] == t[0];
  }

  lemma ParseNumber(n: Number, rest: Text)
    requires n.Finite? && ValidNumber(n) && DropMinusZero(n) == n
    requires Delimited(rest)
    ensures ParseValue(NumberText(n) + rest) == Some((Num(n), rest))
  {
    FiniteTextUnits(n);
    NumberStart(n);
    NumberRoundTrip(n);
    ParseNumberUnits(FiniteText(n), rest);
  }

  lemma ParseBool(b: bool, rest: Text)
    ensures ParseValue(Stringify(Bool(b)) + rest) == Some((Bool(b), rest))
  {
    var t := Stringify(Bool(b)) + rest;
    ConcatParts(Stringify(Bool(b)), rest);
    if b {
      assert t[0] == 0x74 && TRUE_TEXT <= t;
    } else {
      assert t[0] == 0x66 && FALSE_TEXT <= t;
    }
  }

  lemma ParseQuoted(s: Text, rest: Text)
    ensures Quote(s) + rest == [QUOTE] + (QuoteBody(s) + ([QUOTE] + rest))
    ensures ReadString((Quote(s) + rest)[1..]) == Some((s, rest))
  {
    StringRoundTrip(s, rest);
    Regroup4([QUOTE], QuoteBody(s), [QUOTE], rest);
    ConsParts(QUOTE, QuoteBody(s) + ([QUOTE] + rest));
  }

  lemma ParseString(s: Text, rest: Text)
    ensures ParseValue(Quote(s) + rest) == Some((Str(s), rest))
  {
    var t := Quote(s) + rest;
    ParseQuoted(s, rest);
    ConsParts(QUOTE, QuoteBody(s) + ([QUOTE] + rest));
    assert t != [] && t[0] == QUOTE;
  }

  lemma ParseMemberText(key: Text, text: Text, v: Json, rest: Text)
    requires ParseValue(text + rest) == Some((v, rest))
    ensures ParseMember(Quote(key) + [COLON] + text + rest) == Some((Entry(key, v), rest))
  {
    var tail := [COLON] + (text + rest);
    var t := Quote(key) + tail;
    Regroup4(Quote(key), [COLON], text, rest);
    ParseQuoted(key, tail);
    ConsParts(COLON, text + rest);
    ParseMemberParts(t, key, tail, v, rest);
  }

  lemma ParseMemberParts(t: Text, key: Text, tail: Text, v: Json, rest: Text)
    requires t != [] && t[0] == QUOTE && ReadString(t[1..]) == Some((key, tail))
    requires tail != [] && tail[0] == COLON && ParseValue(tail[1..]) == Some((v, rest))
    ensures ParseMember(t) == Some((Entry(key, v), rest))
  {
  }

  /** No value's text starts with a closing bracket. */
  lemma FirstUnit(v: Json)
    requires Denotable(v)
    ensures |Stringify(v)| > 0 && Stringify(v)[0] != CLOSE_BRACKET
  {
    if v.Num? {
      NumberStart(v.n);
    }
  }

  /** `JSON.stringify` loses nothing: the parser recovers the value and stops at its end. */
  lemma {:induction false} StringifyRoundTrip(v: Json, rest: Text)
    requires Denotable(v) && Delimited(rest)
    ensures ParseValue(Stringify(v) + rest) == Some((v, rest))
    decreases v, 1
  {
    var t := Stringify(v) + rest;
    match v
    case Null => assert t[4..] == rest;
    case Bool(b) => ParseBool(b, rest);
    case Num(n) => ParseNumber(n, rest);
    case Str(s) => ParseString(s, rest);
    case Arr(items) => ArrayRoundTrip(items, rest);
    case Obj(ms) => ObjectRoundTrip(ms, rest);
  }

  lemma {:induction false} ArrayRoundTrip(items: seq<Json>, rest: Text)
    requires forall x <- items :: Denotable(x)
    ensures ParseValue(Bracketed(StringifyAll(items)) + rest) == Some((Arr(items), rest))
    decreases items, 1
  {
    var body := Join(StringifyAll(items)) + ([CLOSE_BRACKET] + rest);
    Regroup4([OPEN_BRACKET], Join(StringifyAll(items)), [CLOSE_BRACKET], rest);
    ConsParts(OPEN_BRACKET, body);
    ConsParts(CLOSE_BRACKET, rest);
    if items == [] {
      assert body == [CLOSE_BRACKET] + rest;
      assert ([OPEN_BRACKET] + body)[2..] == rest;
    } else {
      ItemsRoundTrip(items, rest);
      FirstUnit(items[0]);
      assert body[0] == Stringify(items[0])[0];
    }
  }

  lemma {:induction false} ItemsRoundTrip(items: seq<Json>, rest: Text)
    requires items != [] && forall x <- items :: Denotable(x)
    ensures ParseItems(Join(StringifyAll(items)) + ([CLOSE_BRACKET] + rest)) == Some((items, rest))
    decreases items, 0
  {
    var first, close := Stringify(items[0]), [CLOSE_BRACKET] + rest;
    if |items| == 1 {
      StringifyRoundTrip(items[0], close);
      ConsParts(CLOSE_BRACKET, rest);
      ItemsEnd(first + close, items[0], close);
      assert items == [items[0]];
    } else {
      var tail := Join(StringifyAll(items[1..])) + close;
      StringifyRoundTrip(items[0], [COMMA] + tail);
      ConsParts(COMMA, tail);
      ItemsRoundTrip(items[1..], rest);
      ItemsStep(first + ([COMMA] + tail), items[0], [COMMA] + tail, items[1..], rest);
      ItemsText(items, close);
      assert [items[0]] + items[1..] == items;
    }
  }

  lemma ItemsText(items: seq<Json>, close: Text)
    requires |items| > 1
    ensures Join(StringifyAll(items)) + close == Stringify(items[0]) + ([COMMA] + (Join(StringifyAll(items[1..])) + close))
  {
    assert StringifyAll(items)[1..] == StringifyAll(items[1..]);
    Regroup4(Stringify(items[0]), [COMMA], Join(StringifyAll(items[1..])), close);
  }

  lemma ItemsEnd(t: Text, v: Json, close: Text)
    requires ParseValue(t) == Some((v, close)) && close != [] && close[0] == CLOSE_BRACKET
    ensures ParseItems(t) == Some(([v], close[1..]))
  {
  }

  lemma ItemsStep(t: Text, v: Json, tail: Text, vs: seq<Json>, rest: Text)
    requires ParseValue(t) == Some((v, tail)) && tail != [] && tail[0] == COMMA
    requires ParseItems(tail[1..]) == Some((vs, rest))
    ensures ParseItems(t) == Some(([v] + vs, rest))
  {
  }

  lemma {:induction false} ObjectRoundTrip(ms: seq<Entry<Json>>, rest: Text)
    requires forall m <- ms :: Denotable(m.value)
    ensures ParseValue(Braced(StringifyMembers(ms)) + rest) == Some((Obj(ms), rest))
    decreases ms, 1
  {
    var body := Join(MemberTexts(StringifyMembers(ms))) + ([CLOSE_BRACE] + rest);
    Regroup4([OPEN_BRACE], Join(MemberTexts(StringifyMembers(ms))), [CLOSE_BRACE], rest);
    ConsParts(OPEN_BRACE, body);
    ConsParts(CLOSE_BRACE, rest);
    if ms == [] {
      assert body == [CLOSE_BRACE] + rest;
      assert ([OPEN_BRACE] + body)[2..] == rest;
    } else {
      MembersRoundTrip(ms, rest);
      assert MemberTexts(StringifyMembers(ms))[0][0] == QUOTE;
      assert body[0] == QUOTE;
    }
  }

  lemma {:induction false} MemberRoundTrip(m: Entry<Json>, rest: Text)
    requires Denotable(m.value) && Delimited(rest)
    ensures ParseMember(Quote(m.key) + [COLON] + Stringify(m.value) + rest) == Some((m, rest))
    decreases m, 0
  {
    StringifyRoundTrip(m.value, rest);
    ParseMemberText(m.key, Stringify(m.value), m.value, rest);
  }

  lemma {:induction false} MembersRoundTrip(ms: seq<Entry<Json>>, rest: Text)
    requires ms != [] && forall m <- ms :: Denotable(m.value)
    ensures ParseMembers(Join(MemberTexts(StringifyMembers(ms))) + ([CLOSE_BRACE] + rest)) == Some((ms, rest))
    decreases ms, 0
  {
    var first := Quote(ms[0].key) + [COLON] + Stringify(ms[0].value);
    var close := [CLOSE_BRACE] + rest;
    if |ms| == 1 {
      MemberRoundTrip(ms[0], close);
      ConsParts(CLOSE_BRACE, rest);
      MembersEnd(first + close, ms[0], close);
      assert ms == [ms[0]];
    } else {
      var tail := Join(MemberTexts(StringifyMembers(ms[1..]))) + close;
      MemberRoundTrip(ms[0], [COMMA] + tail);
      ConsParts(COMMA, tail);
      MembersRoundTrip(ms[1..], rest);
      MembersStep(first + ([COMMA] + tail), ms[0], [COMMA] + tail, ms[1..], rest);
      Regroup4(first, [COMMA], Join(MemberTexts(StringifyMembers(ms[1..]))), close);
      assert [ms[0]] + ms[1..] == ms;
    }
  }

  lemma MembersEnd(t: Text, m: Entry<Json>, close: Text)
    requires ParseMember(t) == Some((m, close)) && close != [] && close[0] == CLOSE_BRACE
    ensures ParseMembers(t) == Some(([m], close[1..]))
  {
  }

  lemma MembersStep(t: Text, m: Entry<Json>, tail: Text, ms: seq<Entry<Json>>, rest: Text)
    requires ParseMember(t) == Some((m, tail)) && tail != [] && tail[0] == COMMA
    requires ParseMembers(tail[1..]) == Some((ms, rest))
    ensures ParseMembers(t) == Some(([m] + ms, rest))
  {
  }

  /** Two values with the same text are the same value. */
  lemma StringifyInjective(a: Json, b: Json)
    requires Denotable(a) && Denotable(b)
    requires Stringify(a) == Stringify(b)
    ensures a == b
  {
    StringifyRoundTrip(a, []);
    StringifyRoundTrip(b, []);
    assert Stringify(a) + [] == Stringify(b) + [];
  }
}
