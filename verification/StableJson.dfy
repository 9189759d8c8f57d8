/**
 `stableStringify`: the printer whose text does not depend on key order. Its text is shown
 to determine the value up to key order, and nothing less.
 */
module StableJson {
  import opened JsText
  import opened JsNumber
  import opened Json
  import opened Wrappers

  // ---------------------------------------------------------------- sorting by key

  function InsertByKey<T>(e: Entry<T>, es: seq<Entry<T>>): seq<Entry<T>> {
    if es == [] || AtMost(e.key, es[0].key) then [e] + es
    else [es[0]] + InsertByKey(e, es[1..])
  }

  /** `Object.keys(obj).sort()`, each key with its value. */
  function SortByKey<T>(es: seq<Entry<T>>): seq<Entry<T>> {
    if es == [] then [] else InsertByKey(es[0], SortByKey(es[1..]))
  }

  ghost predicate StrictlySorted<T>(es: seq<Entry<T>>) {
    forall i, j :: 0 <= i < j < |es| ==> AtMost(es[i].key, es[j].key) && es[i].key != es[j].key
  }

  lemma {:induction false} InsertKeepsElements<T(!new)>(e: Entry<T>, es: seq<Entry<T>>)
    ensures forall x :: x in InsertByKey(e, es) <==> x == e || x in es
  {
    if es != [] && !AtMost(e.key, es[0].key) {
      InsertKeepsElements(e, es[1..]);
      assert es == [es[0]] + es[1..];
    }
  }

  lemma {:induction false} SortKeepsElements<T(!new)>(es: seq<Entry<T>>)
    ensures forall x :: x in SortByKey(es) <==> x in es
  {
    if es != [] {
      SortKeepsElements(es[1..]);
      InsertKeepsElements(es[0], SortByKey(es[1..]));
      assert es == [es[0]] + es[1..];
    }
  }

  lemma {:induction false} InsertKeepsSorted<T(!new)>(e: Entry<T>, es: seq<Entry<T>>)
    requires StrictlySorted(es) && forall x <- es :: x.key != e.key
    ensures StrictlySorted(InsertByKey(e, es))
  {
    if es != [] {
      if AtMost(e.key, es[0].key) {
        forall j | 0 <= j < |es| ensures AtMost(e.key, es[j].key) {
          if 0 < j { AtMostTransitive(e.key, es[0].key, es[j].key); }
        }
      } else {
        AtMostTotal(e.key, es[0].key);
        InsertKeepsSorted(e, es[1..]);
        InsertKeepsElements(e, es[1..]);
        var r := InsertByKey(e, es[1..]);
        forall j | 0 <= j < |r| ensures AtMost(es[0].key, r[j].key) && es[0].key != r[j].key {
          assert r[j] in r;
          assert r[j] == e || r[j] in es[1..];
        }
      }
    }
  }

  lemma {:induction false} SortSorts<T(!new)>(es: seq<Entry<T>>)
    requires DistinctKeys(es)
    ensures StrictlySorted(SortByKey(es))
  {
    if es != [] {
      SortSorts(es[1..]);
      SortKeepsElements(es[1..]);
      InsertKeepsSorted(es[0], SortByKey(es[1..]));
    }
  }

  lemma TailElements<T(!new)>(a: seq<Entry<T>>, b: seq<Entry<T>>)
    requires StrictlySorted(a)
    requires a != [] && b != [] && a[0] == b[0] && forall x <- a :: x in b
    ensures forall x <- a[1..] :: x in b[1..]
  {
    forall x | x in a[1..] ensures x in b[1..] {
      var k :| 1 <= k < |a| && a[k] == x;
      assert a[k] in b;
      var m :| 0 <= m < |b| && b[m] == x;
      assert b[1..][m - 1] == x;
    }
  }

  /** A strictly sorted sequence is determined by its elements. */
  lemma {:induction false} SortedUnique<T(!new)>(a: seq<Entry<T>>, b: seq<Entry<T>>)
    requires StrictlySorted(a) && StrictlySorted(b)
    requires forall x :: x in a <==> x in b
    ensures a == b
    decreases |a| + |b|, |b|
  {
    if |a| < |b| {
      SortedUnique(b, a);
    } else if a != [] {
      assert a[0] in b;
      assert b[0] in a;
      var i :| 0 <= i < |b| && b[i] == a[0];
      var j :| 0 <= j < |a| && a[j] == b[0];
      if 0 < i && 0 < j { AtMostAntisymmetric(a[0].key, b[0].key); }
      assert a[0] == b[0];
      TailElements(a, b);
      TailElements(b, a);
      SortedUnique(a[1..], b[1..]);
      assert a == [a[0]] + a[1..] && b == [b[0]] + b[1..];
    }
  }

  // ---------------------------------------------------------------- the printer

  /** The text of a value with the keys of every object sorted; `undefined` prints as null. */
  function StableStringify(v: Json): Text {
    match v
    case Null => NULL_TEXT
    case Undefined => NULL_TEXT
    case Bool(b) => Stringify(v)
    case Num(n) => Stringify(v)
    case Str(s) => Stringify(v)
    case Arr(items) => Bracketed(StableAll(items))
    case Obj(ms) => Braced(SortByKey(StableMembers(ms)))
  }

  function StableAll(vs: seq<Json>): (ts: seq<Text>)
    ensures |ts| == |vs|
  {
    if vs == [] then [] else [StableStringify(vs[0])] + StableAll(vs[1..])
  }

  function StableMembers(ms: seq<Entry<Json>>): (es: seq<Entry<Text>>)
    ensures |es| == |ms|
  {
    if ms == [] then [] else [Entry(ms[0].key, StableStringify(ms[0].value))] + StableMembers(ms[1..])
  }

  // ---------------------------------------------------------------- equality up to key order

  /** `null`, `undefined` and the non-finite numbers all print as null. */
  predicate Nullish(v: Json) {
    v.Null? || v.Undefined? || (v.Num? && !v.n.Finite?)
  }

  ghost function Keys<T>(es: seq<Entry<T>>): set<Text> {
    set e <- es :: e.key
  }

  /** Equality of values that looks at which keys an object has, not at their order. */
  ghost predicate Equivalent(a: Json, b: Json) {
    if Nullish(a) || Nullish(b) then Nullish(a) && Nullish(b)
    else match a
      case Num(x) => b.Num? && DropMinusZero(x) == DropMinusZero(b.n)
      case Arr(xs) =>
        b.Arr? && |xs| == |b.items| && forall i :: 0 <= i < |xs| ==> Equivalent(xs[i], b.items[i])
      case Obj(ms) =>
        && b.Obj?
        && Keys(ms) == Keys(b.members)
        && forall m, m' :: m in ms && m' in b.members && m.key == m'.key ==> Equivalent(m.value, m'.value)
      case _ => a == b
  }

  // ---------------------------------------------------------------- the sorted form

  /** The representative of a value up to key order: sorted keys, null for every nullish value. */
  function Canonical(v: Json): Json {
    match v
    case Undefined => Null
    case Num(n) => if n.Finite? then Num(DropMinusZero(n)) else Null
    case Arr(items) => Arr(CanonicalAll(items))
    case Obj(ms) => Obj(SortByKey(CanonicalMembers(ms)))
    case _ => v
  }

  function CanonicalAll(vs: seq<Json>): (rs: seq<Json>)
    ensures |rs| == |vs|
    ensures forall i :: 0 <= i < |vs| ==> rs[i] == Canonical(vs[i])
  {
    if vs == [] then [] else [Canonical(vs[0])] + CanonicalAll(vs[1..])
  }

  function CanonicalMembers(ms: seq<Entry<Json>>): (rs: seq<Entry<Json>>)
    ensures |rs| == |ms|
    ensures forall i :: 0 <= i < |ms| ==> rs[i] == Entry(ms[i].key, Canonical(ms[i].value))
  {
    if ms == [] then [] else [Entry(ms[0].key, Canonical(ms[0].value))] + CanonicalMembers(ms[1..])
  }

  // ---------------------------------------------------------------- printing the sorted form

  lemma {:induction false} StringifyCommutesWithInsert(e: Entry<Json>, es: seq<Entry<Json>>)
    ensures StringifyMembers(InsertByKey(e, es))
         == InsertByKey(Entry(e.key, Stringify(e.value)), StringifyMembers(es))
  {
    if es != [] && !AtMost(e.key, es[0].key) {
      StringifyCommutesWithInsert(e, es[1..]);
      assert InsertByKey(e, es)[1..] == InsertByKey(e, es[1..]);
      assert StringifyMembers(es)[1..] == StringifyMembers(es[1..]);
    } else {
      assert InsertByKey(e, es)[1..] == es;
    }
  }

  lemma {:induction false} StringifyCommutesWithSort(es: seq<Entry<Json>>)
    ensures StringifyMembers(SortByKey(es)) == SortByKey(StringifyMembers(es))
  {
    if es != [] {
      StringifyCommutesWithSort(es[1..]);
      StringifyCommutesWithInsert(es[0], SortByKey(es[1..]));
      assert StringifyMembers(es)[1..] == StringifyMembers(es[1..]);
    }
  }

  /** Sorting while printing is printing the sorted form. */
  lemma {:induction false} StableIsStringifyOfCanonical(v: Json)
    requires WellFormed(v)
    ensures StableStringify(v) == Stringify(Canonical(v))
    decreases v, 1
  {
    match v
    case Arr(items) => AllStable(items);
    case Obj(ms) =>
      MembersStable(ms);
      StringifyCommutesWithSort(CanonicalMembers(ms));
    case _ =>
  }

  lemma {:induction false} AllStable(vs: seq<Json>)
    requires forall x <- vs :: WellFormed(x)
    ensures StableAll(vs) == StringifyAll(CanonicalAll(vs))
    decreases vs, 0
  {
    if vs != [] {
      StableIsStringifyOfCanonical(vs[0]);
      AllStable(vs[1..]);
      assert CanonicalAll(vs)[1..] == CanonicalAll(vs[1..]);
    }
  }

  lemma {:induction false} MembersStable(ms: seq<Entry<Json>>)
    requires forall m <- ms :: WellFormed(m.value)
    ensures StableMembers(ms) == StringifyMembers(CanonicalMembers(ms))
    decreases ms, 0
  {
    if ms != [] {
      StableIsStringifyOfCanonical(ms[0].value);
      MembersStable(ms[1..]);
      assert CanonicalMembers(ms)[1..] == CanonicalMembers(ms[1..]);
    }
  }

  lemma {:induction false} CanonicalDenotable(v: Json)
    requires WellFormed(v)
    ensures Denotable(Canonical(v))
  {
    match v
    case Arr(items) =>
      forall x | x in CanonicalAll(items) ensures Denotable(x) {
        var i :| 0 <= i < |items| && x == CanonicalAll(items)[i];
        CanonicalDenotable(items[i]);
      }
    case Obj(ms) =>
      SortKeepsElements(CanonicalMembers(ms));
      forall m | m in SortByKey(CanonicalMembers(ms)) ensures Denotable(m.value) {
        var i :| 0 <= i < |ms| && m == CanonicalMembers(ms)[i];
        CanonicalDenotable(ms[i].value);
      }
    case _ =>
  }

  // ---------------------------------------------------------------- sorted form and equivalence

  lemma CanonicalKeys(ms: seq<Entry<Json>>)
    requires DistinctKeys(ms)
    ensures DistinctKeys(CanonicalMembers(ms))
    ensures StrictlySorted(SortByKey(CanonicalMembers(ms)))
    ensures forall x :: x in SortByKey(CanonicalMembers(ms)) <==> x in CanonicalMembers(ms)
  {
    SortSorts(CanonicalMembers(ms));
    SortKeepsElements(CanonicalMembers(ms));
  }

  lemma {:induction false} EquivalentCanonical(a: Json, b: Json)
    requires WellFormed(a) && WellFormed(b)
    requires Equivalent(a, b)
    ensures Canonical(a) == Canonical(b)
  {
    if !Nullish(a) {
      match a
      case Arr(xs) =>
        forall i | 0 <= i < |xs| ensures Canonical(xs[i]) == Canonical(b.items[i]) {
          EquivalentCanonical(xs[i], b.items[i]);
        }
        assert CanonicalAll(xs) == CanonicalAll(b.items);
      case Obj(ms) =>
        CanonicalKeys(ms);
        CanonicalKeys(b.members);
        forall m, m' | m in ms && m' in b.members && m.key == m'.key
          ensures Canonical(m.value) == Canonical(m'.value)
        {
          EquivalentCanonical(m.value, m'.value);
        }
        SameElements(ms, b.members);
        SortedUnique(SortByKey(CanonicalMembers(ms)), SortByKey(CanonicalMembers(b.members)));
      case _ =>
    }
  }

  lemma SameElements(ms: seq<Entry<Json>>, ns: seq<Entry<Json>>)
    requires Keys(ms) == Keys(ns)
    requires forall m, n :: m in ms && n in ns && m.key == n.key ==> Canonical(m.value) == Canonical(n.value)
    ensures forall x :: x in CanonicalMembers(ms) <==> x in CanonicalMembers(ns)
  {
    forall x | x in CanonicalMembers(ms) ensures x in CanonicalMembers(ns) {
      CanonicalMemberMoves(ms, ns, x);
    }
    forall x | x in CanonicalMembers(ns) ensures x in CanonicalMembers(ms) {
      CanonicalMemberMoves(ns, ms, x);
    }
  }

  lemma CanonicalMemberMoves(ms: seq<Entry<Json>>, ns: seq<Entry<Json>>, x: Entry<Json>)
    requires Keys(ms) == Keys(ns)
    requires forall m, n :: m in ms && n in ns && m.key == n.key ==> Canonical(m.value) == Canonical(n.value)
    requires x in CanonicalMembers(ms)
    ensures x in CanonicalMembers(ns)
  {
    var i :| 0 <= i < |ms| && x == CanonicalMembers(ms)[i];
    assert ms[i] in ms && ms[i].key in Keys(ms);
    var n :| n in ns && n.key == ms[i].key;
    var j :| 0 <= j < |ns| && ns[j] == n;
    assert CanonicalMembers(ns)[j] == x;
  }

  lemma {:induction false} CanonicalEquivalent(a: Json, b: Json)
    requires WellFormed(a) && WellFormed(b)
    requires Canonical(a) == Canonical(b)
    ensures Equivalent(a, b)
  {
    if !Nullish(a) && !Nullish(b) {
      match a
      case Arr(xs) =>
        forall i | 0 <= i < |xs| ensures Equivalent(xs[i], b.items[i]) {
          assert CanonicalAll(xs)[i] == CanonicalAll(b.items)[i];
          CanonicalEquivalent(xs[i], b.items[i]);
        }
      case Obj(ms) =>
        CanonicalKeys(ms);
        CanonicalKeys(b.members);
        var cs := CanonicalMembers(b.members);
        assert forall x :: x in CanonicalMembers(ms) <==> x in cs;
        KeysOfCanonical(ms);
        KeysOfCanonical(b.members);
        forall m, m' | m in ms && m' in b.members && m.key == m'.key
          ensures Equivalent(m.value, m'.value)
        {
          var i :| 0 <= i < |ms| && ms[i] == m;
          var j :| 0 <= j < |b.members| && b.members[j] == m';
          assert CanonicalMembers(ms)[i] in cs && cs[j] in cs;
          var k :| 0 <= k < |cs| && cs[k] == CanonicalMembers(ms)[i];
          assert k == j;
          CanonicalEquivalent(m.value, m'.value);
        }
      case _ =>
    }
  }

  lemma KeysOfCanonical(ms: seq<Entry<Json>>)
    ensures Keys(CanonicalMembers(ms)) == Keys(ms)
  {
    forall k | k in Keys(ms) ensures k in Keys(CanonicalMembers(ms)) {
      var i :| 0 <= i < |ms| && ms[i].key == k;
      assert CanonicalMembers(ms)[i] in CanonicalMembers(ms);
    }
  }

  // ---------------------------------------------------------------- main results

  /** The parser recovers the sorted form of any value from its stable text. */
  lemma StableRoundTrip(v: Json)
    requires WellFormed(v)
    ensures ParseValue(StableStringify(v)) == Some((Canonical(v), []))
  {
    StableIsStringifyOfCanonical(v);
    CanonicalDenotable(v);
    StringifyRoundTrip(Canonical(v), []);
    assert Stringify(Canonical(v)) + [] == Stringify(Canonical(v));
  }

  /** Equal text exactly when the values are equal up to key order. */
  lemma StableStringifyIffEquivalent(a: Json, b: Json)
    requires WellFormed(a) && WellFormed(b)
    ensures StableStringify(a) == StableStringify(b) <==> Equivalent(a, b)
  {
    StableRoundTrip(a);
    StableRoundTrip(b);
    StableIsStringifyOfCanonical(a);
    StableIsStringifyOfCanonical(b);
    if Equivalent(a, b) {
      EquivalentCanonical(a, b);
    }
    if Canonical(a) == Canonical(b) {
      CanonicalEquivalent(a, b);
    }
  }
}
