/**
 Decimal arithmetic of foreign-exchange normalisation and round payouts. Amounts and rates are exact
 reals; `toFixed(7)` rounds to the seventh decimal place, ties away from zero.
 */
module Fx {
  import opened Wrappers

  const SCALE := 10000000.0
  const HALF_UNIT := 0.00000005

  datatype Asset = Asset(code: string, issuer: Option<string>)
  datatype Group = Group(unitOfAccount: Asset, allowCrossAsset: bool, rateExpirySeconds: int, contributionAmount: real)
  datatype LockedRate = LockedRate(rate: real, expiresAt: int)

  datatype Error = CrossAssetDisabled | FetchFailed | RateExpired
  datatype Result<T> = Ok(value: T) | Err(error: Error)

  // ---------------------------------------------------------------- rounding

  function Abs(x: real): real {
    if x < 0.0 then -x else x
  }

  /** Nearest integer, ties away from zero. */
  function RoundHalfUp(y: real): int {
    if y >= 0.0 then (y + 0.5).Floor else -((-y + 0.5).Floor)
  }

  function ToFixed7(x: real): real {
    RoundHalfUp(x * SCALE) as real / SCALE
  }

  predicate SevenPlaces(x: real) {
    x * SCALE == (x * SCALE).Floor as real
  }

  lemma RoundWithinHalf(y: real, m: int)
    ensures Abs(y - RoundHalfUp(y) as real) <= 0.5
    ensures Abs(y - m as real) < 0.5 ==> m == RoundHalfUp(y)
  {
  }

  lemma UnitsHavePlaces(m: int)
    ensures SevenPlaces(m as real / SCALE)
  {
    assert m as real / SCALE * SCALE == m as real;
  }

  lemma SevenPlacesFixed(x: real)
    requires SevenPlaces(x)
    ensures ToFixed7(x) == x
  {
    var m := (x * SCALE).Floor;
    RoundWithinHalf(x * SCALE, m);
    assert x == x * SCALE / SCALE;
  }

  /** Rounding gives a seven-place value, no other one is nearer, and ties go away from zero. */
  lemma ToFixedIsNearest(x: real, y: real)
    requires SevenPlaces(y)
    ensures SevenPlaces(ToFixed7(x)) && Abs(x - ToFixed7(x)) <= HALF_UNIT
    ensures Abs(x - ToFixed7(x)) <= Abs(x - y)
    ensures y != ToFixed7(x) && Abs(x - y) == Abs(x - ToFixed7(x)) ==> Abs(y) < Abs(ToFixed7(x))
  {
    var u, m := x * SCALE, (y * SCALE).Floor;
    var r := RoundHalfUp(u);
    UnitsHavePlaces(r);
    assert ToFixed7(x) * SCALE == r as real;
    ScaledDistance(x, ToFixed7(x));
    ScaledDistance(x, y);
    RoundTies(u, m);
    RoundWithinHalf(u, m);
  }

  lemma ToFixedWithinHalf(x: real)
    ensures SevenPlaces(ToFixed7(x)) && Abs(x - ToFixed7(x)) <= HALF_UNIT
  {
    UnitsHavePlaces(0);
    ToFixedIsNearest(x, 0.0);
  }

  lemma ScaledDistance(x: real, y: real)
    ensures Abs(x - y) * SCALE == Abs(x * SCALE - y * SCALE)
  {
    assert (x - y) * SCALE == x * SCALE - y * SCALE;
  }

  lemma RoundTies(u: real, m: int)
    ensures Abs(u - RoundHalfUp(u) as real) <= Abs(u - m as real)
    ensures m != RoundHalfUp(u) && Abs(u - m as real) == Abs(u - RoundHalfUp(u) as real) ==> Abs(m as real) < Abs(RoundHalfUp(u) as real)
  {
  }

  // ---------------------------------------------------------------- normalisation

  function Upper(s: string): string {
    if s == [] then [] else Upper(s[..|s| - 1]) + [if 'a' <= s[|s| - 1] <= 'z' then s[|s| - 1] - 32 as char else s[|s| - 1]]
  }

  predicate AssetsEqual(a: Asset, b: Asset) {
    Upper(a.code) == Upper(b.code) && a.issuer == b.issuer
  }

  /** The same letter, the small and the capital one counting as one. */
  predicate SameLetter(a: char, b: char) {
    a == b || ('a' <= a <= 'z' && b as int == a as int - 32) || ('a' <= b <= 'z' && a as int == b as int - 32)
  }

  lemma {:induction false} UpperAt(s: string)
    ensures |Upper(s)| == |s|
    ensures forall i :: 0 <= i < |s| ==> Upper(s)[i] == if 'a' <= s[i] <= 'z' then (s[i] as int - 32) as char else s[i]
  {
    if s != [] { UpperAt(s[..|s| - 1]); }
  }

  /** Two assets are the same exactly when their codes agree letter by letter, whatever the case, and their issuers agree. */
  lemma AssetsEqualIff(a: Asset, b: Asset)
    ensures AssetsEqual(a, b) <==>
            a.issuer == b.issuer && |a.code| == |b.code| && forall i :: 0 <= i < |a.code| ==> SameLetter(a.code[i], b.code[i])
  {
    UpperAt(a.code);
    UpperAt(b.code);
    if AssetsEqual(a, b) {
      forall i | 0 <= i < |a.code| ensures SameLetter(a.code[i], b.code[i]) {
        assert Upper(a.code)[i] == Upper(b.code)[i];
      }
    }
  }

  /** `fetched` is the provider's answer, if it gave one. */
  function LockRate(g: Group, source: Asset, now: int, fetched: Option<real>): Result<LockedRate> {
    var expiresAt := now + g.rateExpirySeconds * 1000;
    if AssetsEqual(source, g.unitOfAccount) then Ok(LockedRate(1.0, expiresAt))
    else if !g.allowCrossAsset then Err(CrossAssetDisabled)
    else if fetched.None? then Err(FetchFailed)
    else Ok(LockedRate(fetched.value, expiresAt))
  }

  function AtRate(amount: real, rate: real): real {
    amount * rate
  }

  function Normalize(g: Group, amount: real, source: Asset, locked: Option<LockedRate>, now: int, fetched: Option<real>): Result<real> {
    if AssetsEqual(source, g.unitOfAccount) then Ok(amount)
    else
      var rate := if locked.Some? then Ok(locked.value) else LockRate(g, source, now, fetched);
      if rate.Err? then Err(rate.error)
      else if rate.value.expiresAt <= now then Err(RateExpired)
      else Ok(ToFixed7(AtRate(amount, rate.value.rate)))
  }

  /** A member's payment as submitted: the rate is locked and then used to normalise the amount. */
  datatype Payment = Payment(amount: real, source: Asset, lockedAt: int, normalizedAt: int, fetched: Option<real>)

  function Submit(g: Group, p: Payment): Result<real> {
    var rate := LockRate(g, p.source, p.lockedAt, p.fetched);
    if rate.Err? then Err(rate.error) else Normalize(g, p.amount, p.source, Some(rate.value), p.normalizedAt, p.fetched)
  }

  /** The amount at the locked rate, not rounded. */
  function ExactValue(g: Group, p: Payment): real
    requires Submit(g, p).Ok?
  {
    AtRate(p.amount, LockRate(g, p.source, p.lockedAt, p.fetched).value.rate)
  }

  /**
   What the exact value is: the amount itself in the unit of account, and the amount times the fetched
   rate otherwise; and what normalisation makes of it.
   */
  lemma SubmitValue(g: Group, p: Payment)
    requires Submit(g, p).Ok?
    ensures AssetsEqual(p.source, g.unitOfAccount) ==> ExactValue(g, p) == p.amount && Submit(g, p).value == p.amount
    ensures !AssetsEqual(p.source, g.unitOfAccount) ==>
              && p.fetched.Some? && ExactValue(g, p) == p.amount * p.fetched.value
              && SevenPlaces(Submit(g, p).value) && Abs(Submit(g, p).value - p.amount * p.fetched.value) <= HALF_UNIT
  {
    if !AssetsEqual(p.source, g.unitOfAccount) { ToFixedWithinHalf(ExactValue(g, p)); }
  }

  /** Locking a rate: one for the unit of account, the fetched one otherwise, and an expiry in seconds from now. */
  lemma LockedRateIs(g: Group, source: Asset, now: int, fetched: Option<real>)
    ensures var r := LockRate(g, source, now, fetched);
            && (r.Ok? <==> AssetsEqual(source, g.unitOfAccount) || (g.allowCrossAsset && fetched.Some?))
            && (r.Ok? ==> r.value.expiresAt == now + g.rateExpirySeconds * 1000)
            && (r.Ok? && AssetsEqual(source, g.unitOfAccount) ==> r.value.rate == 1.0)
            && (r.Ok? && !AssetsEqual(source, g.unitOfAccount) ==> Some(r.value.rate) == fetched)
            && (r == Err(CrossAssetDisabled) <==> !AssetsEqual(source, g.unitOfAccount) && !g.allowCrossAsset)
  {
  }

  /** A submission succeeds exactly with the unit of account itself, or with a fetched rate that has not run out. */
  lemma SubmitOkIff(g: Group, p: Payment)
    ensures Submit(g, p).Ok? <==>
            (|| AssetsEqual(p.source, g.unitOfAccount)
             || (g.allowCrossAsset && p.fetched.Some? && p.normalizedAt - p.lockedAt < g.rateExpirySeconds * 1000))
  {
  }

  lemma SubmitWithinHalfUnit(g: Group, p: Payment)
    requires Submit(g, p).Ok? && SevenPlaces(p.amount)
    ensures SevenPlaces(Submit(g, p).value)
    ensures Abs(Submit(g, p).value - ExactValue(g, p)) <= HALF_UNIT
    ensures AssetsEqual(p.source, g.unitOfAccount) ==> Submit(g, p).value == p.amount
  {
    var exact := ExactValue(g, p);
    if AssetsEqual(p.source, g.unitOfAccount) {
      assert exact == p.amount;
    } else {
      assert Submit(g, p) == Ok(ToFixed7(exact));
      ToFixedWithinHalf(exact);
    }
  }

  // ---------------------------------------------------------------- the payout of a round

  datatype Row = Row(groupId: string, round: int, confirmed: bool, amount: real, fxRate: Option<real>, normalized: Option<real>)

  function Value(c: Row): real {
    if c.normalized.Some? then c.normalized.value
    else AtRate(c.amount, if c.fxRate.Some? then c.fxRate.value else 1.0)
  }

  function Total(cs: seq<Row>): real {
    if cs == [] then 0.0 else Total(cs[..|cs| - 1]) + Value(cs[|cs| - 1])
  }

  predicate Counts(c: Row, groupId: string, round: int) {
    c.groupId == groupId && c.round == round && c.confirmed
  }

  /** The confirmed contributions of a round, in table order. */
  function Confirmed(rows: seq<Row>, groupId: string, round: int): seq<Row> {
    if rows == [] then []
    else
      var c := rows[|rows| - 1];
      Confirmed(rows[..|rows| - 1], groupId, round) + (if Counts(c, groupId, round) then [c] else [])
  }

  function Payout(rows: seq<Row>, groupId: string, round: int, g: Group): real {
    var cs := Confirmed(rows, groupId, round);
    if cs == [] then g.contributionAmount else ToFixed7(Total(cs))
  }

  method ComputePayoutAmount(rows: seq<Row>, groupId: string, round: int, g: Group) returns (r: real)
    ensures r == Payout(rows, groupId, round, g)
  {
    var contributions := Confirmed(rows, groupId, round);
    if |contributions| == 0 { return g.contributionAmount; }
    var total := 0.0;
    for i := 0 to |contributions|
      invariant total == Total(contributions[..i])
    {
      var c := contributions[i];
      assert contributions[..i + 1][..i] == contributions[..i];
      var amount := if c.normalized.Some? then c.normalized.value else AtRate(c.amount, if c.fxRate.Some? then c.fxRate.value else 1.0);
      total := total + amount;
    }
    assert contributions[..|contributions|] == contributions;
    r := ToFixed7(total);
  }

  // ---------------------------------------------------------------- the payout does not depend on row order

  function Removed(cs: seq<Row>, i: nat): seq<Row>
    requires i < |cs|
  {
    cs[..i] + cs[i + 1..]
  }

  lemma RemovedBeforeLast(cs: seq<Row>, i: nat)
    requires i < |cs| - 1
    ensures Removed(cs, i) == Removed(cs[..|cs| - 1], i) + [cs[|cs| - 1]]
  {
  }

  lemma RemovedElements(cs: seq<Row>, i: nat)
    requires i < |cs|
    ensures multiset(Removed(cs, i)) == multiset(cs) - multiset{cs[i]}
  {
    assert cs == cs[..i] + [cs[i]] + cs[i + 1..];
  }

  lemma TotalSnoc(cs: seq<Row>, c: Row)
    ensures Total(cs + [c]) == Total(cs) + Value(c)
  {
    assert (cs + [c])[..|cs|] == cs;
  }

  lemma {:induction false} TotalRemove(cs: seq<Row>, i: nat)
    requires i < |cs|
    ensures Total(cs) == Total(Removed(cs, i)) + Value(cs[i])
  {
    var init, last := cs[..|cs| - 1], cs[|cs| - 1];
    if i == |cs| - 1 {
      assert Removed(cs, i) == init;
    } else {
      TotalRemove(init, i);
      RemovedBeforeLast(cs, i);
      TotalSnoc(Removed(init, i), last);
    }
  }

  lemma {:induction false} TotalOfPermutation(cs: seq<Row>, ds: seq<Row>)
    requires multiset(cs) == multiset(ds)
    ensures Total(cs) == Total(ds)
  {
    if cs == [] {
      assert |multiset(ds)| == 0;
    } else {
      var n := |cs| - 1;
      assert cs[n] in multiset(ds);
      var i :| 0 <= i < |ds| && ds[i] == cs[n];
      RemovedElements(cs, n);
      RemovedElements(ds, i);
      assert Removed(cs, n) == cs[..n];
      TotalOfPermutation(cs[..n], Removed(ds, i));
      TotalRemove(ds, i);
    }
  }

  /** The rows that count are the confirmed ones of the group and round, each as often as it is there. */
  lemma {:induction false} ConfirmedCount(rows: seq<Row>, groupId: string, round: int, c: Row)
    ensures multiset(Confirmed(rows, groupId, round))[c] ==
              if c.groupId == groupId && c.round == round && c.confirmed then multiset(rows)[c] else 0
  {
    if rows != [] {
      ConfirmedCount(rows[..|rows| - 1], groupId, round, c);
      assert rows == rows[..|rows| - 1] + [rows[|rows| - 1]];
    }
  }

  /** Whatever order the table returns its rows in, the payout is the same. */
  lemma PayoutOrderFree(rows: seq<Row>, others: seq<Row>, groupId: string, round: int, g: Group)
    requires multiset(rows) == multiset(others)
    ensures Payout(rows, groupId, round, g) == Payout(others, groupId, round, g)
  {
    var cs, ds := Confirmed(rows, groupId, round), Confirmed(others, groupId, round);
    forall c ensures multiset(cs)[c] == multiset(ds)[c] {
      ConfirmedCount(rows, groupId, round, c);
      ConfirmedCount(others, groupId, round, c);
    }
    assert multiset(cs) == multiset(ds);
    assert |cs| == |multiset(cs)| && |ds| == |multiset(ds)|;
    TotalOfPermutation(cs, ds);
  }

  // ---------------------------------------------------------------- the payout is exact

  ghost predicate Normalized(cs: seq<Row>) {
    forall i :: 0 <= i < |cs| ==> cs[i].normalized.Some? && SevenPlaces(cs[i].normalized.value)
  }

  lemma SumHasPlaces(x: real, y: real)
    requires SevenPlaces(x) && SevenPlaces(y)
    ensures SevenPlaces(x + y)
  {
    assert (x + y) * SCALE == ((x * SCALE).Floor + (y * SCALE).Floor) as real;
  }

  lemma {:induction false} TotalHasPlaces(cs: seq<Row>)
    requires Normalized(cs)
    ensures SevenPlaces(Total(cs))
  {
    if cs != [] {
      TotalHasPlaces(cs[..|cs| - 1]);
      SumHasPlaces(Total(cs[..|cs| - 1]), Value(cs[|cs| - 1]));
    }
  }

  lemma PayoutIsTotal(rows: seq<Row>, groupId: string, round: int, g: Group)
    requires Normalized(Confirmed(rows, groupId, round)) && Confirmed(rows, groupId, round) != []
    ensures Payout(rows, groupId, round, g) == Total(Confirmed(rows, groupId, round))
  {
    TotalHasPlaces(Confirmed(rows, groupId, round));
    SevenPlacesFixed(Total(Confirmed(rows, groupId, round)));
  }

  function Sum(xs: seq<real>): real {
    if xs == [] then 0.0 else xs[0] + Sum(xs[1..])
  }

  lemma {:induction false} SumSnoc(xs: seq<real>, x: real)
    ensures Sum(xs + [x]) == Sum(xs) + x
  {
    if xs == [] {
      assert xs + [x] == [x];
    } else {
      assert (xs + [x])[1..] == xs[1..] + [x];
      SumSnoc(xs[1..], x);
    }
  }

  ghost function Amounts(cs: seq<Row>): seq<real>
    requires Normalized(cs)
  {
    seq(|cs|, i requires 0 <= i < |cs| => cs[i].normalized.value)
  }

  lemma {:induction false} TotalIsSum(cs: seq<Row>)
    requires Normalized(cs)
    ensures Total(cs) == Sum(Amounts(cs))
  {
    if cs != [] {
      var init := cs[..|cs| - 1];
      TotalIsSum(init);
      assert Amounts(cs) == Amounts(init) + [cs[|cs| - 1].normalized.value];
      SumSnoc(Amounts(init), cs[|cs| - 1].normalized.value);
    }
  }

  lemma {:induction false} NoneConfirmed(rows: seq<Row>, groupId: string, round: int)
    requires forall c :: c in rows ==> c.groupId != groupId || c.round != round || !c.confirmed
    ensures Confirmed(rows, groupId, round) == []
  {
    if rows != [] {
      assert rows[|rows| - 1] in rows;
      NoneConfirmed(rows[..|rows| - 1], groupId, round);
    }
  }

  /** Without a confirmed contribution of the round the payout is the configured amount. */
  lemma PayoutFallback(rows: seq<Row>, groupId: string, round: int, g: Group)
    requires forall c :: c in rows ==> c.groupId != groupId || c.round != round || !c.confirmed
    ensures Payout(rows, groupId, round, g) == g.contributionAmount
  {
    NoneConfirmed(rows, groupId, round);
  }

  /** With normalised contributions no rounding happens: the payout is exactly their sum. */
  lemma PayoutIsExactSum(rows: seq<Row>, groupId: string, round: int, g: Group)
    requires Normalized(Confirmed(rows, groupId, round))
    ensures Confirmed(rows, groupId, round) != [] ==>
              Payout(rows, groupId, round, g) == Sum(Amounts(Confirmed(rows, groupId, round)))
  {
    if Confirmed(rows, groupId, round) != [] { PayoutIsTotal(rows, groupId, round, g); }
    TotalIsSum(Confirmed(rows, groupId, round));
  }

  function RawValue(c: Row): real {
    if c.fxRate.Some? then c.amount * c.fxRate.value else c.amount
  }

  lemma RawValueIs(c: Row)
    requires c.normalized.None?
    ensures Value(c) == RawValue(c)
  {
  }

  /** Rows without a normalised amount: their amounts at their own rates, one where there is none. */
  ghost function Converted(cs: seq<Row>): seq<real> {
    seq(|cs|, i requires 0 <= i < |cs| => RawValue(cs[i]))
  }

  lemma {:induction false} TotalOfRaw(cs: seq<Row>)
    requires forall i :: 0 <= i < |cs| ==> cs[i].normalized.None?
    ensures Total(cs) == Sum(Converted(cs))
  {
    if cs != [] {
      var init, n := cs[..|cs| - 1], |cs| - 1;
      TotalOfRaw(init);
      RawValueIs(cs[n]);
      assert Converted(cs) == Converted(init) + [Converted(cs)[n]];
      SumSnoc(Converted(init), Converted(cs)[n]);
    }
  }

  /** Without normalised amounts only the total is rounded. */
  lemma PayoutOfRawRows(rows: seq<Row>, groupId: string, round: int, g: Group)
    requires Confirmed(rows, groupId, round) != []
    requires forall i :: 0 <= i < |Confirmed(rows, groupId, round)| ==> Confirmed(rows, groupId, round)[i].normalized.None?
    ensures Abs(Payout(rows, groupId, round, g) - Sum(Converted(Confirmed(rows, groupId, round)))) <= HALF_UNIT
  {
    var cs := Confirmed(rows, groupId, round);
    TotalOfRaw(cs);
    ToFixedWithinHalf(Total(cs));
  }

  // ---------------------------------------------------------------- distance from the exact value

  function ExactTotal(g: Group, ps: seq<Payment>): real
    requires forall i :: 0 <= i < |ps| ==> Submit(g, ps[i]).Ok?
  {
    if ps == [] then 0.0 else ExactTotal(g, ps[..|ps| - 1]) + ExactValue(g, ps[|ps| - 1])
  }

  /** Within n half-units of each other. */
  predicate Near(x: real, y: real, n: nat) {
    Abs(x - y) <= n as real * HALF_UNIT
  }

  lemma NearAdds(x: real, y: real, n: nat, u: real, v: real)
    requires Near(x, y, n) && Abs(u - v) <= HALF_UNIT
    ensures Near(x + u, y + v, n + 1)
  {
    assert (n + 1) as real * HALF_UNIT == n as real * HALF_UNIT + HALF_UNIT;
  }

  /** The rows hold what normalisation made of the payments. */
  ghost predicate Recorded(g: Group, ps: seq<Payment>, cs: seq<Row>) {
    && |ps| == |cs|
    && (forall i :: 0 <= i < |ps| ==> SevenPlaces(ps[i].amount))
    && (forall i :: 0 <= i < |ps| ==> Submit(g, ps[i]).Ok? && cs[i].normalized == Some(Submit(g, ps[i]).value))
  }

  lemma RecordedNormalized(g: Group, ps: seq<Payment>, cs: seq<Row>)
    requires Recorded(g, ps, cs)
    ensures Normalized(cs)
  {
    forall i | 0 <= i < |cs| ensures cs[i].normalized.Some? && SevenPlaces(cs[i].normalized.value) {
      SubmitWithinHalfUnit(g, ps[i]);
    }
  }

  lemma {:induction false} TotalNearExact(g: Group, ps: seq<Payment>, cs: seq<Row>)
    requires Recorded(g, ps, cs)
    ensures Near(Total(cs), ExactTotal(g, ps), |ps|)
  {
    if ps != [] {
      var n := |ps| - 1;
      TotalNearExact(g, ps[..n], cs[..n]);
      SubmitWithinHalfUnit(g, ps[n]);
      NearAdds(Total(cs[..n]), ExactTotal(g, ps[..n]), n, Value(cs[n]), ExactValue(g, ps[n]));
    }
  }

  /** A payout of n normalised contributions is within n half-units of their exact value at the locked rates. */
  lemma PayoutNearExact(g: Group, ps: seq<Payment>, rows: seq<Row>, groupId: string, round: int)
    requires ps != [] && Recorded(g, ps, Confirmed(rows, groupId, round))
    ensures Near(Payout(rows, groupId, round, g), ExactTotal(g, ps), |ps|)
  {
    RecordedNormalized(g, ps, Confirmed(rows, groupId, round));
    TotalNearExact(g, ps, Confirmed(rows, groupId, round));
    PayoutIsTotal(rows, groupId, round, g);
  }

  // ---------------------------------------------------------------- the bound is attained

  /** One unit paid at rate one half: it rounds up by half a unit. */
  function Crumb(g: Group): Payment {
    Payment(0.0000001, Asset(g.unitOfAccount.code + "X", None), 0, 0, Some(0.5))
  }

  function Crumbs(g: Group, n: nat): seq<Payment> {
    seq(n, i => Crumb(g))
  }

  lemma CrumbRoundsUp(g: Group)
    requires g.allowCrossAsset && g.rateExpirySeconds > 0
    ensures Submit(g, Crumb(g)) == Ok(0.0000001) && ExactValue(g, Crumb(g)) == HALF_UNIT && SevenPlaces(Crumb(g).amount)
  {
    AssetsEqualIff(Crumb(g).source, g.unitOfAccount);
    assert 0.0000001 * 0.5 * SCALE == 0.5;
    assert RoundHalfUp(0.5) == 1;
  }

  lemma {:induction false} CrumbTotals(g: Group, n: nat, cs: seq<Row>)
    requires g.allowCrossAsset && g.rateExpirySeconds > 0
    requires |cs| == n && forall i :: 0 <= i < n ==> cs[i].normalized == Some(0.0000001)
    ensures Recorded(g, Crumbs(g, n), cs)
    ensures Total(cs) - ExactTotal(g, Crumbs(g, n)) == n as real * HALF_UNIT
  {
    CrumbRoundsUp(g);
    if n > 0 {
      CrumbTotals(g, n - 1, cs[..n - 1]);
      assert Crumbs(g, n)[..n - 1] == Crumbs(g, n - 1);
      assert n as real * HALF_UNIT == (n - 1) as real * HALF_UNIT + HALF_UNIT;
    }
  }

  /** For every n some payments reach the bound, so it cannot be improved. */
  lemma BoundIsAttained(g: Group, rows: seq<Row>, groupId: string, round: int)
    requires g.allowCrossAsset && g.rateExpirySeconds > 0
    requires Confirmed(rows, groupId, round) != []
    requires forall c :: c in Confirmed(rows, groupId, round) ==> c.normalized == Some(0.0000001)
    ensures var ps := Crumbs(g, |Confirmed(rows, groupId, round)|);
            && Recorded(g, ps, Confirmed(rows, groupId, round))
            && Payout(rows, groupId, round, g) - ExactTotal(g, ps) == |ps| as real * HALF_UNIT
  {
    var cs := Confirmed(rows, groupId, round);
    CrumbTotals(g, |cs|, cs);
    RecordedNormalized(g, Crumbs(g, |cs|), cs);
    PayoutIsTotal(rows, groupId, round, g);
  }
}
