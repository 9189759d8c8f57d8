/**
 Who is paid in which round: members join and leave, activation shuffles or checks the payout
 orders. Orders count from 0, rounds from 1.
 */
module PayoutOrder {
  import opened Wrappers

  datatype Strategy = Sequential | Random | AdminDefined

  datatype Status = Pending | Active | Completed

  datatype Member = Member(userId: nat, payoutOrder: Option<int>)

  datatype Outcome = Done | WrongStatus | Full | Duplicate | NotFound | Forbidden | TooFew | OrderMissing | NotContinuous | DeployFailed

  // ---------------------------------------------------------------- orders as a sequence of numbers

  /** n different numbers below n. */
  ghost predicate IsPermutation(s: seq<int>) {
    && (forall i :: 0 <= i < |s| ==> 0 <= s[i] < |s|)
    && (forall i, j :: 0 <= i < j < |s| ==> s[i] != s[j])
  }

  function Iota(n: nat): (s: seq<int>)
    ensures |s| == n && forall i :: 0 <= i < n ==> s[i] == i
  {
    seq(n, i => i)
  }

  lemma {:induction false} DistinctCount(s: seq<int>)
    requires forall i, j :: 0 <= i < j < |s| ==> s[i] != s[j]
    ensures |set x | x in s| == |s|
  {
    if s != [] {
      var t := s[..|s| - 1];
      DistinctCount(t);
      assert (set x | x in s) == (set x | x in t) + {s[|s| - 1]};
    }
  }

  lemma SubsetOfEqualSize(a: set<int>, b: set<int>)
    requires a <= b && |a| == |b|
    ensures a == b
  {
    assert b == a + (b - a);
    assert |b| == |a| + |b - a|;
  }

  /** A permutation hits every number below its length. */
  lemma PermutationHits(s: seq<int>, k: int)
    requires IsPermutation(s) && 0 <= k < |s|
    ensures k in s
  {
    var all := Iota(|s|);
    DistinctCount(s);
    DistinctCount(all);
    assert forall x <- s :: all[x] == x;
    var values, below := set x | x in s, set x | x in all;
    SubsetOfEqualSize(values, below);
    assert all[k] == k && k in below;
  }

  // ---------------------------------------------------------------- joining and leaving

  /** SQL `MAX(payoutOrder)`: nulls do not count. */
  function MaxOrder(ms: seq<Member>): (r: Option<int>)
    ensures r.Some? ==> exists i :: 0 <= i < |ms| && ms[i].payoutOrder == r
    ensures forall i :: 0 <= i < |ms| && ms[i].payoutOrder.Some? ==> r.Some? && ms[i].payoutOrder.value <= r.value
  {
    if ms == [] then None
    else
      var rest := MaxOrder(ms[..|ms| - 1]);
      var last := ms[|ms| - 1].payoutOrder;
      if last.None? || (rest.Some? && last.value <= rest.value) then rest else last
  }

  function NextOrder(ms: seq<Member>): int {
    if MaxOrder(ms).Some? then MaxOrder(ms).value + 1 else 0
  }

  predicate IsMember(ms: seq<Member>, userId: nat) {
    exists i :: 0 <= i < |ms| && ms[i].userId == userId
  }

  function IndexOfUser(ms: seq<Member>, userId: nat): (k: nat)
    requires IsMember(ms, userId)
    ensures k < |ms| && ms[k].userId == userId
  {
    if ms[0].userId == userId then 0 else 1 + IndexOfUser(ms[1..], userId)
  }

  function Add(ms: seq<Member>, status: Status, strategy: Strategy, maxMembers: nat, userId: nat): (seq<Member>, Outcome) {
    if status == Active then (ms, WrongStatus)
    else if |ms| >= maxMembers then (ms, Full)
    else if IsMember(ms, userId) then (ms, Duplicate)
    else (ms + [Member(userId, if strategy == Sequential then Some(NextOrder(ms)) else None)], Done)
  }

  function Without(ms: seq<Member>, k: nat): seq<Member>
    requires k < |ms|
  {
    ms[..k] + ms[k + 1..]
  }

  /** `removeMember`: the gap stays. */
  function Remove(ms: seq<Member>, status: Status, userId: nat): (seq<Member>, Outcome) {
    if status == Active then (ms, WrongStatus)
    else if !IsMember(ms, userId) then (ms, NotFound)
    else (Without(ms, IndexOfUser(ms, userId)), Done)
  }

  /** A number in a comparison or a subtraction: null counts as 0. */
  function AsNumber(o: Option<int>): int {
    if o.Some? then o.value else 0
  }

  /** One turn of the renumbering loop. */
  function Shift(m: Member, departing: Option<int>): Member {
    if AsNumber(m.payoutOrder) > AsNumber(departing) then m.(payoutOrder := Some(AsNumber(m.payoutOrder) - 1)) else m
  }

  function Renumber(ms: seq<Member>, departing: Option<int>): (r: seq<Member>)
    ensures |r| == |ms| && forall i :: 0 <= i < |ms| ==> r[i] == Shift(ms[i], departing)
  {
    seq(|ms|, i requires 0 <= i < |ms| => Shift(ms[i], departing))
  }

  /** `leaveGroup`: the members behind the departing one move up. */
  function Leave(ms: seq<Member>, status: Status, userId: nat): (seq<Member>, Outcome) {
    if status != Pending then (ms, WrongStatus)
    else if !IsMember(ms, userId) then (ms, NotFound)
    else
      var k := IndexOfUser(ms, userId);
      (Renumber(Without(ms, k), ms[k].payoutOrder), Done)
  }

  // ---------------------------------------------------------------- activation

  function Swap(s: seq<int>, i: nat, j: nat): (r: seq<int>)
    requires i < |s| && j < |s|
    ensures |r| == |s|
  {
    s[i := s[j]][j := s[i]]
  }

  /** The draws that `Math.floor(Math.random() * (i + 1))` can give for i, i - 1, ..., 1. */
  ghost predicate ValidDraws(i: nat, draws: seq<nat>) {
    |draws| == i && forall k :: 0 <= k < i ==> draws[k] <= i - k
  }

  /** The shuffle from position i down to position 1. */
  function ShuffleFrom(s: seq<int>, i: nat, draws: seq<nat>): (r: seq<int>)
    requires i < |s| || (i == 0 && s == [])
    requires ValidDraws(i, draws)
    ensures |r| == |s|
    decreases i
  {
    if i == 0 then s else ShuffleFrom(Swap(s, i, draws[0]), i - 1, draws[1..])
  }

  function Shuffled(n: nat, draws: seq<nat>): seq<int>
    requires ValidDraws(if n == 0 then 0 else n - 1, draws)
  {
    ShuffleFrom(Iota(n), if n == 0 then 0 else n - 1, draws)
  }

  function Insert(x: int, s: seq<int>): seq<int> {
    if s == [] || x <= s[0] then [x] + s else [s[0]] + Insert(x, s[1..])
  }

  /** `[...orders].sort((a, b) => a - b)` */
  function Sort(s: seq<int>): (r: seq<int>)
    ensures |r| == |s|
  {
    if s == [] then [] else
      InsertLength(s[0], Sort(s[1..]));
      Insert(s[0], Sort(s[1..]))
  }

  lemma {:induction false} InsertLength(x: int, s: seq<int>)
    ensures |Insert(x, s)| == |s| + 1
  {
    if s != [] && x > s[0] {
      InsertLength(x, s[1..]);
    }
  }

  function Orders(ms: seq<Member>): (s: seq<int>)
    requires forall m <- ms :: m.payoutOrder.Some?
    ensures |s| == |ms| && forall i :: 0 <= i < |s| ==> s[i] == ms[i].payoutOrder.value
  {
    seq(|ms|, i requires 0 <= i < |ms| => ms[i].payoutOrder.value)
  }

  function WithOrders(ms: seq<Member>, orders: seq<int>): (r: seq<Member>)
    requires |orders| == |ms|
    ensures |r| == |ms| && forall i :: 0 <= i < |r| ==> r[i] == ms[i].(payoutOrder := Some(orders[i]))
  {
    seq(|ms|, i requires 0 <= i < |ms| => ms[i].(payoutOrder := Some(orders[i])))
  }

  /** What activation changes in a group. */
  datatype Standing = Standing(members: seq<Member>, status: Status, currentRound: nat)

  /** The members with the orders that a strategy gives them. */
  function Ordered(ms: seq<Member>, strategy: Strategy, draws: seq<nat>): seq<Member>
    requires ValidDraws(if |ms| == 0 then 0 else |ms| - 1, draws)
  {
    if strategy == Random then WithOrders(ms, Shuffled(|ms|, draws)) else ms
  }

  /** `activateGroup`: after a failed deployment the group is pending again, with the orders it was given. */
  function Activated(g: Standing, strategy: Strategy, minMembers: nat, draws: seq<nat>, isAdmin: bool, deployed: bool): (Standing, Outcome)
    requires ValidDraws(if |g.members| == 0 then 0 else |g.members| - 1, draws)
  {
    if !isAdmin then (g, Forbidden)
    else if g.status != Pending then (g, WrongStatus)
    else if |g.members| < minMembers then (g, TooFew)
    else if strategy == AdminDefined && exists i :: 0 <= i < |g.members| && g.members[i].payoutOrder.None? then (g, OrderMissing)
    else if strategy == AdminDefined && Sort(Orders(g.members)) != Iota(|g.members|) then (g, NotContinuous)
    else if deployed then (Standing(Ordered(g.members, strategy, draws), Active, 1), Done)
    else (Standing(Ordered(g.members, strategy, draws), Pending, 0), DeployFailed)
  }

  // ---------------------------------------------------------------- the group

  class Group {
    var members: seq<Member>
    var status: Status
    var currentRound: nat
    const strategy: Strategy
    const minMembers: nat
    const maxMembers: nat

    constructor (strategy: Strategy, minMembers: nat, maxMembers: nat)
      ensures members == [] && status == Pending && currentRound == 0
      ensures this.strategy == strategy && this.minMembers == minMembers && this.maxMembers == maxMembers
    {
      members, status, currentRound := [], Pending, 0;
      this.strategy, this.minMembers, this.maxMembers := strategy, minMembers, maxMembers;
    }

    method AddMember(userId: nat) returns (r: Outcome)
      modifies this`members
      ensures (members, r) == Add(old(members), status, strategy, maxMembers, userId)
    {
      if status == Active { return WrongStatus; }
      if |members| >= maxMembers { return Full; }
      if IsMember(members, userId) { return Duplicate; }
      var order: Option<int> := None;
      if strategy == Sequential {
        var max := MaxOrder(members);
        order := Some(if max.Some? then max.value + 1 else 0);
      }
      members := members + [Member(userId, order)];
      r := Done;
    }

    method RemoveMember(userId: nat) returns (r: Outcome)
      modifies this`members
      ensures (members, r) == Remove(old(members), status, userId)
    {
      if status == Active { return WrongStatus; }
      if !IsMember(members, userId) { return NotFound; }
      var k := IndexOfUser(members, userId);
      members := members[..k] + members[k + 1..];
      r := Done;
    }

    method LeaveGroup(userId: nat) returns (r: Outcome)
      modifies this`members
      ensures (members, r) == Leave(old(members), status, userId)
    {
      if status != Pending { return WrongStatus; }
      if !IsMember(members, userId) { return NotFound; }
      var k := IndexOfUser(members, userId);
      var departing := members[k].payoutOrder;
      members := members[..k] + members[k + 1..];
      ghost var remaining := members;
      var i := 0;
      while i < |members|
        invariant 0 <= i <= |members| == |remaining|
        invariant forall j :: 0 <= j < i ==> members[j] == Shift(remaining[j], departing)
        invariant forall j :: i <= j < |members| ==> members[j] == remaining[j]
      {
        if AsNumber(members[i].payoutOrder) > AsNumber(departing) {
          members := members[i := members[i].(payoutOrder := Some(AsNumber(members[i].payoutOrder) - 1))];
        }
        i := i + 1;
      }
      assert members == Renumber(remaining, departing);
      r := Done;
    }

    /** `deployed` is the outcome of the contract deployment. */
    method Activate(draws: seq<nat>, isAdmin: bool, deployed: bool) returns (r: Outcome)
      requires ValidDraws(if |members| == 0 then 0 else |members| - 1, draws)
      modifies this
      ensures (Standing(members, status, currentRound), r) ==
              Activated(old(Standing(members, status, currentRound)), strategy, minMembers, draws, isAdmin, deployed)
    {
      if !isAdmin { return Forbidden; }
      if status != Pending { return WrongStatus; }
      if |members| < minMembers { return TooFew; }
      if strategy == Random {
        var indices := ShuffleIndices(|members|, draws);
        AssignOrders(indices);
      } else if strategy == AdminDefined {
        if exists i :: 0 <= i < |members| && members[i].payoutOrder.None? { return OrderMissing; }
        var sorted := Sort(Orders(members));
        var i := 0;
        while i < |members|
          invariant 0 <= i <= |members| == |sorted|
          invariant forall j :: 0 <= j < i ==> sorted[j] == j
        {
          if sorted[i] != i { return NotContinuous; }
          i := i + 1;
        }
        assert sorted == Iota(|members|);
      }
      status := Active;
      currentRound := 1;
      if !deployed {
        status := Pending;
        currentRound := 0;
        return DeployFailed;
      }
      r := Done;
    }

    /** The loop that writes the shuffled indices into the members. */
    method AssignOrders(indices: array<int>)
      requires indices.Length == |members|
      modifies this`members
      ensures members == WithOrders(old(members), indices[..])
    {
      var i := 0;
      while i < |members|
        invariant 0 <= i <= |members| == |old(members)|
        invariant forall j :: 0 <= j < i ==> members[j] == old(members)[j].(payoutOrder := Some(indices[j]))
        invariant forall j :: i <= j < |members| ==> members[j] == old(members)[j]
      {
        members := members[i := members[i].(payoutOrder := Some(indices[i]))];
        i := i + 1;
      }
    }
  }

  /** The in-place Fisher-Yates shuffle of 0, ..., n - 1. */
  method ShuffleIndices(n: nat, draws: seq<nat>) returns (indices: array<int>)
    requires ValidDraws(if n == 0 then 0 else n - 1, draws)
    ensures fresh(indices) && indices[..] == Shuffled(n, draws)
  {
    indices := new int[n](i => i);
    assert indices[..] == Iota(n);
    if n == 0 { return; }
    var i, rest := n - 1, draws;
    while i > 0
      invariant 0 <= i < n
      invariant ValidDraws(i, rest)
      invariant ShuffleFrom(indices[..], i, rest) == Shuffled(n, draws)
    {
      var j := rest[0];
      ghost var before := indices[..];
      indices[i], indices[j] := indices[j], indices[i];
      assert indices[..] == Swap(before, i, j);
      i, rest := i - 1, rest[1..];
    }
  }

  // ---------------------------------------------------------------- runs of joins and departures

  datatype Event = Join(userId: nat) | Depart(userId: nat) | Expel(userId: nat)

  function Step(ms: seq<Member>, status: Status, maxMembers: nat, e: Event): seq<Member> {
    match e
    case Join(u) => Add(ms, status, Sequential, maxMembers, u).0
    case Depart(u) => Leave(ms, status, u).0
    case Expel(u) => Remove(ms, status, u).0
  }

  /** A run of a SEQUENTIAL group. */
  function Run(ms: seq<Member>, status: Status, maxMembers: nat, es: seq<Event>): seq<Member>
    decreases |es|
  {
    if es == [] then ms else Run(Step(ms, status, maxMembers, es[0]), status, maxMembers, es[1..])
  }

  ghost predicate AllOrdered(ms: seq<Member>) {
    forall m <- ms :: m.payoutOrder.Some?
  }

  /** Assigned orders are different and not negative; null is allowed. */
  ghost predicate DistinctOrders(ms: seq<Member>) {
    && (forall i :: 0 <= i < |ms| && ms[i].payoutOrder.Some? ==> ms[i].payoutOrder.value >= 0)
    && (forall i, j :: 0 <= i < j < |ms| && ms[i].payoutOrder.Some? ==> ms[i].payoutOrder != ms[j].payoutOrder)
  }

  /** Orders 0, ..., n - 1, each exactly once, in a group within its capacity. */
  ghost predicate Sequenced(ms: seq<Member>, maxMembers: nat) {
    AllOrdered(ms) && IsPermutation(Orders(ms)) && |ms| <= maxMembers
  }

  lemma NextIsCount(ms: seq<Member>)
    requires AllOrdered(ms) && IsPermutation(Orders(ms))
    ensures NextOrder(ms) == |ms|
  {
    var n := |ms|;
    if n > 0 {
      PermutationHits(Orders(ms), n - 1);
      var i :| 0 <= i < n && Orders(ms)[i] == n - 1;
      var j :| 0 <= j < n && ms[j].payoutOrder == MaxOrder(ms);
      assert Orders(ms)[j] == MaxOrder(ms).value;
    }
  }

  lemma AddKeepsSequenced(ms: seq<Member>, status: Status, maxMembers: nat, u: nat)
    requires Sequenced(ms, maxMembers)
    ensures Sequenced(Add(ms, status, Sequential, maxMembers, u).0, maxMembers)
  {
    var r := Add(ms, status, Sequential, maxMembers, u).0;
    if r != ms {
      NextIsCount(ms);
      assert forall i :: 0 <= i < |ms| ==> Orders(r)[i] == Orders(ms)[i];
    }
  }

  /** The member at a position of the sequence without position k. */
  function Origin(k: nat, i: nat): nat { if i < k then i else i + 1 }

  lemma LeaveOrders(ms: seq<Member>, k: nat)
    requires k < |ms| && AllOrdered(ms) && DistinctOrders(ms)
    ensures var r := Renumber(Without(ms, k), ms[k].payoutOrder);
            && |r| == |ms| - 1 && AllOrdered(r)
            && forall i :: 0 <= i < |r| ==> r[i] == Shift(ms[Origin(k, i)], ms[k].payoutOrder) && Origin(k, i) < |ms|
  {
  }

  /** Closing the gap that one number leaves behind. */
  lemma GapClosed(s: seq<int>, k: nat, t: seq<int>)
    requires IsPermutation(s) && k < |s| && |t| == |s| - 1
    requires forall i :: 0 <= i < |t| ==> t[i] == (if s[Origin(k, i)] > s[k] then s[Origin(k, i)] - 1 else s[Origin(k, i)])
    ensures IsPermutation(t)
  {
    forall i | 0 <= i < |t| ensures s[Origin(k, i)] != s[k] && 0 <= t[i] < |t| {
      assert Origin(k, i) < k || k < Origin(k, i) < |s|;
    }
  }

  lemma LeaveKeepsSequenced(ms: seq<Member>, status: Status, maxMembers: nat, u: nat)
    requires Sequenced(ms, maxMembers)
    ensures Sequenced(Leave(ms, status, u).0, maxMembers)
  {
    if status == Pending && IsMember(ms, u) {
      var k := IndexOfUser(ms, u);
      OrdersDistinct(ms);
      LeaveOrders(ms, k);
      var r := Leave(ms, status, u).0;
      forall i | 0 <= i < |r|
        ensures Orders(r)[i] == (if Orders(ms)[Origin(k, i)] > Orders(ms)[k] then Orders(ms)[Origin(k, i)] - 1 else Orders(ms)[Origin(k, i)])
      {
        assert ms[Origin(k, i)] in ms && ms[k] in ms;
      }
      GapClosed(Orders(ms), k, Orders(r));
    }
  }

  lemma OrdersDistinct(ms: seq<Member>)
    requires AllOrdered(ms) && IsPermutation(Orders(ms))
    ensures DistinctOrders(ms)
  {
    forall i | 0 <= i < |ms| ensures ms[i].payoutOrder == Some(Orders(ms)[i]) {
      assert ms[i] in ms;
    }
  }

  /** Joining and leaving keep the orders of a SEQUENTIAL group an exact permutation, within capacity. */
  lemma {:induction false} SequentialRunIsPermutation(ms: seq<Member>, status: Status, maxMembers: nat, es: seq<Event>)
    requires Sequenced(ms, maxMembers) && forall e <- es :: !e.Expel?
    ensures Sequenced(Run(ms, status, maxMembers, es), maxMembers)
    decreases |es|
  {
    if es != [] {
      var e := es[0];
      AddKeepsSequenced(ms, status, maxMembers, e.userId);
      LeaveKeepsSequenced(ms, status, maxMembers, e.userId);
      SequentialRunIsPermutation(Step(ms, status, maxMembers, e), status, maxMembers, es[1..]);
    }
  }

  /** Leaving preserves who comes before whom; joining appends. */
  lemma LeavePreservesRelativeOrder(ms: seq<Member>, k: nat, i: nat, j: nat)
    requires AllOrdered(ms) && DistinctOrders(ms) && k < |ms| && i < |ms| - 1 && j < |ms| - 1
    ensures var r := Renumber(Without(ms, k), ms[k].payoutOrder);
            && |r| == |ms| - 1 && r[i].userId == ms[Origin(k, i)].userId && r[j].userId == ms[Origin(k, j)].userId
            && r[i].payoutOrder.Some? && r[j].payoutOrder.Some?
            && (r[i].payoutOrder.value < r[j].payoutOrder.value
                <==> ms[Origin(k, i)].payoutOrder.value < ms[Origin(k, j)].payoutOrder.value)
  {
    LeaveOrders(ms, k);
    var a, b := ms[Origin(k, i)], ms[Origin(k, j)];
    assert a in ms && b in ms && ms[k] in ms;
    assert a.payoutOrder != ms[k].payoutOrder && b.payoutOrder != ms[k].payoutOrder;
  }

  // ---------------------------------------------------------------- runs with removals

  lemma AddKeepsDistinct(ms: seq<Member>, status: Status, maxMembers: nat, u: nat)
    requires AllOrdered(ms) && DistinctOrders(ms)
    ensures AllOrdered(Add(ms, status, Sequential, maxMembers, u).0)
    ensures DistinctOrders(Add(ms, status, Sequential, maxMembers, u).0)
  {
    if MaxOrder(ms).Some? {
      var i :| 0 <= i < |ms| && ms[i].payoutOrder == MaxOrder(ms);
    }
  }

  lemma RemoveKeepsDistinct(ms: seq<Member>, k: nat)
    requires AllOrdered(ms) && DistinctOrders(ms) && k < |ms|
    ensures AllOrdered(Without(ms, k)) && DistinctOrders(Without(ms, k))
  {
    assert forall i :: 0 <= i < |ms| - 1 ==> Without(ms, k)[i] == ms[Origin(k, i)];
  }

  lemma LeaveKeepsDistinct(ms: seq<Member>, k: nat)
    requires AllOrdered(ms) && DistinctOrders(ms) && k < |ms|
    ensures AllOrdered(Renumber(Without(ms, k), ms[k].payoutOrder))
    ensures DistinctOrders(Renumber(Without(ms, k), ms[k].payoutOrder))
  {
    var r := Renumber(Without(ms, k), ms[k].payoutOrder);
    LeaveOrders(ms, k);
    assert ms[k] in ms;
    forall i | 0 <= i < |r| ensures ms[Origin(k, i)].payoutOrder.Some? && ms[Origin(k, i)].payoutOrder != ms[k].payoutOrder {
      assert ms[Origin(k, i)] in ms;
    }
  }

  /** With removals in the run the orders stay different and non-negative. */
  lemma {:induction false} SequentialRunIsDistinct(ms: seq<Member>, status: Status, maxMembers: nat, es: seq<Event>)
    requires AllOrdered(ms) && DistinctOrders(ms)
    ensures AllOrdered(Run(ms, status, maxMembers, es)) && DistinctOrders(Run(ms, status, maxMembers, es))
    decreases |es|
  {
    if es != [] {
      StepKeepsDistinct(ms, status, maxMembers, es[0]);
      SequentialRunIsDistinct(Step(ms, status, maxMembers, es[0]), status, maxMembers, es[1..]);
    }
  }

  lemma StepKeepsDistinct(ms: seq<Member>, status: Status, maxMembers: nat, e: Event)
    requires AllOrdered(ms) && DistinctOrders(ms)
    ensures AllOrdered(Step(ms, status, maxMembers, e)) && DistinctOrders(Step(ms, status, maxMembers, e))
  {
    match e
    case Join(u) => AddKeepsDistinct(ms, status, maxMembers, u);
    case Depart(u) => if IsMember(ms, u) { LeaveKeepsDistinct(ms, IndexOfUser(ms, u)); }
    case Expel(u) => if IsMember(ms, u) { RemoveKeepsDistinct(ms, IndexOfUser(ms, u)); }
  }

  /** One member is paid before another. */
  ghost predicate Precedes(ms: seq<Member>, u: nat, v: nat) {
    exists i, j :: 0 <= i < |ms| && 0 <= j < |ms| && PrecedesAt(ms, u, v, i, j)
  }

  ghost predicate PrecedesAt(ms: seq<Member>, u: nat, v: nat, i: nat, j: nat)
    requires i < |ms| && j < |ms|
  {
    && ms[i].userId == u && ms[j].userId == v
    && ms[i].payoutOrder.Some? && ms[j].payoutOrder.Some? && ms[i].payoutOrder.value < ms[j].payoutOrder.value
  }

  /** Where a member at position i stands once position k is gone. */
  function Position(k: nat, i: nat): nat
    requires i != k
  {
    if i < k then i else i - 1
  }

  lemma RemovalKeepsPrecedesAt(ms: seq<Member>, u: nat, v: nat, k: nat, i: nat, j: nat)
    requires k < |ms| && i < |ms| && j < |ms| && i != k && j != k && PrecedesAt(ms, u, v, i, j)
    ensures Precedes(Without(ms, k), u, v)
  {
    WithoutAt(ms, k);
    assert Origin(k, Position(k, i)) == i && Origin(k, Position(k, j)) == j;
    assert PrecedesAt(Without(ms, k), u, v, Position(k, i), Position(k, j));
  }

  lemma DepartureKeepsPrecedesAt(ms: seq<Member>, u: nat, v: nat, k: nat, i: nat, j: nat)
    requires AllOrdered(ms) && DistinctOrders(ms)
    requires k < |ms| && i < |ms| && j < |ms| && i != k && j != k && PrecedesAt(ms, u, v, i, j)
    ensures var r := Renumber(Without(ms, k), ms[k].payoutOrder);
            Precedes(r, u, v)
  {
    assert Origin(k, Position(k, i)) == i && Origin(k, Position(k, j)) == j;
    LeavePreservesRelativeOrder(ms, k, Position(k, i), Position(k, j));
    assert PrecedesAt(Renumber(Without(ms, k), ms[k].payoutOrder), u, v, Position(k, i), Position(k, j));
  }

  lemma DepartureKeepsPrecedes(ms: seq<Member>, u: nat, v: nat, w: nat)
    requires AllOrdered(ms) && DistinctOrders(ms) && Precedes(ms, u, v) && w != u && w != v && IsMember(ms, w)
    ensures Precedes(Leave(ms, Pending, w).0, u, v)
    ensures Precedes(Remove(ms, Pending, w).0, u, v)
  {
    var i, j :| 0 <= i < |ms| && 0 <= j < |ms| && PrecedesAt(ms, u, v, i, j);
    var k := IndexOfUser(ms, w);
    assert i != k && j != k;
    DepartureKeepsPrecedesAt(ms, u, v, k, i, j);
    RemovalKeepsPrecedesAt(ms, u, v, k, i, j);
  }

  lemma JoinKeepsPrecedes(ms: seq<Member>, u: nat, v: nat, status: Status, maxMembers: nat, w: nat)
    requires Precedes(ms, u, v)
    ensures Precedes(Add(ms, status, Sequential, maxMembers, w).0, u, v)
  {
    var i, j :| 0 <= i < |ms| && 0 <= j < |ms| && PrecedesAt(ms, u, v, i, j);
    assert PrecedesAt(Add(ms, status, Sequential, maxMembers, w).0, u, v, i, j);
  }

  /** Two members who stay keep their places relative to each other, whoever else comes and goes. */
  lemma {:induction false} RelativeOrderKept(ms: seq<Member>, status: Status, maxMembers: nat, es: seq<Event>, u: nat, v: nat)
    requires AllOrdered(ms) && DistinctOrders(ms) && Precedes(ms, u, v)
    requires forall e <- es :: e.Join? || (e.userId != u && e.userId != v)
    ensures Precedes(Run(ms, status, maxMembers, es), u, v)
    decreases |es|
  {
    if es != [] {
      StepKeepsDistinct(ms, status, maxMembers, es[0]);
      StepKeepsPrecedes(ms, status, maxMembers, es[0], u, v);
      RelativeOrderKept(Step(ms, status, maxMembers, es[0]), status, maxMembers, es[1..], u, v);
    }
  }

  lemma StepKeepsPrecedes(ms: seq<Member>, status: Status, maxMembers: nat, e: Event, u: nat, v: nat)
    requires AllOrdered(ms) && DistinctOrders(ms) && Precedes(ms, u, v)
    requires e.Join? || (e.userId != u && e.userId != v)
    ensures Precedes(Step(ms, status, maxMembers, e), u, v)
  {
    if e.Join? {
      JoinKeepsPrecedes(ms, u, v, status, maxMembers, e.userId);
    } else if IsMember(ms, e.userId) {
      DepartureKeepsPrecedes(ms, u, v, e.userId);
    }
  }

  // ---------------------------------------------------------------- who may join and leave

  ghost predicate UsersDistinct(ms: seq<Member>) {
    forall i, j :: 0 <= i < j < |ms| ==> ms[i].userId != ms[j].userId
  }

  /** An order right behind all others: one more than the greatest, or 0 when there is none. */
  ghost predicate RightBehind(ms: seq<Member>, order: int) {
    && (forall i :: 0 <= i < |ms| && ms[i].payoutOrder.Some? ==> ms[i].payoutOrder.value < order)
    && if exists i :: 0 <= i < |ms| && ms[i].payoutOrder.Some? then exists i :: 0 <= i < |ms| && ms[i].payoutOrder == Some(order - 1)
       else order == 0
  }

  /** A join succeeds exactly for a new user of a group that is not ACTIVE and not full, who then comes last. */
  lemma JoinsIff(ms: seq<Member>, status: Status, strategy: Strategy, maxMembers: nat, u: nat)
    ensures var (r, o) := Add(ms, status, strategy, maxMembers, u);
            && (o == Done <==> status != Active && |ms| < maxMembers && forall i :: 0 <= i < |ms| ==> ms[i].userId != u)
            && (o == Done ==>
                  && |r| == |ms| + 1 && r[..|ms|] == ms && r[|ms|].userId == u
                  && (strategy == Sequential ==> r[|ms|].payoutOrder.Some? && RightBehind(ms, r[|ms|].payoutOrder.value))
                  && (strategy != Sequential ==> r[|ms|].payoutOrder.None?))
            && (o != Done ==> r == ms)
  {
    var max := MaxOrder(ms);
    if i :| 0 <= i < |ms| && ms[i].payoutOrder.Some? {
      assert max.Some?;
      var j :| 0 <= j < |ms| && ms[j].payoutOrder == max;
      assert ms[j].payoutOrder == Some(NextOrder(ms) - 1);
    } else {
      assert max.None?;
    }
  }

  /** A removal succeeds exactly for a member of a group that is not ACTIVE, a departure for one of a PENDING group. */
  lemma LeavesIff(ms: seq<Member>, status: Status, u: nat)
    ensures (Remove(ms, status, u).1 == Done <==> status != Active && exists i :: 0 <= i < |ms| && ms[i].userId == u)
    ensures (Leave(ms, status, u).1 == Done <==> status == Pending && exists i :: 0 <= i < |ms| && ms[i].userId == u)
    ensures Remove(ms, status, u).1 != Done ==> Remove(ms, status, u).0 == ms
    ensures Leave(ms, status, u).1 != Done ==> Leave(ms, status, u).0 == ms
  {
  }

  lemma WithoutMembers(ms: seq<Member>, k: nat)
    requires UsersDistinct(ms) && k < |ms|
    ensures forall m :: m in Without(ms, k) <==> m in ms && m.userId != ms[k].userId
  {
    WithoutAt(ms, k);
    var w := Without(ms, k);
    forall m | m in w ensures m in ms && m.userId != ms[k].userId {
      var i :| 0 <= i < |w| && w[i] == m;
      assert w[i] == ms[Origin(k, i)];
      assert Origin(k, i) < k || k < Origin(k, i) < |ms|;
    }
    forall m | m in ms && m.userId != ms[k].userId ensures m in w {
      var i :| 0 <= i < |ms| && ms[i] == m;
      assert w[Position(k, i)] == ms[Origin(k, Position(k, i))];
    }
  }

  /** Who is gone after a removal is the user, and the others are as they were. */
  lemma OnlyTheUserGoes(ms: seq<Member>, u: nat)
    requires UsersDistinct(ms) && IsMember(ms, u)
    ensures forall m :: m in Remove(ms, Pending, u).0 <==> m in ms && m.userId != u
  {
    WithoutMembers(ms, IndexOfUser(ms, u));
  }

  lemma SameUsers(ms: seq<Member>, departing: Option<int>, v: nat)
    ensures IsMember(Renumber(ms, departing), v) <==> IsMember(ms, v)
  {
    var r := Renumber(ms, departing);
    assert forall i :: 0 <= i < |ms| ==> r[i].userId == ms[i].userId;
  }

  /** The same for a departure, which changes the others' orders only. */
  lemma OnlyTheUserLeaves(ms: seq<Member>, u: nat, v: nat)
    requires UsersDistinct(ms) && IsMember(ms, u)
    ensures IsMember(Leave(ms, Pending, u).0, v) <==> IsMember(ms, v) && v != u
  {
    var k := IndexOfUser(ms, u);
    WithoutMembers(ms, k);
    SameUsers(Without(ms, k), ms[k].payoutOrder, v);
    if IsMember(ms, v) && v != u {
      var i :| 0 <= i < |ms| && ms[i].userId == v;
      assert ms[i] in Without(ms, k);
    }
    if i :| 0 <= i < |Without(ms, k)| && Without(ms, k)[i].userId == v {
      assert Without(ms, k)[i] in Without(ms, k);
    }
  }

  lemma GoneKeepsDistinct(ms: seq<Member>, k: nat, r: seq<Member>)
    requires UsersDistinct(ms) && k < |ms| && |r| == |ms| - 1
    requires forall i :: 0 <= i < |r| ==> r[i].userId == ms[Origin(k, i)].userId
    ensures UsersDistinct(r)
  {
    forall i, j | 0 <= i < j < |r| ensures r[i].userId != r[j].userId {
      assert Origin(k, i) < Origin(k, j) < |ms|;
    }
  }

  lemma StepKeepsUsersDistinct(ms: seq<Member>, status: Status, maxMembers: nat, e: Event)
    requires UsersDistinct(ms)
    ensures UsersDistinct(Step(ms, status, maxMembers, e))
  {
    var r := Step(ms, status, maxMembers, e);
    if !e.Join? && r != ms {
      var k := IndexOfUser(ms, e.userId);
      WithoutAt(ms, k);
      GoneKeepsDistinct(ms, k, r);
    }
  }

  /** In every run of joins, departures and removals nobody is a member twice. */
  lemma {:induction false} NobodyJoinsTwice(ms: seq<Member>, status: Status, maxMembers: nat, es: seq<Event>)
    requires UsersDistinct(ms)
    ensures UsersDistinct(Run(ms, status, maxMembers, es))
    decreases |es|
  {
    if es != [] {
      StepKeepsUsersDistinct(ms, status, maxMembers, es[0]);
      NobodyJoinsTwice(Step(ms, status, maxMembers, es[0]), status, maxMembers, es[1..]);
    }
  }

  /** While a group is ACTIVE no join, departure or removal changes its members. */
  lemma {:induction false} ActiveGroupIsClosed(ms: seq<Member>, maxMembers: nat, es: seq<Event>)
    ensures Run(ms, Active, maxMembers, es) == ms
    decreases |es|
  {
    if es != [] { ActiveGroupIsClosed(ms, maxMembers, es[1..]); }
  }

  // ---------------------------------------------------------------- leaving without an order

  ghost predicate HasOrder(ms: seq<Member>, o: int) {
    exists i :: 0 <= i < |ms| && ms[i].payoutOrder == Some(o)
  }

  /**
   A member without an order counts as order 0 when it leaves. The remaining orders stay different
   exactly when the member had an order, or the others do not hold both 0 and 1.
   */
  lemma LeaveKeepsDistinctIff(ms: seq<Member>, k: nat)
    requires DistinctOrders(ms) && k < |ms|
    ensures DistinctOrders(Renumber(Without(ms, k), ms[k].payoutOrder))
       <==> ms[k].payoutOrder.Some? || !(HasOrder(ms, 0) && HasOrder(ms, 1))
  {
    if ms[k].payoutOrder.None? && HasOrder(ms, 0) && HasOrder(ms, 1) {
      UnassignedLeaveCollides(ms, k);
    } else {
      LeaveOrAssignedKeeps(ms, k);
    }
  }

  lemma WithoutAt(ms: seq<Member>, k: nat)
    requires k < |ms|
    ensures |Without(ms, k)| == |ms| - 1
    ensures forall i :: 0 <= i < |ms| - 1 ==> Without(ms, k)[i] == ms[Origin(k, i)]
  {
  }

  lemma UnassignedLeaveCollides(ms: seq<Member>, k: nat)
    requires k < |ms| && ms[k].payoutOrder.None? && HasOrder(ms, 0) && HasOrder(ms, 1)
    ensures !DistinctOrders(Renumber(Without(ms, k), None))
  {
    WithoutAt(ms, k);
    var r := Renumber(Without(ms, k), None);
    var a :| 0 <= a < |ms| && ms[a].payoutOrder == Some(0);
    var b :| 0 <= b < |ms| && ms[b].payoutOrder == Some(1);
    var i, j := if a < k then a else a - 1, if b < k then b else b - 1;
    assert Origin(k, i) == a && Origin(k, j) == b;
    assert r[i].payoutOrder == Some(0) && r[j].payoutOrder == Some(0) && i != j;
  }

  lemma LeaveOrAssignedKeeps(ms: seq<Member>, k: nat)
    requires DistinctOrders(ms) && k < |ms|
    requires ms[k].payoutOrder.Some? || !(HasOrder(ms, 0) && HasOrder(ms, 1))
    ensures DistinctOrders(Renumber(Without(ms, k), ms[k].payoutOrder))
  {
    WithoutAt(ms, k);
    var d := ms[k].payoutOrder;
    var w := Without(ms, k);
    var r := Renumber(w, d);
    forall i, j | 0 <= i < j < |r| && r[i].payoutOrder.Some? ensures r[i].payoutOrder != r[j].payoutOrder {
      var a, b := ms[Origin(k, i)], ms[Origin(k, j)];
      assert w[i] == a && w[j] == b;
      assert a.payoutOrder.Some? ==> a.payoutOrder != b.payoutOrder;
      assert d.Some? && a.payoutOrder.Some? ==> a.payoutOrder != d;
      assert d.Some? && b.payoutOrder.Some? ==> b.payoutOrder != d;
    }
    forall i | 0 <= i < |r| && r[i].payoutOrder.Some? ensures r[i].payoutOrder.value >= 0 {
      assert w[i] == ms[Origin(k, i)];
    }
  }

  // ---------------------------------------------------------------- the shuffle

  lemma SwapKeepsPermutation(s: seq<int>, i: nat, j: nat)
    requires IsPermutation(s) && i < |s| && j < |s|
    ensures IsPermutation(Swap(s, i, j))
  {
  }

  lemma {:induction false} ShuffleKeepsPermutation(s: seq<int>, i: nat, draws: seq<nat>)
    requires IsPermutation(s) && (i < |s| || (i == 0 && s == [])) && ValidDraws(i, draws)
    ensures IsPermutation(ShuffleFrom(s, i, draws))
    decreases i
  {
    if i > 0 {
      SwapKeepsPermutation(s, i, draws[0]);
      ShuffleKeepsPermutation(Swap(s, i, draws[0]), i - 1, draws[1..]);
    }
  }

  /** Every sequence of random draws yields a permutation. */
  lemma ShuffledIsPermutation(n: nat, draws: seq<nat>)
    requires ValidDraws(if n == 0 then 0 else n - 1, draws)
    ensures |Shuffled(n, draws)| == n && IsPermutation(Shuffled(n, draws))
  {
    ShuffleKeepsPermutation(Iota(n), if n == 0 then 0 else n - 1, draws);
  }

  lemma {:induction false} ShuffleFixesTop(s: seq<int>, i: nat, draws: seq<nat>, k: nat)
    requires i < |s| && ValidDraws(i, draws) && i < k < |s|
    ensures ShuffleFrom(s, i, draws)[k] == s[k]
    decreases i
  {
    if i > 0 {
      ShuffleFixesTop(Swap(s, i, draws[0]), i - 1, draws[1..], k);
    }
  }

  /** Where the value that belongs at position i is now: not above i, where all is settled. */
  lemma NextDraw(s: seq<int>, p: seq<int>, i: nat) returns (j: nat)
    requires IsPermutation(s) && IsPermutation(p) && |s| == |p| && i < |s|
    requires forall k :: i < k < |s| ==> s[k] == p[k]
    ensures j <= i && s[j] == p[i]
  {
    PermutationHits(s, p[i]);
    j :| 0 <= j < |s| && s[j] == p[i];
  }

  /** Draws that shuffle s into p, position by position from the top. */
  lemma {:induction false} DrawsFor(s: seq<int>, p: seq<int>, i: nat) returns (draws: seq<nat>)
    requires IsPermutation(s) && IsPermutation(p) && |s| == |p| && i < |s|
    requires forall k :: i < k < |s| ==> s[k] == p[k]
    ensures ValidDraws(i, draws) && ShuffleFrom(s, i, draws) == p
    decreases i
  {
    var j := NextDraw(s, p, i);
    if i == 0 {
      draws := [];
      assert s == p;
    } else {
      var t := Swap(s, i, j);
      SwapKeepsPermutation(s, i, j);
      var rest := DrawsFor(t, p, i - 1);
      draws := [j] + rest;
      assert draws[1..] == rest;
    }
  }

  /** Different draws give different orders. */
  lemma {:induction false} DrawsUnique(s: seq<int>, i: nat, draws: seq<nat>, draws': seq<nat>)
    requires IsPermutation(s) && i < |s| && ValidDraws(i, draws) && ValidDraws(i, draws')
    requires ShuffleFrom(s, i, draws) == ShuffleFrom(s, i, draws')
    ensures draws == draws'
    decreases i
  {
    if i > 0 {
      var t, t' := Swap(s, i, draws[0]), Swap(s, i, draws'[0]);
      SwapKeepsPermutation(s, i, draws[0]);
      ShuffleFixesTop(t, i - 1, draws[1..], i);
      ShuffleFixesTop(t', i - 1, draws'[1..], i);
      assert s[draws[0]] == s[draws'[0]];
      assert draws[0] == draws'[0];
      DrawsUnique(t, i - 1, draws[1..], draws'[1..]);
      assert draws == [draws[0]] + draws[1..] && draws' == [draws'[0]] + draws'[1..];
    }
  }

  /** The draw for a position picks, out of what is still before it, the number that ends up there. */
  lemma ShufflePlacesDraw(s: seq<int>, i: nat, draws: seq<nat>)
    requires 0 < i < |s| && ValidDraws(i, draws)
    ensures ShuffleFrom(s, i, draws)[i] == s[draws[0]]
  {
    ShuffleFixesTop(Swap(s, i, draws[0]), i - 1, draws[1..], i);
  }

  /** Exactly one sequence of draws leads to each permutation: no order is favoured or left out. */
  lemma ShuffleIsBijective(n: nat, p: seq<int>) returns (draws: seq<nat>)
    requires n > 0 && |p| == n && IsPermutation(p)
    ensures ValidDraws(n - 1, draws) && Shuffled(n, draws) == p
    ensures forall other :: ValidDraws(n - 1, other) && Shuffled(n, other) == p ==> other == draws
  {
    draws := DrawsFor(Iota(n), p, n - 1);
    forall other | ValidDraws(n - 1, other) && Shuffled(n, other) == p ensures other == draws {
      DrawsUnique(Iota(n), n - 1, other, draws);
    }
  }

  // ---------------------------------------------------------------- the admin check

  ghost predicate Increasing(s: seq<int>) {
    forall i, j :: 0 <= i < j < |s| ==> s[i] < s[j]
  }

  ghost predicate NonDecreasing(s: seq<int>) {
    forall i, j :: 0 <= i < j < |s| ==> s[i] <= s[j]
  }

  lemma {:induction false} InsertElements(x: int, s: seq<int>)
    ensures forall y :: y in Insert(x, s) <==> y == x || y in s
  {
    if s != [] && x > s[0] {
      InsertElements(x, s[1..]);
      assert s == [s[0]] + s[1..];
    }
  }

  lemma {:induction false} SortElements(s: seq<int>)
    ensures forall y :: y in Sort(s) <==> y in s
  {
    if s != [] {
      SortElements(s[1..]);
      InsertElements(s[0], Sort(s[1..]));
      assert s == [s[0]] + s[1..];
    }
  }

  lemma {:induction false} InsertNonDecreasing(x: int, s: seq<int>)
    requires NonDecreasing(s)
    ensures NonDecreasing(Insert(x, s))
  {
    if s != [] && x > s[0] {
      var r := Insert(x, s[1..]);
      InsertNonDecreasing(x, s[1..]);
      InsertElements(x, s[1..]);
      forall k | 0 <= k < |r| ensures s[0] <= r[k] {
        assert r[k] in r;
      }
    }
  }

  lemma {:induction false} InsertIncreasing(x: int, s: seq<int>)
    requires Increasing(s) && x !in s
    ensures Increasing(Insert(x, s))
  {
    if s != [] && x > s[0] {
      var r := Insert(x, s[1..]);
      InsertIncreasing(x, s[1..]);
      InsertElements(x, s[1..]);
      forall k | 0 <= k < |r| ensures s[0] < r[k] {
        assert r[k] in r;
      }
    }
  }

  lemma {:induction false} IncreasingInsert(x: int, s: seq<int>)
    requires Increasing(Insert(x, s))
    ensures Increasing(s) && x !in s
  {
    var r := Insert(x, s);
    if s == [] || x <= s[0] {
      assert r[1..] == s;
      assert forall k :: 0 <= k < |s| ==> r[k + 1] == s[k] && r[0] < r[k + 1];
    } else {
      assert r[1..] == Insert(x, s[1..]);
      IncreasingInsert(x, s[1..]);
      InsertElements(x, s[1..]);
      forall k | 1 <= k < |s| ensures s[0] < s[k] {
        assert s[1..][k - 1] in r[1..];
        var m :| 0 <= m < |r[1..]| && r[1..][m] == s[k];
        assert r[0] < r[m + 1];
      }
      assert s == [s[0]] + s[1..];
    }
  }

  lemma {:induction false} SortIncreasingIff(s: seq<int>)
    ensures NonDecreasing(Sort(s))
    ensures Increasing(Sort(s)) <==> forall i, j :: 0 <= i < j < |s| ==> s[i] != s[j]
  {
    if s != [] {
      SortIncreasingIff(s[1..]);
      InsertNonDecreasing(s[0], Sort(s[1..]));
      SortElements(s[1..]);
      if forall i, j :: 0 <= i < j < |s| ==> s[i] != s[j] {
        assert forall j :: 1 <= j < |s| ==> s[j] == s[1..][j - 1];
        InsertIncreasing(s[0], Sort(s[1..]));
      }
      if Increasing(Sort(s)) {
        IncreasingInsert(s[0], Sort(s[1..]));
        forall i, j | 0 <= i < j < |s| ensures s[i] != s[j] {
          assert s[j] == s[1..][j - 1];
          if i > 0 { assert s[i] == s[1..][i - 1]; }
        }
      }
    }
  }

  lemma {:induction false} IncreasingAtLeastIndex(s: seq<int>, i: nat)
    requires Increasing(s) && i < |s| && forall k :: 0 <= k < |s| ==> 0 <= s[k] < |s|
    ensures i <= s[i] && s[i] <= s[|s| - 1] - (|s| - 1 - i)
    decreases |s| - i
  {
    if i + 1 < |s| {
      IncreasingAtLeastIndex(s, i + 1);
    }
    IncreasingFromBelow(s, i);
  }

  lemma {:induction false} IncreasingFromBelow(s: seq<int>, i: nat)
    requires Increasing(s) && i < |s| && forall k :: 0 <= k < |s| ==> 0 <= s[k]
    ensures i <= s[i]
  {
    if i > 0 {
      IncreasingFromBelow(s, i - 1);
    }
  }

  /** The sorted-and-compared check accepts exactly the permutations of 0, ..., n - 1. */
  lemma AdminCheckIffPermutation(s: seq<int>)
    ensures Sort(s) == Iota(|s|) <==> IsPermutation(s)
  {
    if IsPermutation(s) {
      PermutationSorts(s);
    }
    if Sort(s) == Iota(|s|) {
      SortedIsPermutation(s);
    }
  }

  lemma PermutationSorts(s: seq<int>)
    requires IsPermutation(s)
    ensures Sort(s) == Iota(|s|)
  {
    var r := Sort(s);
    SortElements(s);
    SortIncreasingIff(s);
    forall k | 0 <= k < |r| ensures 0 <= r[k] < |s| {
      assert r[k] in r;
    }
    forall k | 0 <= k < |r| ensures r[k] == k {
      IncreasingAtLeastIndex(r, k);
    }
  }

  lemma SortedIsPermutation(s: seq<int>)
    requires Sort(s) == Iota(|s|)
    ensures IsPermutation(s)
  {
    SortElements(s);
    SortIncreasingIff(s);
    ElementsBelow(s, Sort(s));
  }

  lemma ElementsBelow(s: seq<int>, r: seq<int>)
    requires r == Iota(|s|) && forall y <- s :: y in r
    ensures Increasing(r) && forall i :: 0 <= i < |s| ==> 0 <= s[i] < |s|
  {
    forall i | 0 <= i < |s| ensures 0 <= s[i] < |s| {
      assert s[i] in s;
    }
  }

  // ---------------------------------------------------------------- recipients

  /** The member `distributePayout` and `getCurrentRecipient` look for in a round. */
  predicate IsRecipient(ms: seq<Member>, i: nat, round: nat) {
    i < |ms| && ms[i].payoutOrder == Some(round - 1)
  }

  ghost predicate OneRecipient(ms: seq<Member>, round: nat) {
    && (exists i: nat :: IsRecipient(ms, i, round))
    && (forall i: nat, j: nat :: IsRecipient(ms, i, round) && IsRecipient(ms, j, round) ==> i == j)
  }

  ghost predicate ExactlyOneRecipientPerRound(ms: seq<Member>) {
    forall round: nat :: 1 <= round <= |ms| ==> OneRecipient(ms, round)
  }

  /** Every round has exactly one recipient exactly when the orders are a permutation. */
  lemma RecipientsIffPermutation(ms: seq<Member>)
    requires AllOrdered(ms)
    ensures IsPermutation(Orders(ms)) <==> ExactlyOneRecipientPerRound(ms)
  {
    var s := Orders(ms);
    if IsPermutation(s) {
      forall round: nat | 1 <= round <= |ms| ensures OneRecipient(ms, round) {
        PermutationHits(s, round - 1);
        var i :| 0 <= i < |s| && s[i] == round - 1;
        assert ms[i] in ms && IsRecipient(ms, i, round);
        forall i: nat, j: nat | IsRecipient(ms, i, round) && IsRecipient(ms, j, round) ensures i == j {
          assert s[i] == s[j];
        }
      }
    }
    if ExactlyOneRecipientPerRound(ms) {
      HitsAllIsPermutation(ms);
    }
  }

  lemma HitsAllIsPermutation(ms: seq<Member>)
    requires AllOrdered(ms) && ExactlyOneRecipientPerRound(ms)
    ensures IsPermutation(Orders(ms))
  {
    var s := Orders(ms);
    forall k | 0 <= k < |ms| ensures k in s {
      assert OneRecipient(ms, k + 1);
      var i: nat :| IsRecipient(ms, i, k + 1);
      assert s[i] == k;
    }
    OntoIsPermutation(s);
  }

  /** n numbers that hit everything below n are a permutation. */
  lemma OntoIsPermutation(s: seq<int>)
    requires forall k :: 0 <= k < |s| ==> k in s
    ensures IsPermutation(s)
  {
    var values, all := set x | x in s, set x | x in Iota(|s|);
    DistinctCount(Iota(|s|));
    assert all <= values by {
      forall x | x in all ensures x in values { assert x == Iota(|s|)[x]; }
    }
    ValuesAtMostLength(s);
    CardinalityMonotone(all, values);
    SubsetOfEqualSize(all, values);
    forall i | 0 <= i < |s| ensures 0 <= s[i] < |s| {
      assert s[i] in values;
    }
    forall i, j | 0 <= i < j < |s| ensures s[i] != s[j] {
      if s[i] == s[j] {
        ValuesBelowLength(s, i, j);
        assert false;
      }
    }
  }

  lemma CardinalityMonotone(a: set<int>, b: set<int>)
    requires a <= b
    ensures |a| <= |b|
  {
    assert b == a + (b - a);
  }

  lemma {:induction false} ValuesAtMostLength(s: seq<int>)
    ensures |set x | x in s| <= |s|
  {
    if s != [] {
      var t := s[..|s| - 1];
      ValuesAtMostLength(t);
      assert (set x | x in s) == (set x | x in t) + {s[|s| - 1]};
    }
  }

  lemma ValuesBelowLength(s: seq<int>, i: nat, j: nat)
    requires i < j < |s| && s[i] == s[j]
    ensures |set x | x in s| < |s|
  {
    var t := s[..j] + s[j + 1..];
    ValuesAtMostLength(t);
    assert s == s[..j] + [s[j]] + s[j + 1..];
    assert t[i] == s[i];
    assert (set x | x in s) == set x | x in t;
  }

  /** After a RANDOM or ADMIN_DEFINED activation every round 1..n has exactly one recipient. */
  lemma ActivationGivesRecipients(ms: seq<Member>, strategy: Strategy, draws: seq<nat>)
    requires strategy != Sequential && ValidDraws(if |ms| == 0 then 0 else |ms| - 1, draws)
    requires strategy == AdminDefined ==> AllOrdered(ms) && Sort(Orders(ms)) == Iota(|ms|)
    ensures ExactlyOneRecipientPerRound(if strategy == Random then WithOrders(ms, Shuffled(|ms|, draws)) else ms)
  {
    if strategy == Random {
      ShuffledIsPermutation(|ms|, draws);
      var r := WithOrders(ms, Shuffled(|ms|, draws));
      assert Orders(r) == Shuffled(|ms|, draws);
      RecipientsIffPermutation(r);
    } else {
      AdminCheckIffPermutation(Orders(ms));
      RecipientsIffPermutation(ms);
    }
  }

  /** Activation succeeds exactly for the admin of a pending, large enough group whose orders the strategy accepts. */
  lemma ActivatesIff(g: Standing, strategy: Strategy, minMembers: nat, draws: seq<nat>, isAdmin: bool, deployed: bool)
    requires ValidDraws(if |g.members| == 0 then 0 else |g.members| - 1, draws)
    ensures Activated(g, strategy, minMembers, draws, isAdmin, deployed).1 == Done <==>
            && isAdmin && deployed && g.status == Pending && |g.members| >= minMembers
            && (strategy == AdminDefined ==> AllOrdered(g.members) && IsPermutation(Orders(g.members)))
  {
    if AllOrdered(g.members) {
      AdminCheckIffPermutation(Orders(g.members));
      assert forall i :: 0 <= i < |g.members| ==> g.members[i] in g.members;
    }
  }

  /** What activation leaves: an ACTIVE group in round 1, a pending one in round 0 when deployment failed, or no change. */
  lemma ActivationLeaves(g: Standing, strategy: Strategy, minMembers: nat, draws: seq<nat>, isAdmin: bool, deployed: bool)
    requires ValidDraws(if |g.members| == 0 then 0 else |g.members| - 1, draws)
    ensures var (t, r) := Activated(g, strategy, minMembers, draws, isAdmin, deployed);
            && (r == Done ==> t.status == Active && t.currentRound == 1)
            && (r == DeployFailed ==> t.status == Pending && t.currentRound == 0)
            && (r != Done && r != DeployFailed ==> t == g)
            && (r == Done || r == DeployFailed ==> if strategy == Random
                  then |t.members| == |g.members| && AllOrdered(t.members) && IsPermutation(Orders(t.members))
                       && forall i :: 0 <= i < |g.members| ==> t.members[i].userId == g.members[i].userId
                  else t.members == g.members)
            && (r == Forbidden <==> !isAdmin)
            && (r == WrongStatus <==> isAdmin && g.status != Pending)
            && (r == TooFew <==> isAdmin && g.status == Pending && |g.members| < minMembers)
            && (r == DeployFailed ==> !deployed)
  {
    if strategy == Random {
      ShuffledIsPermutation(|g.members|, draws);
      var ms := Ordered(g.members, Random, draws);
      assert Orders(ms) == Shuffled(|g.members|, draws);
    }
  }

  lemma GapLeft(s: seq<int>, k: nat, t: seq<int>)
    requires IsPermutation(s) && k < |s| && |t| == |s| - 1
    requires forall i :: 0 <= i < |t| ==> t[i] == s[Origin(k, i)]
    ensures s[k] == |s| - 1 ==> IsPermutation(t)
    ensures s[k] != |s| - 1 ==> |s| - 1 in t
  {
    if s[k] == |s| - 1 {
      forall i | 0 <= i < |t| ensures s[Origin(k, i)] != s[k] {
        assert Origin(k, i) < k || k < Origin(k, i) < |s|;
      }
    } else {
      PermutationHits(s, |s| - 1);
      var j :| 0 <= j < |s| && s[j] == |s| - 1;
      assert t[if j < k then j else j - 1] == |s| - 1;
    }
  }

  /** Taking a member out leaves a permutation exactly when it was the last one in payout order. */
  lemma RemovalKeepsPermutationIff(ms: seq<Member>, k: nat)
    requires AllOrdered(ms) && IsPermutation(Orders(ms)) && k < |ms|
    ensures AllOrdered(Without(ms, k))
    ensures IsPermutation(Orders(Without(ms, k))) <==> Orders(ms)[k] == |ms| - 1
  {
    WithoutAt(ms, k);
    GapLeft(Orders(ms), k, Orders(Without(ms, k)));
  }

  /**
   Any removal from a SEQUENTIAL group is followed by a successful activation if enough members are
   left, and then each round has exactly one recipient exactly when the removed member was to be paid last.
   */
  lemma RemovalKeepsRecipientsIff(ms: seq<Member>, maxMembers: nat, minMembers: nat, u: nat, draws: seq<nat>)
    requires Sequenced(ms, maxMembers) && IsMember(ms, u) && ValidDraws(if |ms| == 1 then 0 else |ms| - 2, draws)
    ensures var left := Remove(ms, Pending, u).0;
            && |left| == |ms| - 1
            && Activated(Standing(left, Pending, 0), Sequential, minMembers, draws, true, true) ==
               (if |left| >= minMembers then (Standing(left, Active, 1), Done) else (Standing(left, Pending, 0), TooFew))
            && (ExactlyOneRecipientPerRound(left) <==> Orders(ms)[IndexOfUser(ms, u)] == |ms| - 1)
  {
    var k := IndexOfUser(ms, u);
    RemovalKeepsPermutationIff(ms, k);
    RecipientsIffPermutation(Without(ms, k));
  }

  /** A SEQUENTIAL activation checks nothing: after a removal a round can be without recipient. */
  lemma RemovalLeavesRoundEmpty(u: nat, v: nat, maxMembers: nat)
    requires u != v && maxMembers >= 2
    ensures var ms := Step(Step(Step([], Pending, maxMembers, Join(u)), Pending, maxMembers, Join(v)), Pending, maxMembers, Expel(u));
            ms == [Member(v, Some(1))] && !ExactlyOneRecipientPerRound(ms)
  {
    var one := Step([], Pending, maxMembers, Join(u));
    assert one == [Member(u, Some(0))];
    var two := Step(one, Pending, maxMembers, Join(v));
    assert MaxOrder(one) == Some(0);
    assert two == [Member(u, Some(0)), Member(v, Some(1))];
    assert two[0].userId == u;
    var ms := Step(two, Pending, maxMembers, Expel(u));
    assert ms == [Member(v, Some(1))];
    assert AllOrdered(ms) && Orders(ms)[0] == 1;
    RecipientsIffPermutation(ms);
  }
}
