/**
 Rounds and recipients of an active group: rounds advance when everybody has paid, and the finished
 round's recipient is marked as paid. Marks are also kept as a history, so that statements about
 runs can count them.
 */
module Rounds {
  import opened Wrappers

  datatype Status = Pending | Active | Completed

  datatype Member = Member(userId: nat, payoutOrder: Option<int>, isActive: bool, hasPaidCurrentRound: bool, hasReceivedPayout: bool)

  datatype Group = Group(status: Status, currentRound: nat, totalRounds: nat, members: seq<Member>)

  datatype Outcome = Done | WrongStatus | NotFound | AlreadyPaid | OrderMismatch

  // ---------------------------------------------------------------- what the operations do

  function Mark(ms: seq<Member>, i: nat): seq<Member>
    requires i < |ms|
  {
    ms[i := ms[i].(hasReceivedPayout := true)]
  }

  /** First member with a given payout order. */
  function FindByOrder(ms: seq<Member>, order: int): (r: Option<nat>)
    ensures r.Some? ==> r.value < |ms| && ms[r.value].payoutOrder == Some(order)
    ensures r.None? ==> forall i :: 0 <= i < |ms| ==> ms[i].payoutOrder != Some(order)
  {
    if ms == [] then None
    else if ms[|ms| - 1].payoutOrder == Some(order) && FindByOrder(ms[..|ms| - 1], order).None? then Some(|ms| - 1)
    else FindByOrder(ms[..|ms| - 1], order)
  }

  function FindByUser(ms: seq<Member>, userId: nat): (r: Option<nat>)
    ensures r.Some? ==> r.value < |ms| && ms[r.value].userId == userId
    ensures r.None? ==> forall i :: 0 <= i < |ms| ==> ms[i].userId != userId
  {
    if ms == [] then None
    else if ms[|ms| - 1].userId == userId && FindByUser(ms[..|ms| - 1], userId).None? then Some(|ms| - 1)
    else FindByUser(ms[..|ms| - 1], userId)
  }

  /**
   The member that `distributePayout` marks for a round: none unless the group is ACTIVE, the round
   has a recipient who is not yet paid, and the disbursement goes through.
   */
  function Payee(g: Group, round: nat, goesThrough: bool): (r: Option<nat>)
    ensures r.Some? ==> r.value < |g.members| && g.members[r.value].payoutOrder == Some(round - 1)
                        && !g.members[r.value].hasReceivedPayout && g.status == Active
  {
    if g.status != Active then None
    else
      var i := FindByOrder(g.members, round - 1);
      if i.None? || g.members[i.value].hasReceivedPayout || !goesThrough then None else i
  }

  function DistributePayout(g: Group, round: nat, goesThrough: bool): Group {
    var i := Payee(g, round, goesThrough);
    if i.None? then g else g.(members := Mark(g.members, i.value))
  }

  predicate AllPaid(ms: seq<Member>) {
    (exists m :: m in ms && m.isActive) && forall m :: m in ms && m.isActive ==> m.hasPaidCurrentRound
  }

  /** The payment flags of active members are cleared for the next round. */
  function ResetPaid(ms: seq<Member>): (r: seq<Member>)
    ensures |r| == |ms|
    ensures forall i :: 0 <= i < |ms| ==> r[i] == (if ms[i].isActive then ms[i].(hasPaidCurrentRound := false) else ms[i])
  {
    seq(|ms|, i requires 0 <= i < |ms| => if ms[i].isActive then ms[i].(hasPaidCurrentRound := false) else ms[i])
  }

  /** The group after the round counter moved, before the finished round is paid out. */
  function Advanced(g: Group): Group {
    if g.currentRound + 1 > g.totalRounds then g.(currentRound := g.currentRound + 1, status := Completed)
    else g.(currentRound := g.currentRound + 1, members := ResetPaid(g.members))
  }

  predicate CanAdvance(g: Group) {
    g.status == Active && AllPaid(g.members)
  }

  function TryAdvance(g: Group, goesThrough: bool): Group {
    if CanAdvance(g) then DistributePayout(Advanced(g), g.currentRound, goesThrough) else g
  }

  function RecordPayout(g: Group, userId: nat): (Group, Outcome) {
    if g.status != Active then (g, WrongStatus)
    else
      var i := FindByUser(g.members, userId);
      if i.None? then (g, NotFound)
      else if g.members[i.value].hasReceivedPayout then (g, AlreadyPaid)
      else if g.members[i.value].payoutOrder != Some(g.currentRound - 1) then (g, OrderMismatch)
      else (g.(members := Mark(g.members, i.value)), Done)
  }

  // ---------------------------------------------------------------- the service

  class RoundService {
    var status: Status
    var currentRound: nat
    var members: seq<Member>
    const totalRounds: nat

    ghost function View(): Group
      reads this
    {
      Group(status, currentRound, totalRounds, members)
    }

    constructor (totalRounds: nat, members: seq<Member>)
      ensures View() == Group(Pending, 0, totalRounds, members)
    {
      this.totalRounds, this.members := totalRounds, members;
      status, currentRound := Pending, 0;
    }

    /** `distributePayout`, as far as it touches the group's memberships. */
    method Distribute(round: nat, goesThrough: bool)
      modifies this`members
      ensures View() == DistributePayout(old(View()), round, goesThrough)
    {
      if status != Active { return; }
      var i := FindByOrder(members, round - 1);
      if i.None? || members[i.value].hasReceivedPayout || !goesThrough { return; }
      members := members[i.value := members[i.value].(hasReceivedPayout := true)];
    }

    method TryAdvanceRound(goesThrough: bool) returns (advanced: bool)
      modifies this
      ensures View() == TryAdvance(old(View()), goesThrough)
      ensures advanced == CanAdvance(old(View()))
    {
      if status != Active { return false; }
      var some, allPaid := false, true;
      var i := 0;
      while i < |members|
        invariant 0 <= i <= |members|
        invariant some <==> exists m :: m in members[..i] && m.isActive
        invariant allPaid <==> forall m :: m in members[..i] && m.isActive ==> m.hasPaidCurrentRound
      {
        assert members[..i + 1] == members[..i] + [members[i]];
        some := some || members[i].isActive;
        allPaid := allPaid && (members[i].isActive ==> members[i].hasPaidCurrentRound);
        i := i + 1;
      }
      assert members[..i] == members;
      if !some || !allPaid { return false; }
      var roundToPayout := currentRound;
      currentRound := currentRound + 1;
      if currentRound > totalRounds {
        status := Completed;
      } else {
        members := ResetPaid(members);
      }
      Distribute(roundToPayout, goesThrough);
      advanced := true;
    }

    method Record(userId: nat) returns (r: Outcome)
      modifies this`members
      ensures (View(), r) == RecordPayout(old(View()), userId)
    {
      if status != Active { return WrongStatus; }
      var i := FindByUser(members, userId);
      if i.None? { return NotFound; }
      if members[i.value].hasReceivedPayout { return AlreadyPaid; }
      if members[i.value].payoutOrder != Some(currentRound - 1) { return OrderMismatch; }
      members := members[i.value := members[i.value].(hasReceivedPayout := true)];
      r := Done;
    }
  }

  // ---------------------------------------------------------------- runs

  /** A member was marked as paid for a round. */
  datatype PaidMark = PaidMark(round: nat, member: nat)

  datatype State = State(group: Group, marks: seq<PaidMark>)

  datatype Event =
    | Activate
    | Advance(goesThrough: bool)
    | Record(userId: nat)
    | Pays(index: nat)                       // a contribution sets hasPaidCurrentRound
    | SetActive(index: nat, isActive: bool)  // suspension and reinstatement

  function AdvanceMarks(g: Group, goesThrough: bool): seq<PaidMark> {
    if !CanAdvance(g) || Payee(Advanced(g), g.currentRound, goesThrough).None? then []
    else [PaidMark(g.currentRound, Payee(Advanced(g), g.currentRound, goesThrough).value)]
  }

  function RecordMarks(g: Group, userId: nat): seq<PaidMark> {
    if RecordPayout(g, userId).1 != Done then [] else [PaidMark(g.currentRound, FindByUser(g.members, userId).value)]
  }

  function Step(s: State, e: Event): State {
    var g := s.group;
    match e
    case Activate => if g.status == Pending then s.(group := g.(status := Active, currentRound := 1)) else s
    case Advance(ok) => State(TryAdvance(g, ok), s.marks + AdvanceMarks(g, ok))
    case Record(u) => State(RecordPayout(g, u).0, s.marks + RecordMarks(g, u))
    case Pays(i) =>
      if i < |g.members| then s.(group := g.(members := g.members[i := g.members[i].(hasPaidCurrentRound := true)])) else s
    case SetActive(i, b) =>
      if i < |g.members| then s.(group := g.(members := g.members[i := g.members[i].(isActive := b)])) else s
  }

  function Run(s: State, es: seq<Event>): State
    decreases |es|
  {
    if es == [] then s else Run(Step(s, es[0]), es[1..])
  }

  // ---------------------------------------------------------------- the invariant

  ghost predicate DistinctOrders(ms: seq<Member>) {
    && (forall i :: 0 <= i < |ms| && ms[i].payoutOrder.Some? ==> 0 <= ms[i].payoutOrder.value)
    && (forall i, j :: 0 <= i < j < |ms| && ms[i].payoutOrder.Some? ==> ms[i].payoutOrder != ms[j].payoutOrder)
  }

  ghost predicate RoundInRange(g: Group) {
    match g.status
    case Pending => g.currentRound == 0
    case Active => 1 <= g.currentRound <= g.totalRounds
    case Completed => g.currentRound == g.totalRounds + 1
  }

  /** A paid member's turn has come. */
  ghost predicate PaidInTurn(g: Group) {
    forall i :: 0 <= i < |g.members| && g.members[i].hasReceivedPayout ==>
      g.members[i].payoutOrder.Some? && g.members[i].payoutOrder.value < g.currentRound
  }

  /** Every mark names a paid member and the round of that member's order; every paid member has one. */
  ghost predicate MarkOk(g: Group, m: PaidMark) {
    && m.member < |g.members| && g.members[m.member].hasReceivedPayout
    && g.members[m.member].payoutOrder == Some(m.round - 1)
  }

  ghost predicate MarksOk(s: State) {
    && (forall i :: 0 <= i < |s.marks| ==> MarkOk(s.group, s.marks[i]))
    && (forall i, j :: 0 <= i < j < |s.marks| ==> s.marks[i].member != s.marks[j].member)
    && (forall k :: 0 <= k < |s.group.members| && s.group.members[k].hasReceivedPayout ==>
          exists i :: 0 <= i < |s.marks| && s.marks[i].member == k)
  }

  ghost predicate Invariant(s: State) {
    DistinctOrders(s.group.members) && RoundInRange(s.group) && PaidInTurn(s.group) && MarksOk(s) && s.group.totalRounds >= 1
  }

  /** What no step changes: who is in the group and in which order; and no mark is taken back. */
  ghost predicate KeepsMembers(before: seq<Member>, after: seq<Member>) {
    && |after| == |before|
    && forall i :: 0 <= i < |before| ==>
         && after[i].userId == before[i].userId && after[i].payoutOrder == before[i].payoutOrder
         && (before[i].hasReceivedPayout ==> after[i].hasReceivedPayout)
  }

  /** Flags other than the payout mark change freely, and the round may move up. */
  lemma FlagsKeep(s: State, g: Group)
    requires Invariant(s)
    requires RoundInRange(g) && g.totalRounds == s.group.totalRounds && g.currentRound >= s.group.currentRound
    requires |g.members| == |s.group.members|
    requires forall i :: 0 <= i < |g.members| ==>
               g.members[i].payoutOrder == s.group.members[i].payoutOrder
               && g.members[i].hasReceivedPayout == s.group.members[i].hasReceivedPayout
    ensures Invariant(s.(group := g))
  {
    forall i | 0 <= i < |s.marks| ensures MarkOk(g, s.marks[i]) {
      assert MarkOk(s.group, s.marks[i]);
    }
  }

  /** Marking a member whose turn has come and who was not paid. */
  lemma MarkKeeps(s: State, k: nat, round: nat)
    requires Invariant(s) && k < |s.group.members| && !s.group.members[k].hasReceivedPayout
    requires s.group.members[k].payoutOrder == Some(round - 1) && round - 1 < s.group.currentRound
    ensures Invariant(State(s.group.(members := Mark(s.group.members, k)), s.marks + [PaidMark(round, k)]))
  {
    var t := State(s.group.(members := Mark(s.group.members, k)), s.marks + [PaidMark(round, k)]);
    forall i | 0 <= i < |t.marks| ensures MarkOk(t.group, t.marks[i]) {
      if i < |s.marks| { assert MarkOk(s.group, s.marks[i]); }
    }
    forall i | 0 <= i < |s.marks| ensures s.marks[i].member != k {
      assert MarkOk(s.group, s.marks[i]);
    }
    forall j | 0 <= j < |t.group.members| && t.group.members[j].hasReceivedPayout
      ensures exists i :: 0 <= i < |t.marks| && t.marks[i].member == j
    {
      if j == k {
        assert t.marks[|s.marks|].member == k;
      } else {
        var i :| 0 <= i < |s.marks| && s.marks[i].member == j;
        assert t.marks[i].member == j;
      }
    }
  }

  lemma AdvanceKeeps(s: State, goesThrough: bool)
    requires Invariant(s)
    ensures Invariant(Step(s, Advance(goesThrough)))
  {
    var g := s.group;
    if CanAdvance(g) {
      FlagsKeep(s, Advanced(g));
      var i := Payee(Advanced(g), g.currentRound, goesThrough);
      if i.Some? {
        MarkKeeps(s.(group := Advanced(g)), i.value, g.currentRound);
      } else {
        assert s.marks + [] == s.marks;
      }
    } else {
      assert s.marks + [] == s.marks;
    }
  }

  lemma RecordKeeps(s: State, u: nat)
    requires Invariant(s)
    ensures Invariant(Step(s, Record(u)))
  {
    if RecordPayout(s.group, u).1 == Done {
      MarkKeeps(s, FindByUser(s.group.members, u).value, s.group.currentRound);
    } else {
      assert s.marks + [] == s.marks;
    }
  }

  lemma StepKeepsInvariant(s: State, e: Event)
    requires Invariant(s)
    ensures Invariant(Step(s, e))
  {
    match e
    case Advance(ok) => AdvanceKeeps(s, ok);
    case Record(u) => RecordKeeps(s, u);
    case _ => FlagsKeep(s, Step(s, e).group);
  }

  lemma StepKeepsMembers(s: State, e: Event)
    ensures KeepsMembers(s.group.members, Step(s, e).group.members)
    ensures s.marks <= Step(s, e).marks
  {
  }

  // ---------------------------------------------------------------- main results

  /**
   Over every run that starts from a group without marks and with different payout orders: the
   round stays in range, paid members' turns have come, and marks and members only accumulate.
   */
  lemma {:induction false} RunKeeps(s: State, es: seq<Event>)
    requires Invariant(s)
    ensures Invariant(Run(s, es))
    ensures KeepsMembers(s.group.members, Run(s, es).group.members)
    ensures s.marks <= Run(s, es).marks
    decreases |es|
  {
    if es != [] {
      StepKeepsInvariant(s, es[0]);
      StepKeepsMembers(s, es[0]);
      RunKeeps(Step(s, es[0]), es[1..]);
    }
  }

  lemma FreshInvariant(totalRounds: nat, ms: seq<Member>)
    requires totalRounds >= 1 && DistinctOrders(ms) && forall m <- ms :: !m.hasReceivedPayout
    ensures Invariant(State(Group(Pending, 0, totalRounds, ms), []))
  {
    forall i | 0 <= i < |ms| ensures !ms[i].hasReceivedPayout {
      assert ms[i] in ms;
    }
  }

  /** Each round marks at most one member, and each member is marked at most once. */
  lemma OneMarkPerRound(s: State, es: seq<Event>, i: nat, j: nat)
    requires Invariant(s) && i < j < |Run(s, es).marks|
    ensures Run(s, es).marks[i].round != Run(s, es).marks[j].round
    ensures Run(s, es).marks[i].member != Run(s, es).marks[j].member
  {
    RunKeeps(s, es);
    var t := Run(s, es);
    var a, b := t.marks[i], t.marks[j];
    assert MarkOk(t.group, a) && MarkOk(t.group, b);
    if a.member < b.member {
      assert t.group.members[a.member].payoutOrder != t.group.members[b.member].payoutOrder;
    } else {
      assert t.group.members[b.member].payoutOrder != t.group.members[a.member].payoutOrder;
    }
  }

  /**
   Advancing never pays the last round: the group is COMPLETED before its payout is attempted. Without
   a recorded payout the member of the last round stays unpaid in every run.
   */
  lemma {:induction false} LastRoundNotPaidByAdvancing(s: State, es: seq<Event>, k: nat)
    requires Invariant(s) && forall e <- es :: !e.Record?
    requires k < |s.group.members| && s.group.members[k].payoutOrder == Some(s.group.totalRounds - 1)
    requires !s.group.members[k].hasReceivedPayout
    ensures k < |Run(s, es).group.members| && !Run(s, es).group.members[k].hasReceivedPayout
    decreases |es|
  {
    if es != [] {
      StepKeepsInvariant(s, es[0]);
      StepKeepsMembers(s, es[0]);
      LastRoundStep(s, es[0], k);
      LastRoundNotPaidByAdvancing(Step(s, es[0]), es[1..], k);
    }
  }

  lemma LastRoundStep(s: State, e: Event, k: nat)
    requires Invariant(s) && !e.Record?
    requires k < |s.group.members| && s.group.members[k].payoutOrder == Some(s.group.totalRounds - 1)
    requires !s.group.members[k].hasReceivedPayout
    ensures k < |Step(s, e).group.members| && !Step(s, e).group.members[k].hasReceivedPayout
    ensures Step(s, e).group.totalRounds == s.group.totalRounds
  {
    if e.Advance? && CanAdvance(s.group) {
      var g := Advanced(s.group);
      var i := Payee(g, s.group.currentRound, e.goesThrough);
      assert g.members[k].payoutOrder == s.group.members[k].payoutOrder;
      assert i.Some? ==> g.members[i.value].payoutOrder == Some(s.group.currentRound - 1) && s.group.currentRound < s.group.totalRounds;
    }
  }

  /**
   Advancing a round pays its unpaid recipient exactly when it is not the last round: the comparison
   that completes the group decides.
   */
  lemma AdvancePaysIffNotLast(s: State, k: nat)
    requires Invariant(s) && CanAdvance(s.group)
    requires k < |s.group.members| && s.group.members[k].payoutOrder == Some(s.group.currentRound - 1)
    requires !s.group.members[k].hasReceivedPayout
    ensures k < |Step(s, Advance(true)).group.members|
    ensures Step(s, Advance(true)).group.members[k].hasReceivedPayout <==> s.group.currentRound < s.group.totalRounds
  {
    var g := Advanced(s.group);
    var i := FindByOrder(g.members, s.group.currentRound - 1);
    assert g.members[k].payoutOrder == Some(s.group.currentRound - 1);
    assert i.Some? && s.group.members[i.value].payoutOrder == g.members[i.value].payoutOrder;
    assert i.value == k;
  }

  /** Paid are exactly the members whose round is over, except the one of the last round. */
  ghost predicate PaidExactly(g: Group) {
    forall k :: 0 <= k < |g.members| ==> PaidAsDue(g, g.members[k])
  }

  predicate PaidAsDue(g: Group, m: Member) {
    m.hasReceivedPayout <==> m.payoutOrder.Some? && m.payoutOrder.value + 1 < g.currentRound && m.payoutOrder.value + 1 < g.totalRounds
  }

  /** Rounds advance with payouts that go through, and nobody records a payout by hand. */
  predicate Undisturbed(e: Event) {
    !e.Record? && (e.Advance? ==> e.goesThrough)
  }

  lemma PaidExactlyAdvance(s: State)
    requires Invariant(s) && PaidExactly(s.group) && CanAdvance(s.group)
    ensures PaidExactly(Step(s, Advance(true)).group)
  {
    var g, t := Advanced(s.group), Step(s, Advance(true)).group;
    var p := Payee(g, s.group.currentRound, true);
    forall k | 0 <= k < |t.members| ensures PaidAsDue(t, t.members[k]) {
      assert PaidAsDue(s.group, s.group.members[k]);
      if s.group.members[k].payoutOrder == Some(s.group.currentRound - 1) {
        AdvancePaysIffNotLast(s, k);
      } else {
        assert g.members[k].payoutOrder == s.group.members[k].payoutOrder;
        assert p != Some(k);
      }
    }
  }

  lemma PaidExactlyStep(s: State, e: Event)
    requires Invariant(s) && PaidExactly(s.group) && Undisturbed(e)
    ensures PaidExactly(Step(s, e).group)
  {
    if e.Advance? {
      if CanAdvance(s.group) { PaidExactlyAdvance(s); }
    } else {
      var t := Step(s, e).group;
      forall k | 0 <= k < |t.members| ensures PaidAsDue(t, t.members[k]) {
        assert PaidAsDue(s.group, s.group.members[k]);
      }
    }
  }

  /** In every undisturbed run a member is paid exactly when its round is over and is not the last one. */
  lemma {:induction false} PaidIffRoundOverAndNotLast(s: State, es: seq<Event>)
    requires Invariant(s) && PaidExactly(s.group) && forall e <- es :: Undisturbed(e)
    ensures PaidExactly(Run(s, es).group)
    decreases |es|
  {
    if es != [] {
      StepKeepsInvariant(s, es[0]);
      PaidExactlyStep(s, es[0]);
      PaidIffRoundOverAndNotLast(Step(s, es[0]), es[1..]);
    }
  }

  // ---------------------------------------------------------------- a round is paid for anew

  /** Somebody is active, and all who are have paid. */
  ghost predicate EverybodyPaid(ms: seq<Member>) {
    && (exists i :: 0 <= i < |ms| && ms[i].isActive)
    && forall i :: 0 <= i < |ms| && ms[i].isActive ==> ms[i].hasPaidCurrentRound
  }

  /** The round moves exactly when the group is ACTIVE and everybody has paid; otherwise nothing changes. */
  lemma AdvancesIffEverybodyPaid(g: Group, goesThrough: bool)
    ensures var t := TryAdvance(g, goesThrough);
            && t.totalRounds == g.totalRounds
            && if g.status == Active && EverybodyPaid(g.members)
               then t.currentRound == g.currentRound + 1 && t.status == (if g.currentRound + 1 > g.totalRounds then Completed else Active)
               else t == g
  {
    if AllPaid(g.members) {
      var m :| m in g.members && m.isActive;
      var i :| 0 <= i < |g.members| && g.members[i] == m;
      forall j | 0 <= j < |g.members| && g.members[j].isActive ensures g.members[j].hasPaidCurrentRound {
        assert g.members[j] in g.members;
      }
    }
    if EverybodyPaid(g.members) {
      var i :| 0 <= i < |g.members| && g.members[i].isActive;
      assert g.members[i] in g.members;
    }
  }

  /** After an advance that is not the last, no active member counts as having paid, and inactive members are as they were. */
  lemma AdvanceClearsPayments(g: Group, goesThrough: bool, i: nat)
    requires g.status == Active && EverybodyPaid(g.members) && g.currentRound < g.totalRounds && i < |g.members|
    ensures var t := TryAdvance(g, goesThrough);
            && |t.members| == |g.members| && t.members[i].isActive == g.members[i].isActive
            && t.members[i].hasPaidCurrentRound == (!g.members[i].isActive && g.members[i].hasPaidCurrentRound)
  {
    AdvancesIffEverybodyPaid(g, goesThrough);
  }

  /** So a second attempt right after it advances nothing. */
  lemma SecondAdvanceDoesNothing(g: Group, first: bool, second: bool)
    requires g.status == Active && EverybodyPaid(g.members) && g.currentRound < g.totalRounds
    ensures TryAdvance(TryAdvance(g, first), second) == TryAdvance(g, first)
  {
    var t := TryAdvance(g, first);
    var i :| 0 <= i < |g.members| && g.members[i].isActive;
    AdvanceClearsPayments(g, first, i);
    AdvancesIffEverybodyPaid(t, second);
  }

  lemma UnpaidStep(s: State, e: Event, k: nat)
    requires k < |s.group.members| && !s.group.members[k].hasPaidCurrentRound && e != Pays(k)
    ensures k < |Step(s, e).group.members| && !Step(s, e).group.members[k].hasPaidCurrentRound
  {
    StepKeepsMembers(s, e);
  }

  /** Only a payment of one's own sets one's flag. */
  lemma {:induction false} StaysUnpaid(s: State, es: seq<Event>, k: nat)
    requires k < |s.group.members| && !s.group.members[k].hasPaidCurrentRound && Pays(k) !in es
    ensures k < |Run(s, es).group.members| && !Run(s, es).group.members[k].hasPaidCurrentRound
    decreases |es|
  {
    if es != [] {
      UnpaidStep(s, es[0], k);
      StaysUnpaid(Step(s, es[0]), es[1..], k);
    }
  }

  /**
   Between two advances of a group, every member who is active at the second has paid, or was not
   active at the first: no round is paid for with another round's payments.
   */
  lemma EveryRoundIsPaidFor(s: State, first: bool, es: seq<Event>, k: nat)
    requires s.group.status == Active && EverybodyPaid(s.group.members) && s.group.currentRound < s.group.totalRounds
    requires k < |s.group.members| && s.group.members[k].isActive
    requires var t := Run(Step(s, Advance(first)), es).group;
             t.status == Active && EverybodyPaid(t.members) && k < |t.members| && t.members[k].isActive
    ensures Pays(k) in es
  {
    AdvanceClearsPayments(s.group, first, k);
    if Pays(k) !in es {
      StaysUnpaid(Step(s, Advance(first)), es, k);
    }
  }

  /** A payout marks exactly the unpaid member whose order is the round's, in an ACTIVE group, if it goes through. */
  lemma DistributesIff(g: Group, round: nat, goesThrough: bool, k: nat)
    requires DistinctOrders(g.members) && k < |g.members|
    ensures var t := DistributePayout(g, round, goesThrough);
            && t == g.(members := t.members) && |t.members| == |g.members|
            && t.members[k] == if g.status == Active && goesThrough && g.members[k].payoutOrder == Some(round - 1)
                               then g.members[k].(hasReceivedPayout := true) else g.members[k]
  {
    var i := FindByOrder(g.members, round - 1);
    if g.members[k].payoutOrder == Some(round - 1) { assert i.Some? && i.value == k; }
  }

  // ---------------------------------------------------------------- recording by hand

  /** A payout is recorded exactly for a member of an ACTIVE group who is next and was not paid. */
  lemma RecordsIff(g: Group, userId: nat)
    requires forall i, j :: 0 <= i < j < |g.members| ==> g.members[i].userId != g.members[j].userId
    ensures RecordPayout(g, userId).1 == Done <==>
            g.status == Active && exists k :: 0 <= k < |g.members| && IsNext(g, g.members[k], userId)
    ensures RecordPayout(g, userId).1 == Done ==>
              exists k :: 0 <= k < |g.members| && IsNext(g, g.members[k], userId)
                && RecordPayout(g, userId).0 == g.(members := g.members[k := g.members[k].(hasReceivedPayout := true)])
    ensures RecordPayout(g, userId).1 != Done ==> RecordPayout(g, userId).0 == g
  {
    var i := FindByUser(g.members, userId);
    if k :| 0 <= k < |g.members| && IsNext(g, g.members[k], userId) {
      assert i.Some? && i.value == k;
    }
  }

  predicate IsNext(g: Group, m: Member, userId: nat) {
    m.userId == userId && !m.hasReceivedPayout && m.payoutOrder == Some(g.currentRound - 1)
  }

  // ---------------------------------------------------------------- a whole life

  /** The first n members pay. */
  function PayAll(n: nat): seq<Event> {
    if n == 0 then [] else PayAll(n - 1) + [Pays(n - 1)]
  }

  /** Some rounds of n members: everybody pays, and the round advances. */
  function Life(n: nat, rounds: nat): seq<Event> {
    if rounds == 0 then [] else Life(n, rounds - 1) + PayAll(n) + [Advance(true)]
  }

  lemma {:induction false} LifeUndisturbed(n: nat, rounds: nat)
    ensures forall e :: e in Life(n, rounds) ==> Undisturbed(e)
  {
    if rounds > 0 {
      LifeUndisturbed(n, rounds - 1);
      PayAllUndisturbed(n);
    }
  }

  lemma {:induction false} PayAllUndisturbed(n: nat)
    ensures forall e :: e in PayAll(n) ==> Undisturbed(e)
  {
    if n > 0 { PayAllUndisturbed(n - 1); }
  }

  lemma {:induction false} RunConcat(s: State, xs: seq<Event>, ys: seq<Event>)
    ensures Run(s, xs + ys) == Run(Run(s, xs), ys)
    decreases |xs|
  {
    if xs == [] {
      assert xs + ys == ys;
    } else {
      assert (xs + ys)[1..] == xs[1..] + ys;
      RunConcat(Step(s, xs[0]), xs[1..], ys);
    }
  }

  lemma RunOne(s: State, e: Event)
    ensures Run(s, [e]) == Step(s, e)
  {
    assert [e][1..] == [];
  }

  lemma {:induction false} PayAllPays(s: State, n: nat)
    requires n <= |s.group.members|
    ensures var t := Run(s, PayAll(n));
            && t == State(s.group.(members := t.group.members), s.marks)
            && |t.group.members| == |s.group.members|
            && forall i :: 0 <= i < |s.group.members| ==>
                 t.group.members[i] == if i < n then s.group.members[i].(hasPaidCurrentRound := true) else s.group.members[i]
  {
    if n > 0 {
      PayAllPays(s, n - 1);
      RunConcat(s, PayAll(n - 1), [Pays(n - 1)]);
      RunOne(Run(s, PayAll(n - 1)), Pays(n - 1));
    }
  }

  /** An ACTIVE group with somebody in it. */
  ghost predicate Alive(g: Group) {
    g.status == Active && exists i :: 0 <= i < |g.members| && g.members[i].isActive
  }

  lemma RoundAdvances(s: State)
    requires Alive(s.group)
    ensures var t := Run(Run(s, PayAll(|s.group.members|)), [Advance(true)]).group;
            && t.currentRound == s.group.currentRound + 1 && t.totalRounds == s.group.totalRounds
            && |t.members| == |s.group.members|
            && (if t.currentRound > t.totalRounds then t.status == Completed else Alive(t))
  {
    var n := |s.group.members|;
    PayAllPays(s, n);
    var u := Run(s, PayAll(n));
    RunOne(u, Advance(true));
    var i :| 0 <= i < n && s.group.members[i].isActive;
    assert u.group.members[i] in u.group.members && u.group.members[i].isActive;
    assert CanAdvance(u.group);
    assert Advanced(u.group).members[i].isActive;
    assert Step(u, Advance(true)).group.members[i].isActive;
  }

  lemma {:induction false} LifeAdvances(s: State, rounds: nat)
    requires Alive(s.group) && s.group.currentRound == 1 && rounds <= s.group.totalRounds && s.group.totalRounds >= 1
    ensures var t := Run(s, Life(|s.group.members|, rounds)).group;
            && t.currentRound == 1 + rounds && t.totalRounds == s.group.totalRounds && |t.members| == |s.group.members|
            && (if rounds == s.group.totalRounds then t.status == Completed else Alive(t))
  {
    if rounds > 0 {
      var n := |s.group.members|;
      LifeAdvances(s, rounds - 1);
      RunConcat(s, Life(n, rounds - 1) + PayAll(n), [Advance(true)]);
      RunConcat(s, Life(n, rounds - 1), PayAll(n));
      RoundAdvances(Run(s, Life(n, rounds - 1)));
    }
  }

  /**
   The gap is real: every fresh group with an active member has a run that completes it, in which
   everybody pays every round and every payout goes through, and the last recipient stays unpaid
   while all others are paid.
   */
  lemma CompletedWithLastUnpaid(totalRounds: nat, ms: seq<Member>)
    requires totalRounds >= 1 && DistinctOrders(ms) && forall m <- ms :: !m.hasReceivedPayout
    requires exists m :: m in ms && m.isActive
    ensures var g := Run(State(Group(Pending, 0, totalRounds, ms), []), [Activate] + Life(|ms|, totalRounds)).group;
            && g.status == Completed && |g.members| == |ms|
            && forall k :: 0 <= k < |ms| ==>
                 g.members[k].payoutOrder == ms[k].payoutOrder
                 && (g.members[k].hasReceivedPayout <==> ms[k].payoutOrder.Some? && ms[k].payoutOrder.value + 1 < totalRounds)
  {
    var s := State(Group(Pending, 0, totalRounds, ms), []);
    var es := [Activate] + Life(|ms|, totalRounds);
    FreshInvariant(totalRounds, ms);
    forall k | 0 <= k < |ms| ensures PaidAsDue(s.group, ms[k]) {
      assert ms[k] in ms;
    }
    LifeUndisturbed(|ms|, totalRounds);
    PaidIffRoundOverAndNotLast(s, es);
    RunKeeps(s, es);
    RunConcat(s, [Activate], Life(|ms|, totalRounds));
    RunOne(s, Activate);
    LifeAdvances(Step(s, Activate), totalRounds);
    var g := Run(s, es).group;
    forall k | 0 <= k < |ms|
      ensures g.members[k].payoutOrder == ms[k].payoutOrder
      ensures g.members[k].hasReceivedPayout <==> ms[k].payoutOrder.Some? && ms[k].payoutOrder.value + 1 < totalRounds
    {
      assert PaidAsDue(g, g.members[k]);
    }
  }
}
