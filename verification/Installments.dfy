/**
 Installment plans that can be paused and resumed. The record is updated in place by the class; the
 functions beside it say what each method does to the record's value, and the lemmas are about runs
 of those functions. The main one erases all pauses from a run.
 */
module Installments {
  import opened Wrappers

  datatype Status = Active | Completed | Expired | Paused

  datatype Plan = Plan(
    numInstallments: int,
    intervalLedgers: int,
    expiryLedger: int,
    installmentAmounts: seq<int>,
    currentInstallment: int,
    nextDueLedger: int,
    status: Status,
    paused: bool,
    pausedAtLedger: Option<int>,
    totalPausedLedgers: int,
    pauseCount: int,
    lastResumedAtLedger: Option<int>
  )

  datatype Outcome =
    | Done | NotActive | IsPaused | NotDue | AlreadyCompleted | PlanExpired
    | CannotPause | PauseLimit | Cooldown(remaining: int) | NotPaused | BeforePause

  const MAX_PAUSES_PER_PLAN := 3
  const MIN_LEDGERS_BETWEEN_PAUSES := 100

  // ---------------------------------------------------------------- what the operations do

  /** BigInt division, which truncates toward zero. */
  function TruncatedQuotient(a: int, b: int): int
    requires b > 0
  {
    if a >= 0 then a / b else -(-a / b)
  }

  /** A new plan, or none when there is no installment. */
  function Create(totalAmount: int, numInstallments: int, intervalLedgers: int, expiryLedger: int): (r: Option<Plan>)
    ensures r.None? <==> numInstallments < 1
  {
    if numInstallments < 1 then None
    else
      var each := TruncatedQuotient(totalAmount, numInstallments);
      Some(Plan(numInstallments, intervalLedgers, expiryLedger, seq(numInstallments, i => each), 0, 0, Active, false, None, 0, 0, None))
  }

  function Settle(p: Plan, ledger: int): (Plan, Outcome) {
    if p.status != Active then (p, NotActive)
    else if p.paused then (p, IsPaused)
    else if ledger < p.nextDueLedger then (p, NotDue)
    else if p.currentInstallment >= p.numInstallments then (p, AlreadyCompleted)
    else if ledger > p.expiryLedger then (p.(status := Expired), PlanExpired)
    else
      var q := p.(currentInstallment := p.currentInstallment + 1);
      if q.currentInstallment >= q.numInstallments then (q.(status := Completed), Done)
      else (q.(nextDueLedger := q.nextDueLedger + q.intervalLedgers), Done)
  }

  function Pause(p: Plan, ledger: int): (Plan, Outcome) {
    if p.status != Active || p.paused then (p, CannotPause)
    else if p.pauseCount >= MAX_PAUSES_PER_PLAN then (p, PauseLimit)
    else if p.lastResumedAtLedger.Some? && ledger - p.lastResumedAtLedger.value < MIN_LEDGERS_BETWEEN_PAUSES then
      (p, Cooldown(MIN_LEDGERS_BETWEEN_PAUSES - (ledger - p.lastResumedAtLedger.value)))
    else (p.(paused := true, status := Paused, pausedAtLedger := Some(ledger), pauseCount := p.pauseCount + 1), Done)
  }

  /** A pause whose start was never recorded counts as starting now. */
  function PauseStart(p: Plan, ledger: int): int {
    if p.pausedAtLedger.Some? then p.pausedAtLedger.value else ledger
  }

  function Resume(p: Plan, ledger: int): (Plan, Outcome) {
    if p.status != Paused || !p.paused then (p, NotPaused)
    else if ledger < PauseStart(p, ledger) then (p, BeforePause)
    else
      var d := ledger - PauseStart(p, ledger);
      (p.(nextDueLedger := p.nextDueLedger + d, expiryLedger := p.expiryLedger + d,
          totalPausedLedgers := p.totalPausedLedgers + d, paused := false, status := Active,
          pausedAtLedger := None, lastResumedAtLedger := Some(ledger)), Done)
  }

  // ---------------------------------------------------------------- penalty accrual

  datatype Accrual = Accrual(
    accruing: bool,
    effectiveDueLedger: int,
    ledgersLate: int,
    completedPenaltyWindows: int,
    midWindowProgress: real
  )

  /** `getPenaltyAccrualState` */
  function PenaltyAccrual(p: Plan, ledger: int): Accrual {
    var interval := if p.intervalLedgers < 1 then 1 else p.intervalLedgers;
    if p.paused then Accrual(false, p.nextDueLedger, 0, 0, 0.0)
    else
      var late := if ledger - p.nextDueLedger < 0 then 0 else ledger - p.nextDueLedger;
      Accrual(late > 0, p.nextDueLedger, late, late / interval, (late % interval) as real / interval as real)
  }

  // ---------------------------------------------------------------- the record

  class PlanRecord {
    const numInstallments: int
    const intervalLedgers: int
    const installmentAmounts: seq<int>
    var expiryLedger: int
    var currentInstallment: int
    var nextDueLedger: int
    var status: Status
    var paused: bool
    var pausedAtLedger: Option<int>
    var totalPausedLedgers: int
    var pauseCount: int
    var lastResumedAtLedger: Option<int>

    /** The record as a value. */
    ghost function View(): Plan
      reads this
    {
      Plan(numInstallments, intervalLedgers, expiryLedger, installmentAmounts, currentInstallment, nextDueLedger,
           status, paused, pausedAtLedger, totalPausedLedgers, pauseCount, lastResumedAtLedger)
    }

    constructor (totalAmount: int, num: int, interval: int, expiry: int)
      requires num >= 1
      ensures Some(View()) == Create(totalAmount, num, interval, expiry)
    {
      var each := TruncatedQuotient(totalAmount, num);
      numInstallments, intervalLedgers, expiryLedger := num, interval, expiry;
      installmentAmounts := seq(num, i => each);
      currentInstallment, nextDueLedger, status := 0, 0, Active;
      paused, pausedAtLedger, totalPausedLedgers, pauseCount, lastResumedAtLedger := false, None, 0, 0, None;
    }

    method SettleInstallment(currentLedger: int) returns (r: Outcome)
      modifies this
      ensures (View(), r) == Settle(old(View()), currentLedger)
    {
      if status != Active { return NotActive; }
      if paused { return IsPaused; }
      if currentLedger < nextDueLedger { return NotDue; }
      if currentInstallment >= numInstallments { return AlreadyCompleted; }
      if currentLedger > expiryLedger {
        status := Expired;
        return PlanExpired;
      }
      currentInstallment := currentInstallment + 1;
      if currentInstallment >= numInstallments {
        status := Completed;
      } else {
        nextDueLedger := nextDueLedger + intervalLedgers;
      }
      r := Done;
    }

    method PausePlan(currentLedger: int) returns (r: Outcome)
      modifies this
      ensures (View(), r) == Pause(old(View()), currentLedger)
    {
      if status != Active || paused { return CannotPause; }
      if pauseCount >= MAX_PAUSES_PER_PLAN { return PauseLimit; }
      if lastResumedAtLedger.Some? && currentLedger - lastResumedAtLedger.value < MIN_LEDGERS_BETWEEN_PAUSES {
        return Cooldown(MIN_LEDGERS_BETWEEN_PAUSES - (currentLedger - lastResumedAtLedger.value));
      }
      paused := true;
      status := Paused;
      pausedAtLedger := Some(currentLedger);
      pauseCount := pauseCount + 1;
      r := Done;
    }

    method ResumePlan(currentLedger: int) returns (r: Outcome)
      modifies this
      ensures (View(), r) == Resume(old(View()), currentLedger)
    {
      if status != Paused || !paused { return NotPaused; }
      var start := if pausedAtLedger.None? then currentLedger else pausedAtLedger.value;
      if currentLedger < start { return BeforePause; }
      var pausedLedgers := currentLedger - start;
      nextDueLedger := nextDueLedger + pausedLedgers;
      expiryLedger := expiryLedger + pausedLedgers;
      totalPausedLedgers := totalPausedLedgers + pausedLedgers;
      paused := false;
      status := Active;
      pausedAtLedger := None;
      lastResumedAtLedger := Some(currentLedger);
      r := Done;
    }
  }

  // ---------------------------------------------------------------- runs

  datatype Op = SettleAt(ledger: int) | PauseAt(ledger: int) | ResumeAt(ledger: int)

  function Apply(p: Plan, op: Op): (Plan, Outcome) {
    match op
    case SettleAt(t) => Settle(p, t)
    case PauseAt(t) => Pause(p, t)
    case ResumeAt(t) => Resume(p, t)
  }

  function Run(p: Plan, ops: seq<Op>): Plan
    decreases |ops|
  {
    if ops == [] then p else Run(Apply(p, ops[0]).0, ops[1..])
  }

  /** The two pause markers agree, as every operation leaves them. */
  ghost predicate Consistent(p: Plan) {
    p.paused <==> p.status == Paused
  }

  lemma {:induction false} RunConsistent(p: Plan, ops: seq<Op>)
    requires Consistent(p)
    ensures Consistent(Run(p, ops))
    decreases |ops|
  {
    if ops != [] {
      RunConsistent(Apply(p, ops[0]).0, ops[1..]);
    }
  }

  // ---------------------------------------------------------------- erasing pauses

  /** The plan as it would be had it never been paused, on a clock that stops during pauses. */
  function Erase(p: Plan): Plan {
    p.(nextDueLedger := p.nextDueLedger - p.totalPausedLedgers,
       expiryLedger := p.expiryLedger - p.totalPausedLedgers,
       status := if p.status == Paused then Active else p.status,
       paused := false, pausedAtLedger := None, totalPausedLedgers := 0, pauseCount := 0, lastResumedAtLedger := None)
  }

  /** The settlements of a run that meet a running plan, at the time the stopped clock shows. */
  function EraseOps(p: Plan, ops: seq<Op>): seq<Op>
    decreases |ops|
  {
    if ops == [] then []
    else
      (if ops[0].SettleAt? && !p.paused then [SettleAt(ops[0].ledger - p.totalPausedLedgers)] else [])
      + EraseOps(Apply(p, ops[0]).0, ops[1..])
  }

  /** What those settlements answer. */
  function SettleOutcomes(p: Plan, ops: seq<Op>): seq<Outcome>
    decreases |ops|
  {
    if ops == [] then []
    else
      (if ops[0].SettleAt? && !p.paused then [Apply(p, ops[0]).1] else [])
      + SettleOutcomes(Apply(p, ops[0]).0, ops[1..])
  }

  lemma EraseStep(p: Plan, op: Op)
    requires Consistent(p)
    ensures Erase(Apply(p, op).0)
         == (if op.SettleAt? && !p.paused then Settle(Erase(p), op.ledger - p.totalPausedLedgers).0 else Erase(p))
    ensures op.SettleAt? && !p.paused ==> Apply(p, op).1 == Settle(Erase(p), op.ledger - p.totalPausedLedgers).1
  {
  }

  /** Only settlements are left of a run, so the erased plan is never paused. */
  ghost predicate OnlySettles(ops: seq<Op>) {
    forall op <- ops :: op.SettleAt?
  }

  /**
   Erasing pauses is a simulation: the erased run of the never-paused plan ends where the real run
   ends, and every settlement gets the same answer.
   */
  lemma {:induction false} ErasingPausesSimulates(p: Plan, ops: seq<Op>)
    requires Consistent(p)
    ensures OnlySettles(EraseOps(p, ops))
    ensures Erase(Run(p, ops)) == Run(Erase(p), EraseOps(p, ops))
    ensures SettleOutcomes(p, ops) == SettleOutcomes(Erase(p), EraseOps(p, ops))
    decreases |ops|
  {
    if ops != [] {
      var q := Apply(p, ops[0]).0;
      EraseStep(p, ops[0]);
      ErasingPausesSimulates(q, ops[1..]);
      if ops[0].SettleAt? && !p.paused {
        var op := SettleAt(ops[0].ledger - p.totalPausedLedgers);
        var rest := EraseOps(q, ops[1..]);
        assert ([op] + rest)[1..] == rest;
        assert Apply(Erase(p), op).0 == Erase(q);
      } else {
        assert [] + EraseOps(q, ops[1..]) == EraseOps(q, ops[1..]);
        assert [] + SettleOutcomes(q, ops[1..]) == SettleOutcomes(q, ops[1..]);
      }
    }
  }

  /** Lateness, windows and progress are those of the erased plan; only the due ledger is shifted. */
  lemma AccrualOfErased(p: Plan, ledger: int)
    requires !p.paused
    ensures var a := PenaltyAccrual(Erase(p), ledger - p.totalPausedLedgers);
            PenaltyAccrual(p, ledger) == a.(effectiveDueLedger := a.effectiveDueLedger + p.totalPausedLedgers)
  {
    assert ledger - p.nextDueLedger == (ledger - p.totalPausedLedgers) - Erase(p).nextDueLedger;
  }

  /** Nothing accrues during a pause, and afterwards lateness goes on from where it stood. */
  lemma PausePreservesLateness(p: Plan, pauseLedger: int, during: seq<Op>, resumeLedger: int, later: int)
    requires Pause(p, pauseLedger).1 == Done
    requires forall op <- during :: !op.ResumeAt?
    requires Resume(Run(Pause(p, pauseLedger).0, during), resumeLedger).1 == Done
    ensures var q := Run(Pause(p, pauseLedger).0, during);
            var r := Resume(q, resumeLedger).0;
            && PenaltyAccrual(q, later) == Accrual(false, p.nextDueLedger, 0, 0, 0.0)
            && PenaltyAccrual(r, resumeLedger + later)
               == PenaltyAccrual(p, pauseLedger + later).(effectiveDueLedger := p.nextDueLedger + (resumeLedger - pauseLedger))
  {
    StaysPaused(Pause(p, pauseLedger).0, during);
  }

  lemma {:induction false} StaysPaused(p: Plan, during: seq<Op>)
    requires p.paused && p.status == Paused && forall op <- during :: !op.ResumeAt?
    ensures Run(p, during) == p
  {
    if during != [] {
      assert Apply(p, during[0]).0 == p;
      StaysPaused(p, during[1..]);
    }
  }

  // ---------------------------------------------------------------- the schedule of a fresh plan

  function Min(a: int, b: int): int { if a < b then a else b }

  /** Where a plan created with these parameters stands, whatever has been done to it. */
  ghost predicate OnSchedule(p: Plan, origin: Plan) {
    && Consistent(p)
    && p.numInstallments == origin.numInstallments && p.intervalLedgers == origin.intervalLedgers
    && p.installmentAmounts == origin.installmentAmounts
    && 0 <= p.currentInstallment <= p.numInstallments
    && (p.currentInstallment == p.numInstallments <==> p.status == Completed)
    && p.expiryLedger == origin.expiryLedger + p.totalPausedLedgers
    && p.nextDueLedger == p.intervalLedgers * Min(p.currentInstallment, p.numInstallments - 1) + p.totalPausedLedgers
    && 0 <= p.totalPausedLedgers
    && 0 <= p.pauseCount <= MAX_PAUSES_PER_PLAN
    && (p.paused ==> p.pausedAtLedger.Some? && p.pauseCount > 0)
  }

  lemma StepOnSchedule(p: Plan, origin: Plan, op: Op)
    requires OnSchedule(p, origin)
    ensures OnSchedule(Apply(p, op).0, origin)
  {
    var c, n := p.currentInstallment, p.numInstallments;
    if op.SettleAt? && c + 1 < n {
      assert p.intervalLedgers * (c + 1) == p.intervalLedgers * c + p.intervalLedgers;
    }
  }

  /** Every run of a fresh plan keeps it on schedule. */
  lemma {:induction false} RunOnSchedule(p: Plan, origin: Plan, ops: seq<Op>)
    requires OnSchedule(p, origin)
    ensures OnSchedule(Run(p, ops), origin)
    decreases |ops|
  {
    if ops != [] {
      StepOnSchedule(p, origin, ops[0]);
      RunOnSchedule(Apply(p, ops[0]).0, origin, ops[1..]);
    }
  }

  lemma FreshOnSchedule(total: int, n: int, interval: int, expiry: int)
    requires n >= 1
    ensures OnSchedule(Create(total, n, interval, expiry).value, Create(total, n, interval, expiry).value)
  {
  }

  // ---------------------------------------------------------------- runs are short

  /** How many state changes are left. */
  function Remaining(p: Plan): int {
    (if p.status == Active || p.status == Paused then p.numInstallments - p.currentInstallment else 0)
    + 2 * (MAX_PAUSES_PER_PLAN - p.pauseCount) + (if p.paused then 1 else 0)
  }

  function Changes(p: Plan, ops: seq<Op>): nat
    decreases |ops|
  {
    if ops == [] then 0
    else (if Apply(p, ops[0]).0 != p then 1 else 0) + Changes(Apply(p, ops[0]).0, ops[1..])
  }

  lemma ChangeUsesUp(p: Plan, origin: Plan, op: Op)
    requires OnSchedule(p, origin) && Apply(p, op).0 != p
    ensures 0 <= Remaining(Apply(p, op).0) < Remaining(p)
  {
  }

  lemma {:induction false} ChangesBounded(p: Plan, origin: Plan, ops: seq<Op>)
    requires OnSchedule(p, origin)
    ensures Changes(p, ops) <= Remaining(p)
    decreases |ops|
  {
    if ops != [] {
      StepOnSchedule(p, origin, ops[0]);
      ChangesBounded(Apply(p, ops[0]).0, origin, ops[1..]);
      if Apply(p, ops[0]).0 != p { ChangeUsesUp(p, origin, ops[0]); }
    }
  }

  /** A plan of n installments changes state at most n + 6 times in its life, and keeps its schedule. */
  lemma FreshPlanLife(total: int, n: int, interval: int, expiry: int, ops: seq<Op>)
    requires n >= 1
    ensures var p := Create(total, n, interval, expiry).value;
            && Changes(p, ops) <= n + 6
            && OnSchedule(Run(p, ops), p)
  {
    FreshOnSchedule(total, n, interval, expiry);
    var p := Create(total, n, interval, expiry).value;
    ChangesBounded(p, p, ops);
    RunOnSchedule(p, p, ops);
  }

  // ---------------------------------------------------------------- when an operation succeeds, and what it does

  /** A running plan with an installment left that is due. */
  predicate InstallmentDue(p: Plan, ledger: int) {
    p.status == Active && !p.paused && p.nextDueLedger <= ledger && p.currentInstallment < p.numInstallments
  }

  /**
   A settlement succeeds exactly when an installment is due and the plan has not expired, and then moves
   exactly one installment on; it expires the plan exactly when one is due too late; else it changes nothing.
   */
  lemma SettlesIff(p: Plan, ledger: int)
    ensures var (q, r) := Settle(p, ledger);
            && (r == Done <==> InstallmentDue(p, ledger) && ledger <= p.expiryLedger)
            && (r == PlanExpired <==> InstallmentDue(p, ledger) && p.expiryLedger < ledger)
            && (r == PlanExpired ==> q == p.(status := Expired))
            && (r != Done && r != PlanExpired ==> q == p)
            && (r == Done && p.currentInstallment + 1 < p.numInstallments ==>
                  q == p.(currentInstallment := p.currentInstallment + 1, nextDueLedger := p.nextDueLedger + p.intervalLedgers))
            && (r == Done && p.currentInstallment + 1 == p.numInstallments ==>
                  q == p.(currentInstallment := p.currentInstallment + 1, status := Completed))
  {
  }

  /** Why a settlement is refused. */
  lemma SettleRefusals(p: Plan, ledger: int)
    ensures var r := Settle(p, ledger).1;
            && (r == NotActive <==> p.status != Active)
            && (r == IsPaused <==> p.status == Active && p.paused)
            && (r == NotDue <==> p.status == Active && !p.paused && ledger < p.nextDueLedger)
            && (r == AlreadyCompleted <==>
                  p.status == Active && !p.paused && p.nextDueLedger <= ledger && p.numInstallments <= p.currentInstallment)
  {
  }

  /** A pause succeeds exactly for a running plan with a pause left and at least 100 ledgers after its last resume. */
  lemma PausesIff(p: Plan, ledger: int)
    ensures var (q, r) := Pause(p, ledger);
            && (r == Done <==>
                  && p.status == Active && !p.paused && p.pauseCount <= 2
                  && (p.lastResumedAtLedger.Some? ==> p.lastResumedAtLedger.value + 100 <= ledger))
            && (r == Done ==> q == p.(paused := true, status := Paused, pausedAtLedger := Some(ledger), pauseCount := p.pauseCount + 1))
            && (r != Done ==> q == p)
            && (r.Cooldown? ==> p.lastResumedAtLedger.Some? && ledger + r.remaining == p.lastResumedAtLedger.value + 100 && r.remaining > 0)
  {
  }

  /** A resume succeeds exactly for a paused plan at or after its pause, and shifts the plan by the time between. */
  lemma ResumesIff(p: Plan, ledger: int)
    ensures var (q, r) := Resume(p, ledger);
            && (r == Done <==> p.status == Paused && p.paused && (p.pausedAtLedger.Some? ==> p.pausedAtLedger.value <= ledger))
            && (r == Done && p.pausedAtLedger.Some? ==>
                  && q.nextDueLedger - p.nextDueLedger == ledger - p.pausedAtLedger.value
                  && q.expiryLedger - p.expiryLedger == ledger - p.pausedAtLedger.value
                  && q.totalPausedLedgers - p.totalPausedLedgers == ledger - p.pausedAtLedger.value)
            && (r == Done && p.pausedAtLedger.None? ==>
                  q.nextDueLedger == p.nextDueLedger && q.expiryLedger == p.expiryLedger && q.totalPausedLedgers == p.totalPausedLedgers)
            && (r == Done ==>
                  && q.status == Active && !q.paused && q.pausedAtLedger.None? && q.lastResumedAtLedger == Some(ledger)
                  && q.currentInstallment == p.currentInstallment && q.pauseCount == p.pauseCount)
            && (r != Done ==> q == p)
  {
  }

  /**
   In every run of a fresh plan, a settlement succeeds neither before its installment's due ledger
   nor after the initial expiry, both counted with the ledgers the plan was paused for.
   */
  lemma SettledInTime(total: int, n: int, interval: int, expiry: int, ops: seq<Op>, i: nat)
    requires n >= 1 && i < |ops| && ops[i].SettleAt?
    requires Apply(Run(Create(total, n, interval, expiry).value, ops[..i]), ops[i]).1 == Done
    ensures var q := Run(Create(total, n, interval, expiry).value, ops[..i]);
            && interval * q.currentInstallment + q.totalPausedLedgers <= ops[i].ledger <= expiry + q.totalPausedLedgers
            && 0 <= q.currentInstallment < n && q.totalPausedLedgers >= 0
  {
    var p := Create(total, n, interval, expiry).value;
    FreshOnSchedule(total, n, interval, expiry);
    RunOnSchedule(p, p, ops[..i]);
    SettlesIff(Run(p, ops[..i]), ops[i].ledger);
  }

  /** How many settlements of a run succeed. */
  function Settlements(p: Plan, ops: seq<Op>): nat
    decreases |ops|
  {
    if ops == [] then 0
    else (if ops[0].SettleAt? && Apply(p, ops[0]).1 == Done then 1 else 0) + Settlements(Apply(p, ops[0]).0, ops[1..])
  }

  lemma {:induction false} SettlementsCount(p: Plan, ops: seq<Op>)
    ensures Run(p, ops).currentInstallment == p.currentInstallment + Settlements(p, ops)
    decreases |ops|
  {
    if ops != [] { SettlementsCount(Apply(p, ops[0]).0, ops[1..]); }
  }

  /** A fresh plan is completed exactly by its n-th successful settlement, and there is no further one. */
  lemma CompletedByAllInstallments(total: int, n: int, interval: int, expiry: int, ops: seq<Op>)
    requires n >= 1
    ensures var p := Create(total, n, interval, expiry).value;
            Settlements(p, ops) <= n && (Run(p, ops).status == Completed <==> Settlements(p, ops) == n)
  {
    var p := Create(total, n, interval, expiry).value;
    FreshOnSchedule(total, n, interval, expiry);
    RunOnSchedule(p, p, ops);
    SettlementsCount(p, ops);
  }

  /**
   What the accrual says: a running plan is late by the ledgers since its due ledger, and full windows
   and progress add up to them; a window is the plan's interval, or one ledger if that is less.
   */
  lemma AccrualMeasuresLateness(p: Plan, ledger: int)
    requires !p.paused
    ensures var a, window := PenaltyAccrual(p, ledger), if p.intervalLedgers >= 1 then p.intervalLedgers else 1;
            && a.effectiveDueLedger == p.nextDueLedger
            && (ledger <= p.nextDueLedger ==> a.ledgersLate == 0)
            && (p.nextDueLedger <= ledger ==> p.nextDueLedger + a.ledgersLate == ledger)
            && (a.accruing <==> p.nextDueLedger < ledger)
            && 0 <= a.completedPenaltyWindows && 0.0 <= a.midWindowProgress < 1.0
            && (a.completedPenaltyWindows as real + a.midWindowProgress) * window as real == a.ledgersLate as real
  {
    var a, window := PenaltyAccrual(p, ledger), if p.intervalLedgers >= 1 then p.intervalLedgers else 1;
    WindowsAddUp(a.ledgersLate, window);
  }

  lemma WindowsAddUp(late: int, window: int)
    requires late >= 0 && window >= 1
    ensures 0 <= late / window && 0.0 <= (late % window) as real / window as real < 1.0
    ensures ((late / window) as real + (late % window) as real / window as real) * window as real == late as real
  {
    assert late == late / window * window + late % window;
    var q, r, w := (late / window) as real, (late % window) as real, window as real;
    assert r / w * w == r;
    assert (q + r / w) * w == q * w + r / w * w;
    FractionBelowOne(r, w);
  }

  lemma FractionBelowOne(r: real, w: real)
    requires 0.0 <= r < w
    ensures 0.0 <= r / w < 1.0
  {
  }

  // ---------------------------------------------------------------- pauses keep their distance

  /** The last pause began, and was lifted, no earlier than the given ledger. */
  ghost predicate PausedSince(p: Plan, ledger: int) {
    && Consistent(p)
    && (if p.paused then p.pausedAtLedger.Some? && ledger <= p.pausedAtLedger.value
        else p.lastResumedAtLedger.Some? && ledger <= p.lastResumedAtLedger.value)
  }

  lemma {:induction false} NextPauseLater(p: Plan, ledger: int, ops: seq<Op>, j: nat)
    requires PausedSince(p, ledger)
    requires j < |ops| && ops[j].PauseAt? && Apply(Run(p, ops[..j]), ops[j]).1 == Done
    ensures ops[j].ledger >= ledger + MIN_LEDGERS_BETWEEN_PAUSES
    decreases |ops|
  {
    if j > 0 {
      assert ops[1..][..j - 1] == ops[..j][1..];
      NextPauseLater(Apply(p, ops[0]).0, ledger, ops[1..], j - 1);
    }
  }

  lemma {:induction false} RunSplit(p: Plan, ops: seq<Op>, i: nat)
    requires i <= |ops|
    ensures Run(p, ops) == Run(Run(p, ops[..i]), ops[i..])
    decreases |ops|
  {
    if i > 0 {
      RunSplit(Apply(p, ops[0]).0, ops[1..], i - 1);
      assert ops[..i][1..] == ops[1..][..i - 1];
    }
  }

  /** In any run, two pauses begin at least 100 ledgers apart. */
  lemma PausesApart(p: Plan, ops: seq<Op>, i: nat, j: nat)
    requires Consistent(p) && i < j < |ops|
    requires ops[i].PauseAt? && Apply(Run(p, ops[..i]), ops[i]).1 == Done
    requires ops[j].PauseAt? && Apply(Run(p, ops[..j]), ops[j]).1 == Done
    ensures ops[j].ledger >= ops[i].ledger + MIN_LEDGERS_BETWEEN_PAUSES
  {
    RunConsistent(p, ops[..i]);
    var q := Run(p, ops[..i]);
    var r := Apply(q, ops[i]).0;
    RunSplit(p, ops[..j], i);
    assert ops[..j][..i] == ops[..i];
    var rest := ops[i + 1..];
    assert ops[..j][i..] == [ops[i]] + rest[..j - i - 1];
    assert ([ops[i]] + rest[..j - i - 1])[1..] == rest[..j - i - 1];
    NextPauseLater(r, ops[i].ledger, rest, j - i - 1);
  }

  // ---------------------------------------------------------------- what the installments add up to

  function Sum(xs: seq<int>): int {
    if xs == [] then 0 else xs[0] + Sum(xs[1..])
  }

  lemma {:induction false} SumOfEqual(xs: seq<int>, x: int)
    requires forall i :: 0 <= i < |xs| ==> xs[i] == x
    ensures Sum(xs) == |xs| * x
  {
    if xs != [] {
      SumOfEqual(xs[1..], x);
      assert |xs| * x == x + (|xs| - 1) * x;
    }
  }

  /** The installments add up to the total exactly when they divide it; otherwise a remainder is lost. */
  lemma InstallmentsAddUp(total: int, n: int, interval: int, expiry: int)
    requires n >= 1
    ensures var sum := Sum(Create(total, n, interval, expiry).value.installmentAmounts);
            && (sum == total <==> total % n == 0)
            && (total >= 0 ==> total - sum == total % n)
  {
    var each := TruncatedQuotient(total, n);
    SumOfEqual(Create(total, n, interval, expiry).value.installmentAmounts, each);
    if total < 0 {
      var m := -total;
      assert m == n * (m / n) + m % n;
      assert total == n * (total / n) + total % n;
      if m % n == 0 {
        DivisibleUnique(total, n, -(m / n));
      }
      if total % n == 0 {
        DivisibleUnique(m, n, -(total / n));
      }
    }
  }

  /** The quotient truncates toward zero: the remainder is smaller than the divisor and has the dividend's sign. */
  lemma QuotientTruncates(a: int, b: int)
    requires b > 0
    ensures var r := a - TruncatedQuotient(a, b) * b; -b < r < b && (a >= 0 ==> r >= 0) && (a <= 0 ==> r <= 0)
  {
    assert a >= 0 ==> a == a / b * b + a % b;
    assert a < 0 ==> -a == -a / b * b + -a % b;
  }

  lemma DivisibleUnique(a: int, n: int, q: int)
    requires n >= 1 && a == n * q
    ensures a / n == q && a % n == 0
  {
    assert a == n * (a / n) + a % n;
    assert n * (q - a / n) == a % n;
    MultipleBeyond(n, q - a / n);
  }

  lemma MultipleBeyond(n: int, k: int)
    requires n >= 1
    ensures k >= 1 ==> n * k >= n
    ensures k <= -1 ==> n * k <= -n
  {
    if k >= 1 {
      assert n * (k - 1) >= 0;
    } else if k <= -1 {
      assert n * (-k - 1) >= 0;
    }
  }
}
