/** A run in which a confirmed contribution is lost: the confirmation worker gives up, and writes last. */
module ContributionRaces {
  import opened JsText
  import opened Wrappers
  import opened Contributions

  /** A request without a key, up to its queued confirmation job. */
  function CreationRun(slot: Slot, h: Text): seq<Event> {
    [Arrive(0, None, slot, h)] + [Validate(0, true)] + [Insert(0)] + [Mark(0)] + [Queue(0, true)]
  }

  lemma CreationReaches(slot: Slot, h: Text)
    ensures var s := Run(INIT, CreationRun(slot, h));
            s.rows == map[0 := Row(None, slot, h, OnChainSubmitted)] && s.jobs == {0} && s.settlers == map[] && s.verdicts == map[]
  {
    var e1 := [Arrive(0, None, slot, h)];
    var e2 := e1 + [Validate(0, true)];
    var e3 := e2 + [Insert(0)];
    var e4 := e3 + [Mark(0)];
    assert e1[..0] == [];
    assert Run(INIT, e1) == Step(INIT, e1[0]);
    RunSnoc(INIT, e1, Validate(0, true));
    RunSnoc(INIT, e2, Insert(0));
    RunSnoc(INIT, e3, Mark(0));
    RunSnoc(INIT, e4, Queue(0, true));
  }

  /** The confirmation worker runs into its deadline and is about to write. */
  function TimeoutRun(slot: Slot, h: Text): seq<Event> {
    CreationRun(slot, h) + [WorkerTakes(0, 0)] + [WorkerTimesOut(0)]
  }

  lemma TimeoutReaches(slot: Slot, h: Text)
    ensures var s := Run(INIT, TimeoutRun(slot, h));
            && s.rows == map[0 := Row(None, slot, h, OnChainSubmitted)] && s.verdicts == map[]
            && s.settlers == map[0 := Settler(0, h, true, Some(Failed), true)]
  {
    CreationReaches(slot, h);
    RunSnoc(INIT, CreationRun(slot, h), WorkerTakes(0, 0));
    RunSnoc(INIT, CreationRun(slot, h) + [WorkerTakes(0, 0)], WorkerTimesOut(0));
  }

  /** Meanwhile the chain confirms and the reconciler writes CONFIRMED. */
  function RaceRun(slot: Slot, h: Text): seq<Event> {
    TimeoutRun(slot, h) + [ChainDecides(h, ChainConfirmed)] + [ReconcilerSelects(1, 0)] + [SettlerAsks(1)] + [SettlerWrites(1)]
  }

  lemma Decides(s: State, h: Text)
    requires h !in s.verdicts
    ensures Step(s, ChainDecides(h, ChainConfirmed)) == s.(verdicts := s.verdicts[h := ChainConfirmed])
  {
  }

  lemma Selects(s: State, w: nat, id: nat)
    requires w !in s.settlers && id in s.rows && s.rows[id].status == OnChainSubmitted
    ensures Step(s, ReconcilerSelects(w, id)) == s.(settlers := s.settlers[w := Settler(id, s.rows[id].txHash, false, None, false)])
  {
  }

  lemma AsksAndWrites(s: State, w: nat)
    requires w in s.settlers && s.settlers[w].decided.None? && s.settlers[w].id in s.rows
    requires s.settlers[w].txHash in s.verdicts && s.verdicts[s.settlers[w].txHash] == ChainConfirmed
    ensures Step(Step(s, SettlerAsks(w)), SettlerWrites(w)) == SetStatus(s, s.settlers[w].id, Confirmed).(settlers := s.settlers - {w})
  {
    var t := s.(settlers := s.settlers[w := s.settlers[w].(decided := Some(Confirmed))]);
    assert Step(s, SettlerAsks(w)) == AskStep(s, w) == t;
    assert Step(t, SettlerWrites(w)) == WriteStep(t, w);
    assert t.settlers - {w} == s.settlers - {w};
  }

  lemma ReconcilerConfirms(s: State, h: Text)
    requires 0 in s.rows && s.rows[0].txHash == h && s.rows[0].status == OnChainSubmitted && 1 !in s.settlers && h !in s.verdicts
    ensures var t := Step(Step(Step(Step(s, ChainDecides(h, ChainConfirmed)), ReconcilerSelects(1, 0)), SettlerAsks(1)), SettlerWrites(1));
            && t.rows == s.rows[0 := s.rows[0].(status := Confirmed)]
            && t.verdicts == s.verdicts[h := ChainConfirmed] && t.settlers == s.settlers
  {
    Decides(s, h);
    var s1 := s.(verdicts := s.verdicts[h := ChainConfirmed]);
    Selects(s1, 1, 0);
    var s2 := s1.(settlers := s.settlers[1 := Settler(0, h, false, None, false)]);
    AsksAndWrites(s2, 1);
    assert s2.settlers - {1} == s.settlers;
  }

  lemma RaceSteps(slot: Slot, h: Text)
    ensures Run(INIT, RaceRun(slot, h)) ==
            Step(Step(Step(Step(Run(INIT, TimeoutRun(slot, h)), ChainDecides(h, ChainConfirmed)), ReconcilerSelects(1, 0)), SettlerAsks(1)), SettlerWrites(1))
  {
    var e0 := TimeoutRun(slot, h);
    var e1 := e0 + [ChainDecides(h, ChainConfirmed)];
    var e2 := e1 + [ReconcilerSelects(1, 0)];
    var e3 := e2 + [SettlerAsks(1)];
    RunSnoc(INIT, e0, ChainDecides(h, ChainConfirmed));
    RunSnoc(INIT, e1, ReconcilerSelects(1, 0));
    RunSnoc(INIT, e2, SettlerAsks(1));
    RunSnoc(INIT, e3, SettlerWrites(1));
  }

  /** The loss is real: a run in which a confirmed contribution ends as FAILED. */
  lemma ConfirmedCanBecomeFailed(slot: Slot, h: Text)
    ensures var s := Run(INIT, RaceRun(slot, h));
            && 0 in s.rows && s.rows[0].status == Confirmed && s.rows[0].txHash == h && h in s.verdicts && s.verdicts[h] == ChainConfirmed
            && 0 in Step(s, SettlerWrites(0)).rows && Step(s, SettlerWrites(0)).rows[0].status == Failed
  {
    TimeoutReaches(slot, h);
    RaceSteps(slot, h);
    ReconcilerConfirms(Run(INIT, TimeoutRun(slot, h)), h);
    LateWorkerFails(Run(INIT, RaceRun(slot, h)), 0);
  }

  lemma LateWorkerFails(s: State, w: nat)
    requires w in s.settlers && s.settlers[w].decided == Some(Failed) && s.settlers[w].id in s.rows
    ensures var t := Step(s, SettlerWrites(w));
            s.settlers[w].id in t.rows && t.rows[s.settlers[w].id].status == Failed
  {
  }
}
