/** Who changes the status of a contribution, and what is never undone. */
module ContributionStatuses {
  import opened JsText
  import opened Wrappers
  import opened Contributions

  // ---------------------------------------------------------------- settlers

  /** The reconciler takes up exactly rows that are ON_CHAIN_SUBMITTED, a worker exactly rows with a job, and uses the job up. */
  lemma SettlersBeginIff(s: State, w: nat, id: nat)
    requires w !in s.settlers
    ensures w in Step(s, ReconcilerSelects(w, id)).settlers <==> id in s.rows && s.rows[id].status == OnChainSubmitted
    ensures w in Step(s, WorkerTakes(w, id)).settlers <==> id in s.jobs && id in s.rows
    ensures w in Step(s, WorkerTakes(w, id)).settlers ==> Step(s, WorkerTakes(w, id)).jobs == s.jobs - {id}
    ensures Step(s, JobSkipped(id)) == s.(jobs := s.jobs - {id})
  {
  }

  /**
   A settler that asks decides on what the chain says. While the chain has not decided a worker goes on asking
   and the reconciler gives up; only a worker, and one without an answer, runs into a deadline.
   */
  lemma SettlersDecideIff(s: State, w: nat)
    requires w in s.settlers && s.settlers[w].decided.None? && !s.settlers[w].timedOut
    ensures var x, t, u := s.settlers[w], Step(s, SettlerAsks(w)), Step(s, WorkerTimesOut(w));
            && t.rows == s.rows && u.rows == s.rows
            && (x.txHash in s.verdicts ==>
                  w in t.settlers && t.settlers[w].decided == Some(if s.verdicts[x.txHash] == ChainConfirmed then Confirmed else Failed))
            && (x.txHash !in s.verdicts ==> if x.isWorker then t == s else t.settlers == s.settlers - {w})
            && w in u.settlers && (if x.isWorker then u.settlers[w].decided == Some(Failed) && u.settlers[w].timedOut else u == s)
  {
    assert Step(s, SettlerAsks(w)) == AskStep(s, w);
  }

  /** What a settler has decided is what it writes, over whatever status the row has by then. */
  lemma SettlersWrite(s: State, w: nat)
    requires w in s.settlers && s.settlers[w].decided.Some? && s.settlers[w].id in s.rows
    ensures var x, t := s.settlers[w], Step(s, SettlerWrites(w));
            t.rows == s.rows[x.id := s.rows[x.id].(status := x.decided.value)] && w !in t.settlers
  {
    assert Step(s, SettlerWrites(w)) == WriteStep(s, w);
  }

  // ---------------------------------------------------------------- statuses

  lemma EntryRows(s: State, e: Event)
    requires (e.Find? || e.TryLock? || e.FindBlocked? || e.Validate?) && e.request in s.requests
    ensures RequestStep(s, e).rows == s.rows
  {
  }

  lemma AnswerRows(s: State, e: Event)
    requires (e.Queue? || e.Advance? || e.Poll? || e.PollTimeout? || e.CrashRequest?) && e.request in s.requests
    ensures RequestStep(s, e).rows == s.rows
  {
  }

  lemma SystemRows(s: State, e: Event)
    requires !OfRequest(e) && !e.SettlerWrites?
    ensures SystemStep(s, e).rows == s.rows
  {
  }

  lemma InsertRows(s: State, r: nat, id: nat)
    requires Invariant(s) && id in s.rows
    ensures id in Step(s, Insert(r)).rows && Step(s, Insert(r)).rows[id] == s.rows[id]
  {
    assert id != s.nextId;
  }

  /** All steps but three leave the rows alone, and an insert leaves those that are there. */
  lemma OtherRows(s: State, e: Event, id: nat)
    requires Invariant(s) && id in s.rows && !e.Mark? && !e.SettlerWrites?
    ensures id in Step(s, e).rows && Step(s, e).rows[id] == s.rows[id]
  {
    if !OfRequest(e) {
      SystemRows(s, e);
    } else if e.Insert? {
      InsertRows(s, e.request, id);
    } else if e.request in s.requests {
      if e.Find? || e.TryLock? || e.FindBlocked? || e.Validate? { EntryRows(s, e); } else { AnswerRows(s, e); }
    }
  }

  /** A step changes the status of an existing row only by marking it or by settling it. */
  lemma StatusWriters(s: State, e: Event, id: nat)
    requires Invariant(s) && id in s.rows
    ensures id in Step(s, e).rows && Step(s, e).rows[id] == s.rows[id].(status := Step(s, e).rows[id].status)
    ensures Step(s, e).rows[id].status != s.rows[id].status ==>
              || (e.Mark? && e.request in s.requests && s.requests[e.request].phase == Created(id)
                  && s.rows[id].status == Pending && Step(s, e).rows[id].status == OnChainSubmitted)
              || (e.SettlerWrites? && e.settler in s.settlers && s.settlers[e.settler].id == id
                  && s.settlers[e.settler].decided == Some(Step(s, e).rows[id].status))
  {
    if e.Mark? {
      assert e.request in s.requests ==> RequestOk(s, s.requests[e.request]);
    } else if !e.SettlerWrites? {
      OtherRows(s, e, id);
    }
  }

  lemma StepKeepsTerminal(s: State, e: Event, id: nat)
    requires Invariant(s) && id in s.rows && Terminal(s.rows[id].status)
    ensures id in Step(s, e).rows && Terminal(Step(s, e).rows[id].status)
  {
    StatusWriters(s, e, id);
    if e.Mark? && e.request in s.requests {
      assert RequestOk(s, s.requests[e.request]);
    }
    if e.SettlerWrites? && e.settler in s.settlers {
      assert SettlerOk(s, s.settlers[e.settler]);
    }
  }

  /** A settled contribution never becomes PENDING or ON_CHAIN_SUBMITTED again. */
  lemma {:induction false} SettledStaysSettled(es: seq<Event>, more: seq<Event>, id: nat)
    requires id in Run(INIT, es).rows && Terminal(Run(INIT, es).rows[id].status)
    ensures id in Run(INIT, es + more).rows && Terminal(Run(INIT, es + more).rows[id].status)
    decreases |more|
  {
    if more == [] {
      assert es + more == es;
    } else {
      var init, last := more[..|more| - 1], more[|more| - 1];
      SettledStaysSettled(es, init, id);
      SettledOneMore(es + init, last, id);
      assert es + more == es + init + [last];
    }
  }

  lemma SettledOneMore(es: seq<Event>, e: Event, id: nat)
    requires id in Run(INIT, es).rows && Terminal(Run(INIT, es).rows[id].status)
    ensures id in Run(INIT, es + [e]).rows && Terminal(Run(INIT, es + [e]).rows[id].status)
  {
    RunKeepsInvariant(es);
    StepKeepsTerminal(Run(INIT, es), e, id);
    RunSnoc(INIT, es, e);
  }

  /** CONFIRMED is only ever seen after the chain confirmed that row's transaction. */
  lemma ConfirmedByChain(es: seq<Event>, id: nat)
    requires id in Run(INIT, es).rows && Run(INIT, es).rows[id].status == Confirmed
    ensures var s := Run(INIT, es);
            s.rows[id].txHash in s.verdicts && s.verdicts[s.rows[id].txHash] == ChainConfirmed
  {
    RunKeepsInvariant(es);
  }

  /**
   CONFIRMED can still be overwritten by FAILED: exactly by a confirmation worker that ran into
   its deadline before the chain answered it.
   */
  lemma ConfirmedLostIffTimedOut(es: seq<Event>, e: Event, id: nat)
    requires id in Run(INIT, es).rows && Run(INIT, es).rows[id].status == Confirmed
    ensures var s := Run(INIT, es);
            && id in Step(s, e).rows
            && (Step(s, e).rows[id].status == Failed <==>
                  e.SettlerWrites? && e.settler in s.settlers && s.settlers[e.settler].id == id
                  && s.settlers[e.settler].decided.Some? && s.settlers[e.settler].timedOut)
  {
    RunKeepsInvariant(es);
    TimedOutWrites(Run(INIT, es), e, id);
  }

  lemma TimedOutWrites(s: State, e: Event, id: nat)
    requires Invariant(s) && id in s.rows && s.rows[id].status == Confirmed
    ensures id in Step(s, e).rows
    ensures Step(s, e).rows[id].status == Failed <==>
              e.SettlerWrites? && e.settler in s.settlers && s.settlers[e.settler].id == id
              && s.settlers[e.settler].decided.Some? && s.settlers[e.settler].timedOut
  {
    StatusWriters(s, e, id);
    if e.SettlerWrites? && e.settler in s.settlers {
      assert SettlerOk(s, s.settlers[e.settler]);
    }
    if e.Mark? && e.request in s.requests {
      assert RequestOk(s, s.requests[e.request]);
    }
  }
}
