/** One contribution per idempotency key, slot and transaction, and what retries are answered. */
module ContributionKeys {
  import opened JsText
  import opened Wrappers
  import opened Contributions

  // ---------------------------------------------------------------- idempotency

  /** Two successful answers to requests with one idempotency key carry the same id. */
  lemma SameKeySameId(es: seq<Event>, i: nat, j: nat)
    requires i < |Run(INIT, es).responses| && j < |Run(INIT, es).responses|
    requires Run(INIT, es).responses[i].key.Some? && Run(INIT, es).responses[i].key == Run(INIT, es).responses[j].key
    ensures Run(INIT, es).responses[i].id == Run(INIT, es).responses[j].id
  {
    RunKeepsInvariant(es);
  }

  /** At most one contribution is ever created for a key. */
  lemma OneRowPerKey(es: seq<Event>, key: Text)
    ensures |set id | id in Run(INIT, es).rows && Run(INIT, es).rows[id].key == Some(key)| <= 1
  {
    RunKeepsInvariant(es);
    var ids := set id | id in Run(INIT, es).rows && Run(INIT, es).rows[id].key == Some(key);
    if ids != {} {
      var a :| a in ids;
      assert ids == {a};
    }
  }

  /** At most one contribution is ever created for a user, group and round. */
  lemma OneRowPerSlot(es: seq<Event>, slot: Slot)
    ensures |set id | id in Run(INIT, es).rows && Run(INIT, es).rows[id].slot == slot| <= 1
  {
    RunKeepsInvariant(es);
    var ids := set id | id in Run(INIT, es).rows && Run(INIT, es).rows[id].slot == slot;
    if ids != {} {
      var a :| a in ids;
      assert ids == {a};
    }
  }

  /** At most one contribution is ever created for a transaction. */
  lemma OneRowPerTransaction(es: seq<Event>, txHash: Text)
    ensures |set id | id in Run(INIT, es).rows && Run(INIT, es).rows[id].txHash == txHash| <= 1
  {
    RunKeepsInvariant(es);
    var ids := set id | id in Run(INIT, es).rows && Run(INIT, es).rows[id].txHash == txHash;
    if ids != {} {
      var a :| a in ids;
      assert ids == {a};
    }
  }

  /** A row that shares one of the unique columns with a request. */
  ghost predicate TakenBy(s: State, q: Request, id: nat) {
    id in s.rows && ((q.key.Some? && s.rows[id].key == q.key) || s.rows[id].slot == q.slot || s.rows[id].txHash == q.txHash)
  }

  /**
   An insert creates exactly one PENDING row with the request's columns when no row shares its key,
   its slot or its transaction; otherwise it creates nothing and the request is refused.
   */
  lemma InsertCreatesIffFree(es: seq<Event>, r: nat)
    requires InPhase(Run(INIT, es), r, Inserting)
    ensures var s, t := Run(INIT, es), Step(Run(INIT, es), Insert(r));
            var q := s.requests[r];
            if exists id :: TakenBy(s, q, id) then t.rows == s.rows && InPhase(t, r, Finished) && t.responses == s.responses
            else s.nextId !in s.rows && t.rows == s.rows[s.nextId := Row(q.key, q.slot, q.txHash, Pending)] && InPhase(t, r, Created(s.nextId))
  {
    RunKeepsInvariant(es);
    var s, q := Run(INIT, es), Run(INIT, es).requests[r];
    assert Step(s, Insert(r)) == InsertStep(s, r);
    if Conflicts(s, q) {
      var id :| id in s.rows && (HasKey(s, id, q.key) || s.rows[id].txHash == q.txHash || s.rows[id].slot == q.slot);
      assert TakenBy(s, q, id);
    } else {
      forall id ensures !TakenBy(s, q, id) {
        assert id in s.rows ==> !HasKey(s, id, q.key);
      }
    }
  }

  // ---------------------------------------------------------------- retries

  /**
   A retry whose key has a settled row is answered with that row's id, and creates nothing. One whose row
   is still in flight waits for that row; one without a row goes on to the lock.
   */
  lemma RetryFinds(es: seq<Event>, r: nat, id: nat)
    requires InPhase(Run(INIT, es), r, Start)
    ensures var s, t := Run(INIT, es), Step(Run(INIT, es), Find(r));
            var q := s.requests[r];
            && t.rows == s.rows && t.locks == s.locks
            && (q.key.Some? && id in s.rows && s.rows[id].key == q.key ==>
                  if s.rows[id].status == Confirmed || s.rows[id].status == Failed
                  then t.responses == s.responses + [Response(q.key, id)] && InPhase(t, r, Finished)
                  else t.responses == s.responses && InPhase(t, r, Waiting(id)))
            && ((forall i :: i in s.rows ==> q.key.None? || s.rows[i].key != q.key) ==> t.responses == s.responses && InPhase(t, r, Locking))
  {
    RunKeepsInvariant(es);
    var s, q := Run(INIT, es), Run(INIT, es).requests[r];
    var found := FindByKey(s, q.key);
    assert Step(s, Find(r)) == FindStep(s, r);
    if q.key.Some? && id in s.rows && s.rows[id].key == q.key {
      assert HasKey(s, id, q.key) && id < s.nextId;
      assert found.Some? && !Apart(s.rows[id], s.rows[found.value]);
    }
  }

  /** A retry that arrives after its key was settled gets the stored contribution. */
  lemma SettledKeyIsAnswered(es: seq<Event>, r: nat, key: Text, slot: Slot, txHash: Text, id: nat)
    requires var s := Run(INIT, es);
             r !in s.requests && key != [] && id in s.rows && s.rows[id].key == Some(key) && Terminal(s.rows[id].status)
    ensures var s, t := Run(INIT, es), Run(INIT, es + [Arrive(r, Some(key), slot, txHash)] + [Find(r)]);
            t.rows == s.rows && t.responses == s.responses + [Response(Some(key), id)] && InPhase(t, r, Finished)
  {
    var arrival := Arrive(r, Some(key), slot, txHash);
    RunSnoc(INIT, es, arrival);
    RunSnoc(INIT, es + [arrival], Find(r));
    ArrivalStarts(Run(INIT, es), r, key, slot, txHash);
    RetryFinds(es + [arrival], r, id);
  }

  lemma ArrivalStarts(s: State, r: nat, key: Text, slot: Slot, txHash: Text)
    requires r !in s.requests && key != []
    ensures Step(s, Arrive(r, Some(key), slot, txHash)) == s.(requests := s.requests[r := Request(Some(key), slot, txHash, Start)])
  {
  }

  /** A waiting request is answered with the row it waits for, once that is settled and not before. */
  lemma WaitIsAnswered(s: State, r: nat, id: nat)
    requires InPhase(s, r, Waiting(id)) && id in s.rows
    ensures var t := Step(s, Poll(r));
            if s.rows[id].status == Confirmed || s.rows[id].status == Failed
            then t.responses == s.responses + [Response(s.requests[r].key, id)] && InPhase(t, r, Finished)
            else t == s
    ensures var t := Step(s, PollTimeout(r)); t.responses == s.responses + [Response(s.requests[r].key, id)] && InPhase(t, r, Finished)
  {
    assert Step(s, Poll(r)) == PollStep(s, r);
  }

  /**
   A request that did not get the lock waits for the row of its key if there is one, looks a second time
   if there is none, and then gives up; it never creates a row.
   */
  lemma BlockedFinds(es: seq<Event>, r: nat, id: nat)
    requires InPhase(Run(INIT, es), r, Blocked) || InPhase(Run(INIT, es), r, BlockedAgain)
    ensures var s, t := Run(INIT, es), Step(Run(INIT, es), FindBlocked(r));
            var q := s.requests[r];
            && t.rows == s.rows && t.responses == s.responses && t.locks == s.locks
            && (q.key.Some? && id in s.rows && s.rows[id].key == q.key ==> InPhase(t, r, Waiting(id)))
            && ((forall i :: i in s.rows ==> q.key.None? || s.rows[i].key != q.key) ==>
                  InPhase(t, r, if q.phase == Blocked then BlockedAgain else Finished))
  {
    RunKeepsInvariant(es);
    var s, q := Run(INIT, es), Run(INIT, es).requests[r];
    var found := FindByKey(s, q.key);
    assert Step(s, FindBlocked(r)) == FindBlockedStep(s, r);
    if q.key.Some? && id in s.rows && s.rows[id].key == q.key {
      assert HasKey(s, id, q.key) && id < s.nextId;
      assert found.Some? && !Apart(s.rows[id], s.rows[found.value]);
    }
  }

  /** A request works on its key exactly when it finds the lock free, and is blocked otherwise or without Redis. */
  lemma LocksIffFree(s: State, r: nat, redisUp: bool)
    requires InPhase(s, r, Locking) && s.requests[r].key.Some?
    ensures var t, key := Step(s, TryLock(r, redisUp)), s.requests[r].key.value;
            if redisUp && key !in s.locks then InPhase(t, r, Validating) && t.locks == s.locks + {key}
            else InPhase(t, r, Blocked) && t.locks == s.locks
  {
    assert Step(s, TryLock(r, redisUp)) == TryLockStep(s, r, redisUp);
  }

  /** A request that marked its row queues a job for it or not, and answers with its id only if the rest goes well. */
  lemma MarkedGoesOn(s: State, r: nat, id: nat, ok: bool)
    ensures InPhase(s, r, Marked(id)) ==>
              Step(s, Queue(r, ok)).jobs == (if ok then s.jobs + {id} else s.jobs) && InPhase(Step(s, Queue(r, ok)), r, Queued(id))
    ensures InPhase(s, r, Queued(id)) ==>
              && Step(s, Advance(r, ok)).responses == (if ok then s.responses + [Response(s.requests[r].key, id)] else s.responses)
              && InPhase(Step(s, Advance(r, ok)), r, Finished)
  {
  }
}
