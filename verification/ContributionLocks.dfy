/** What the in-flight lock of a contribution key is worth: exclusion, as long as it does not expire. */
module ContributionLocks {
  import opened JsText
  import opened Wrappers
  import opened Contributions

  /** Phases in which a request believes to hold its key's lock. */
  predicate Holds(p: Phase) {
    p == Validating || p == Inserting || p.Created? || p.Marked? || p.Queued?
  }

  ghost predicate HoldsKey(q: Request, key: Text) {
    Holds(q.phase) && Used(q.key) && q.key.value == key
  }

  /** The lock of a key is there while a request holds it, and one request at most does. */
  ghost predicate Exclusive(s: State) {
    && (forall r, key :: r in s.requests && HoldsKey(s.requests[r], key) ==> key in s.locks)
    && (forall r, q, key :: r in s.requests && q in s.requests && HoldsKey(s.requests[r], key) && HoldsKey(s.requests[q], key) ==> r == q)
    && (forall r :: r in s.requests && (s.requests[r].phase == Start || s.requests[r].phase == Locking) ==> Used(s.requests[r].key))
  }

  /** What a step of request q may do to the lock: take it if it is free, keep it, or give it back, always unless it crashes. */
  ghost predicate LockMove(q: Request, after: Request, locks: set<Text>, locks': set<Text>, crashed: bool) {
    && after.key == q.key
    && (after.phase == Start || after.phase == Locking ==> q.phase == Start || q.phase == Locking)
    && if !Used(q.key) then locks' == locks
       else if Holds(q.phase) then locks' == (if Holds(after.phase) || crashed then locks else locks - {q.key.value})
       else if Holds(after.phase) then q.key.value !in locks && locks' == locks + {q.key.value}
       else locks' == locks
  }

  /** Only the request itself changes. */
  ghost predicate OnlyRequest(s: State, t: State, r: nat) {
    r in s.requests && r in t.requests && t.requests == s.requests[r := t.requests[r]]
  }

  lemma LockMoveKeeps(s: State, t: State, r: nat, crashed: bool)
    requires Exclusive(s) && OnlyRequest(s, t, r) && LockMove(s.requests[r], t.requests[r], s.locks, t.locks, crashed)
    ensures Exclusive(t)
  {
    var x, y := s.requests[r], t.requests[r];
    assert forall q :: q in s.requests && q != r ==> t.requests[q] == s.requests[q];
  }

  ghost predicate Moves(s: State, e: Event, t: State)
    requires OfRequest(e) && e.request in s.requests
  {
    OnlyRequest(s, t, e.request) && LockMove(s.requests[e.request], t.requests[e.request], s.locks, t.locks, e.CrashRequest?)
  }

  lemma FindMoves(s: State, e: Event)
    requires (e.Find? || e.FindBlocked?) && e.request in s.requests
    ensures Moves(s, e, RequestStep(s, e))
  {
  }

  lemma TryLockMoves(s: State, e: Event)
    requires e.TryLock? && e.request in s.requests && (s.requests[e.request].phase == Locking ==> Used(s.requests[e.request].key))
    ensures Moves(s, e, RequestStep(s, e))
  {
  }

  lemma ValidateMoves(s: State, e: Event)
    requires (e.Validate? || e.Insert?) && e.request in s.requests
    ensures Moves(s, e, RequestStep(s, e))
  {
  }

  lemma MarkMoves(s: State, e: Event)
    requires (e.Mark? || e.Queue?) && e.request in s.requests
    ensures Moves(s, e, RequestStep(s, e))
  {
  }

  lemma AdvanceMoves(s: State, e: Event)
    requires (e.Advance? || e.CrashRequest?) && e.request in s.requests
    ensures Moves(s, e, RequestStep(s, e))
  {
  }

  lemma PollMoves(s: State, e: Event)
    requires (e.Poll? || e.PollTimeout?) && e.request in s.requests
    ensures Moves(s, e, RequestStep(s, e))
  {
  }

  /** A request gives its lock back whenever it ends, unless it crashes, and takes it only when it is free. */
  lemma RequestMovesLock(s: State, e: Event)
    requires OfRequest(e) && e.request in s.requests && Exclusive(s)
    ensures Moves(s, e, RequestStep(s, e))
  {
    if e.Find? || e.FindBlocked? { FindMoves(s, e); }
    else if e.TryLock? { TryLockMoves(s, e); }
    else if e.Validate? || e.Insert? { ValidateMoves(s, e); }
    else if e.Mark? || e.Queue? { MarkMoves(s, e); }
    else if e.Advance? || e.CrashRequest? { AdvanceMoves(s, e); }
    else { PollMoves(s, e); }
  }

  lemma ArriveKeepsExclusive(s: State, e: Event)
    requires Exclusive(s) && e.Arrive?
    ensures Exclusive(SystemStep(s, e))
  {
    var t := SystemStep(s, e);
    assert forall r, key :: r in t.requests && HoldsKey(t.requests[r], key) ==> r in s.requests && t.requests[r] == s.requests[r];
  }

  lemma OtherSystemKeepsExclusive(s: State, e: Event)
    requires !OfRequest(e) && !e.Arrive? && !e.LockExpires?
    ensures SystemStep(s, e).requests == s.requests && SystemStep(s, e).locks == s.locks
  {
  }

  /** As long as no lock expires, at most one request at a time works on a key, in any interleaving with crashes. */
  lemma {:induction false} LockExcludes(es: seq<Event>)
    requires forall e <- es :: !e.LockExpires?
    ensures Exclusive(Run(INIT, es))
  {
    if es != [] {
      var s, e := Run(INIT, es[..|es| - 1]), es[|es| - 1];
      LockExcludes(es[..|es| - 1]);
      assert e in es;
      if OfRequest(e) {
        if e.request in s.requests {
          RequestMovesLock(s, e);
          LockMoveKeeps(s, RequestStep(s, e), e.request, e.CrashRequest?);
        }
      } else if e.Arrive? {
        ArriveKeepsExclusive(s, e);
      } else {
        OtherSystemKeepsExclusive(s, e);
      }
    }
  }
}
