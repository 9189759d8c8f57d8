/**
 Contribution creation and settlement as interleaved steps: requests that share idempotency keys,
 an in-flight lock that can expire or be deleted by another request, and settlers (the confirmation
 worker and the reconciler) that write statuses on their own. An event that is not enabled leaves
 the state alone, so every event sequence is a run.
 */
module Contributions {
  import opened JsText
  import opened Wrappers

  datatype Status = Pending | OnChainSubmitted | Confirmed | Failed

  predicate Terminal(s: Status) { s == Confirmed || s == Failed }

  /** One contribution per user, group and round. */
  datatype Slot = Slot(userId: Text, groupId: Text, roundNumber: nat)

  datatype Row = Row(key: Option<Text>, slot: Slot, txHash: Text, status: Status)

  /** How far a request has come; the phases after `Inserting` carry the contribution id. */
  datatype Phase =
    | Start | Locking | Blocked | BlockedAgain | Validating | Inserting
    | Created(id: nat) | Marked(id: nat) | Queued(id: nat) | Waiting(id: nat)
    | Finished

  datatype Request = Request(key: Option<Text>, slot: Slot, txHash: Text, phase: Phase)

  /** A confirmation job or one reconciliation of one row; `decided` is what it is about to write. */
  datatype Settler = Settler(id: nat, txHash: Text, isWorker: bool, decided: Option<Status>, timedOut: bool)

  datatype Verdict = ChainConfirmed | ChainFailed

  /** A successful response: the idempotency key of the request and the id in the answer. */
  datatype Response = Response(key: Option<Text>, id: nat)

  datatype State = State(
    rows: map<nat, Row>,
    nextId: nat,
    locks: set<Text>,
    requests: map<nat, Request>,
    responses: seq<Response>,
    jobs: set<nat>,
    settlers: map<nat, Settler>,
    verdicts: map<Text, Verdict>
  )

  datatype Event =
    | Arrive(request: nat, key: Option<Text>, slot: Slot, txHash: Text)
    | Find(request: nat)
    | TryLock(request: nat, redisUp: bool)
    | FindBlocked(request: nat)
    | Validate(request: nat, ok: bool)
    | Insert(request: nat)
    | Mark(request: nat)                    // the update to ON_CHAIN_SUBMITTED
    | Queue(request: nat, queued: bool)
    | Advance(request: nat, ok: bool)       // tryAdvanceRound, then the answer
    | Poll(request: nat)
    | PollTimeout(request: nat)
    | CrashRequest(request: nat)            // leaves its lock behind
    | LockExpires(lock: Text)
    | WorkerTakes(settler: nat, id: nat)
    | JobSkipped(id: nat)                   // the per-hash lock was taken
    | ReconcilerSelects(settler: nat, id: nat)
    | SettlerAsks(settler: nat)
    | WorkerTimesOut(settler: nat)
    | SettlerWrites(settler: nat)
    | SettlerCrashes(settler: nat)
    | ChainDecides(txHash: Text, verdict: Verdict)

  const INIT: State := State(map[], 0, {}, map[], [], {}, map[], map[])

  // ---------------------------------------------------------------- steps

  predicate InPhase(s: State, r: nat, p: Phase) {
    r in s.requests && s.requests[r].phase == p
  }

  function Goto(s: State, r: nat, p: Phase): State
    requires r in s.requests
  {
    s.(requests := s.requests[r := s.requests[r].(phase := p)])
  }

  /** An empty key is falsy: no lookup and no lock, though the row stores it. */
  predicate Used(key: Option<Text>) {
    key.Some? && key.value != []
  }

  /** The `finally` block: the request deletes the lock of its key, whoever holds it. */
  function Release(s: State, key: Option<Text>): State {
    if Used(key) then s.(locks := s.locks - {key.value}) else s
  }

  function Respond(s: State, r: nat, id: nat): State
    requires r in s.requests
  {
    Goto(s.(responses := s.responses + [Response(s.requests[r].key, id)]), r, Finished)
  }

  predicate HasKey(s: State, id: nat, key: Option<Text>) {
    id in s.rows && key.Some? && s.rows[id].key == key
  }

  /** `findOne({ where: { idempotencyKey } })`, as a scan of the ids given out so far. */
  function FindByKey(s: State, key: Option<Text>): (r: Option<nat>)
    ensures r.Some? ==> HasKey(s, r.value, key)
    ensures r.None? ==> forall id :: 0 <= id < s.nextId ==> !HasKey(s, id, key)
  {
    FindBelow(s, key, s.nextId)
  }

  function FindBelow(s: State, key: Option<Text>, n: nat): (r: Option<nat>)
    ensures r.Some? ==> HasKey(s, r.value, key)
    ensures r.None? ==> forall id :: 0 <= id < n ==> !HasKey(s, id, key)
  {
    if n == 0 then None else if HasKey(s, n - 1, key) then Some(n - 1) else FindBelow(s, key, n - 1)
  }

  function FindStep(s: State, r: nat): State
    requires r in s.requests
  {
    var found := FindByKey(s, s.requests[r].key);
    if found.None? then Goto(s, r, Locking)
    else if Terminal(s.rows[found.value].status) then Respond(s, r, found.value)
    else Goto(s, r, Waiting(found.value))
  }

  function TryLockStep(s: State, r: nat, redisUp: bool): State
    requires r in s.requests
  {
    var key := s.requests[r].key;
    if key.None? then s
    else if redisUp && key.value !in s.locks then Goto(s.(locks := s.locks + {key.value}), r, Validating)
    else Goto(s, r, Blocked)
  }

  function FindBlockedStep(s: State, r: nat): State
    requires r in s.requests
  {
    var found := FindByKey(s, s.requests[r].key);
    if found.Some? then Goto(s, r, Waiting(found.value))
    else if s.requests[r].phase == Blocked then Goto(s, r, BlockedAgain)
    else Goto(s, r, Finished)
  }

  /** What the unique indexes on key, transaction hash and slot refuse. */
  predicate Conflicts(s: State, q: Request) {
    exists id :: id in s.rows
      && (HasKey(s, id, q.key) || s.rows[id].txHash == q.txHash || s.rows[id].slot == q.slot)
  }

  function InsertStep(s: State, r: nat): State
    requires r in s.requests
  {
    var q := s.requests[r];
    if Conflicts(s, q) then Goto(Release(s, q.key), r, Finished)
    else Goto(s.(rows := s.rows[s.nextId := Row(q.key, q.slot, q.txHash, Pending)], nextId := s.nextId + 1), r, Created(s.nextId))
  }

  /** An unconditional `update(id, { status })`. */
  function SetStatus(s: State, id: nat, status: Status): State {
    if id in s.rows then s.(rows := s.rows[id := s.rows[id].(status := status)]) else s
  }

  function MarkStep(s: State, r: nat): State
    requires r in s.requests && s.requests[r].phase.Created?
  {
    var id := s.requests[r].phase.id;
    Goto(SetStatus(s, id, OnChainSubmitted), r, Marked(id))
  }

  function PollStep(s: State, r: nat): State
    requires r in s.requests && s.requests[r].phase.Waiting?
  {
    var id := s.requests[r].phase.id;
    if id !in s.rows then Goto(s, r, Finished)
    else if Terminal(s.rows[id].status) then Respond(s, r, id)
    else s
  }

  function AskStep(s: State, w: nat): State
    requires w in s.settlers
  {
    var x := s.settlers[w];
    if x.decided.Some? then s
    else if x.txHash in s.verdicts then
      var status := if s.verdicts[x.txHash] == ChainConfirmed then Confirmed else Failed;
      s.(settlers := s.settlers[w := x.(decided := Some(status))])
    else if x.isWorker then s
    else s.(settlers := s.settlers - {w})
  }

  function WriteStep(s: State, w: nat): State
    requires w in s.settlers
  {
    var x := s.settlers[w];
    if x.decided.None? then s
    else SetStatus(s, x.id, x.decided.value).(settlers := s.settlers - {w})
  }

  /** Events that are steps of a request that has arrived. */
  predicate OfRequest(e: Event) {
    || e.Find? || e.TryLock? || e.FindBlocked? || e.Validate? || e.Insert? || e.Mark?
    || e.Queue? || e.Advance? || e.Poll? || e.PollTimeout? || e.CrashRequest?
  }

  function RequestStep(s: State, e: Event): State
    requires OfRequest(e) && e.request in s.requests
  {
    var r := e.request;
    var q := s.requests[r];
    match e
    case Find(_) => if q.phase == Start then FindStep(s, r) else s
    case TryLock(_, up) => if q.phase == Locking then TryLockStep(s, r, up) else s
    case FindBlocked(_) => if q.phase == Blocked || q.phase == BlockedAgain then FindBlockedStep(s, r) else s
    case Validate(_, ok) =>
      if q.phase != Validating then s else if ok then Goto(s, r, Inserting) else Goto(Release(s, q.key), r, Finished)
    case Insert(_) => if q.phase == Inserting then InsertStep(s, r) else s
    case Mark(_) => if q.phase.Created? then MarkStep(s, r) else s
    case Queue(_, queued) =>
      if !q.phase.Marked? then s
      else Goto(if queued then s.(jobs := s.jobs + {q.phase.id}) else s, r, Queued(q.phase.id))
    case Advance(_, ok) =>
      if !q.phase.Queued? then s
      else if ok then Respond(Release(s, q.key), r, q.phase.id)
      else Goto(Release(s, q.key), r, Finished)
    case Poll(_) => if q.phase.Waiting? then PollStep(s, r) else s
    case PollTimeout(_) => if q.phase.Waiting? && q.phase.id in s.rows then Respond(s, r, q.phase.id) else s
    case CrashRequest(_) => Goto(s, r, Finished)
  }

  function Step(s: State, e: Event): State {
    if OfRequest(e) then (if e.request in s.requests then RequestStep(s, e) else s)
    else SystemStep(s, e)
  }

  function SystemStep(s: State, e: Event): State
    requires !OfRequest(e)
  {
    match e
    case Arrive(r, key, slot, h) =>
      if r in s.requests then s
      else s.(requests := s.requests[r := Request(key, slot, h, if Used(key) then Start else Validating)])
    case LockExpires(key) => s.(locks := s.locks - {key})
    case WorkerTakes(w, id) =>
      if w in s.settlers || id !in s.jobs || id !in s.rows then s
      else s.(jobs := s.jobs - {id}, settlers := s.settlers[w := Settler(id, s.rows[id].txHash, true, None, false)])
    case JobSkipped(id) => s.(jobs := s.jobs - {id})
    case ReconcilerSelects(w, id) =>
      if w in s.settlers || id !in s.rows || s.rows[id].status != OnChainSubmitted then s
      else s.(settlers := s.settlers[w := Settler(id, s.rows[id].txHash, false, None, false)])
    case SettlerAsks(w) => if w in s.settlers then AskStep(s, w) else s
    case WorkerTimesOut(w) =>
      if w in s.settlers && s.settlers[w].isWorker && s.settlers[w].decided.None?
      then s.(settlers := s.settlers[w := s.settlers[w].(decided := Some(Failed), timedOut := true)]) else s
    case SettlerWrites(w) => if w in s.settlers then WriteStep(s, w) else s
    case SettlerCrashes(w) => s.(settlers := s.settlers - {w})
    case ChainDecides(h, v) => if h in s.verdicts then s else s.(verdicts := s.verdicts[h := v])
  }

  function Run(s: State, es: seq<Event>): State {
    if es == [] then s else Step(Run(s, es[..|es| - 1]), es[|es| - 1])
  }

  // ---------------------------------------------------------------- the invariant

  ghost predicate IdsBelow(s: State) {
    forall id :: id in s.rows ==> id < s.nextId
  }

  /** The unique columns: key, slot and transaction hash. */
  ghost predicate Apart(x: Row, y: Row) {
    && (x.key.Some? ==> x.key != y.key)
    && (x.slot.userId != y.slot.userId || x.slot.groupId != y.slot.groupId || x.slot.roundNumber != y.slot.roundNumber)
    && x.txHash != y.txHash
  }

  ghost predicate UniqueColumns(s: State) {
    forall i, j :: i in s.rows && j in s.rows && i != j ==> Apart(s.rows[i], s.rows[j])
  }

  /** A request that holds an id holds the id of a row with its own key. */
  ghost predicate RequestOk(s: State, q: Request) {
    && (q.phase.Created? || q.phase.Marked? || q.phase.Queued? || q.phase.Waiting? ==>
          q.phase.id in s.rows && s.rows[q.phase.id].key == q.key)
    && (q.phase.Created? ==> s.rows[q.phase.id].status == Pending)
    && (q.phase.Marked? ==> s.rows[q.phase.id].status != Pending)
  }

  ghost predicate RequestsOk(s: State) {
    forall r :: r in s.requests ==> RequestOk(s, s.requests[r])
  }

  /** Each row has one creator. */
  ghost predicate OneCreator(s: State) {
    forall r, q :: (r in s.requests && q in s.requests && r != q
      && s.requests[r].phase.Created? && s.requests[q].phase.Created?) ==> s.requests[r].phase.id != s.requests[q].phase.id
  }

  ghost predicate ResponsesOk(s: State) {
    forall i :: 0 <= i < |s.responses| ==> s.responses[i].id in s.rows && s.rows[s.responses[i].id].key == s.responses[i].key
  }

  /** Settlers and jobs only ever concern rows that have left PENDING. */
  ghost predicate JobsOk(s: State) {
    forall id :: id in s.jobs ==> id in s.rows && s.rows[id].status != Pending
  }

  ghost predicate SettlerOk(s: State, x: Settler) {
    && x.id in s.rows && s.rows[x.id].status != Pending
    && x.txHash == s.rows[x.id].txHash
    && (x.decided.Some? ==> Terminal(x.decided.value))
    && (x.decided == Some(Confirmed) ==> x.txHash in s.verdicts && s.verdicts[x.txHash] == ChainConfirmed)
    && (x.timedOut ==> x.decided == Some(Failed))
    && (x.decided == Some(Failed) ==> x.timedOut || (x.txHash in s.verdicts && s.verdicts[x.txHash] == ChainFailed))
  }

  ghost predicate SettlersOk(s: State) {
    forall w :: w in s.settlers ==> SettlerOk(s, s.settlers[w])
  }

  /** CONFIRMED stands on the chain's word. */
  ghost predicate ConfirmedOk(s: State) {
    forall id :: id in s.rows && s.rows[id].status == Confirmed ==>
      s.rows[id].txHash in s.verdicts && s.verdicts[s.rows[id].txHash] == ChainConfirmed
  }

  ghost predicate Invariant(s: State) {
    && IdsBelow(s) && UniqueColumns(s) && RequestsOk(s) && OneCreator(s) && ResponsesOk(s)
    && JobsOk(s) && SettlersOk(s) && ConfirmedOk(s)
  }

  // ---------------------------------------------------------------- what kinds of change keep

  /** A request moves to a phase that claims no more than it may. */
  lemma GotoKeeps(s: State, r: nat, p: Phase)
    requires Invariant(s) && r in s.requests && !p.Created?
    requires RequestOk(s, s.requests[r].(phase := p))
    ensures Invariant(Goto(s, r, p))
  {
  }

  lemma RespondKeeps(s: State, r: nat, id: nat)
    requires Invariant(s) && r in s.requests
    requires id in s.rows && s.rows[id].key == s.requests[r].key
    ensures Invariant(Respond(s, r, id))
  {
    GotoKeeps(s, r, Finished);
    var t, u := Goto(s, r, Finished), Respond(s, r, id);
    assert u == t.(responses := u.responses);
    assert ResponsesOk(u);
  }

  lemma LocksKeep(s: State, locks: set<Text>)
    requires Invariant(s)
    ensures Invariant(s.(locks := locks))
  {
  }

  /** A row that is not fresh changes its status to one that is not PENDING. */
  lemma SetStatusKeeps(s: State, id: nat, status: Status)
    requires Invariant(s) && id in s.rows && status != Pending
    requires forall r :: r in s.requests ==> s.requests[r].phase != Created(id)
    requires status == Confirmed ==> s.rows[id].txHash in s.verdicts && s.verdicts[s.rows[id].txHash] == ChainConfirmed
    ensures Invariant(SetStatus(s, id, status))
  {
    var t := SetStatus(s, id, status);
    forall r | r in t.requests ensures RequestOk(t, t.requests[r]) {
      assert RequestOk(s, s.requests[r]);
    }
    forall w | w in t.settlers ensures SettlerOk(t, t.settlers[w]) {
      assert SettlerOk(s, s.settlers[w]);
    }
    assert ResponsesOk(t) && UniqueColumns(t) && JobsOk(t) && ConfirmedOk(t);
  }

  lemma InsertKeeps(s: State, r: nat)
    requires Invariant(s) && InPhase(s, r, Inserting)
    ensures Invariant(InsertStep(s, r))
  {
    var q := s.requests[r];
    if Conflicts(s, q) {
      LocksKeep(s, Release(s, q.key).locks);
      GotoKeeps(Release(s, q.key), r, Finished);
    } else {
      InsertKeepsRows(s, r);
      InsertKeepsRequests(s, r);
    }
  }

  lemma InsertKeepsRows(s: State, r: nat)
    requires Invariant(s) && InPhase(s, r, Inserting) && !Conflicts(s, s.requests[r])
    ensures var t := InsertStep(s, r);
            IdsBelow(t) && UniqueColumns(t) && ResponsesOk(t) && JobsOk(t) && SettlersOk(t) && ConfirmedOk(t)
  {
    var t, q := InsertStep(s, r), s.requests[r];
    assert s.nextId !in s.rows;
    forall i | i in s.rows ensures Apart(t.rows[i], t.rows[s.nextId]) && Apart(t.rows[s.nextId], t.rows[i]) {
      assert !HasKey(s, i, q.key) && s.rows[i].txHash != q.txHash && s.rows[i].slot != q.slot;
    }
    forall w | w in t.settlers ensures SettlerOk(t, t.settlers[w]) {
      assert SettlerOk(s, s.settlers[w]);
    }
  }

  lemma InsertKeepsRequests(s: State, r: nat)
    requires Invariant(s) && InPhase(s, r, Inserting) && !Conflicts(s, s.requests[r])
    ensures RequestsOk(InsertStep(s, r)) && OneCreator(InsertStep(s, r))
  {
    var t := InsertStep(s, r);
    assert s.nextId !in s.rows;
    forall p | p in t.requests ensures RequestOk(t, t.requests[p]) {
      if p != r { assert RequestOk(s, s.requests[p]); }
    }
    forall p | p in s.requests && s.requests[p].phase.Created? ensures s.requests[p].phase.id != s.nextId {
      assert RequestOk(s, s.requests[p]);
    }
  }

  lemma MarkKeeps(s: State, r: nat)
    requires Invariant(s) && r in s.requests && s.requests[r].phase.Created?
    ensures Invariant(MarkStep(s, r))
  {
    var id := s.requests[r].phase.id;
    assert RequestOk(s, s.requests[r]);
    GotoKeeps(s, r, Finished);
    NoOtherCreator(s, r);
    var u := Goto(s, r, Finished);
    SetStatusKeeps(u, id, OnChainSubmitted);
    GotoKeeps(SetStatus(u, id, OnChainSubmitted), r, Marked(id));
    MarkInTwoMoves(s, r);
  }

  lemma NoOtherCreator(s: State, r: nat)
    requires Invariant(s) && r in s.requests && s.requests[r].phase.Created?
    ensures var u := Goto(s, r, Finished);
            forall q :: q in u.requests ==> u.requests[q].phase != s.requests[r].phase
  {
  }

  lemma MarkInTwoMoves(s: State, r: nat)
    requires r in s.requests && s.requests[r].phase.Created?
    ensures var id := s.requests[r].phase.id;
            MarkStep(s, r) == Goto(SetStatus(Goto(s, r, Finished), id, OnChainSubmitted), r, Marked(id))
  {
  }

  lemma WriteKeeps(s: State, w: nat)
    requires Invariant(s) && w in s.settlers
    ensures Invariant(WriteStep(s, w))
  {
    var x := s.settlers[w];
    assert SettlerOk(s, x);
    if x.decided.Some? {
      forall r | r in s.requests ensures s.requests[r].phase != Created(x.id) {
        assert RequestOk(s, s.requests[r]);
      }
      SetStatusKeeps(s, x.id, x.decided.value);
      var t := SetStatus(s, x.id, x.decided.value);
      SettlersKeep(t, t.(settlers := s.settlers - {w}));
    }
  }

  /** Jobs, settlers and verdicts change; rows, requests and responses do not. */
  lemma SettlersKeep(s: State, t: State)
    requires Invariant(s)
    requires t == s.(jobs := t.jobs, settlers := t.settlers, verdicts := t.verdicts)
    requires forall h :: h in s.verdicts ==> h in t.verdicts && t.verdicts[h] == s.verdicts[h]
    requires JobsOk(t)
    requires forall w :: w in t.settlers && !(w in s.settlers && t.settlers[w] == s.settlers[w]) ==> SettlerOk(t, t.settlers[w])
    ensures Invariant(t)
  {
    forall w | w in t.settlers ensures SettlerOk(t, t.settlers[w]) {
      if w in s.settlers && t.settlers[w] == s.settlers[w] { assert SettlerOk(s, s.settlers[w]); }
    }
    forall r | r in t.requests ensures RequestOk(t, t.requests[r]) {
      assert RequestOk(s, s.requests[r]);
    }
  }

  // ---------------------------------------------------------------- every step keeps the invariant

  lemma ReleaseAndGotoKeeps(s: State, r: nat)
    requires Invariant(s) && r in s.requests
    ensures Invariant(Goto(Release(s, s.requests[r].key), r, Finished))
  {
    LocksKeep(s, Release(s, s.requests[r].key).locks);
    GotoKeeps(Release(s, s.requests[r].key), r, Finished);
  }

  lemma FindKeeps(s: State, r: nat)
    requires Invariant(s) && InPhase(s, r, Start)
    ensures Invariant(FindStep(s, r))
  {
    var found := FindByKey(s, s.requests[r].key);
    if found.None? {
      GotoKeeps(s, r, Locking);
    } else if Terminal(s.rows[found.value].status) {
      RespondKeeps(s, r, found.value);
    } else {
      GotoKeeps(s, r, Waiting(found.value));
    }
  }

  lemma FindBlockedKeeps(s: State, r: nat)
    requires Invariant(s) && r in s.requests
    ensures Invariant(FindBlockedStep(s, r))
  {
    var found := FindByKey(s, s.requests[r].key);
    if found.Some? {
      GotoKeeps(s, r, Waiting(found.value));
    } else if s.requests[r].phase == Blocked {
      GotoKeeps(s, r, BlockedAgain);
    } else {
      GotoKeeps(s, r, Finished);
    }
  }

  lemma TryLockKeeps(s: State, r: nat, redisUp: bool)
    requires Invariant(s) && r in s.requests
    ensures Invariant(TryLockStep(s, r, redisUp))
  {
    var t := TryLockStep(s, r, redisUp);
    LocksKeep(s, t.locks);
    if t != s {
      GotoKeeps(s.(locks := t.locks), r, t.requests[r].phase);
    }
  }

  /** The steps before anything is written: lookups, the lock, validation. */
  lemma EntryStepKeeps(s: State, e: Event)
    requires Invariant(s) && OfRequest(e) && e.request in s.requests
    requires e.Find? || e.TryLock? || e.FindBlocked? || e.Validate? || e.CrashRequest?
    ensures Invariant(RequestStep(s, e))
  {
    var r := e.request;
    match e
    case Find(_) => if InPhase(s, r, Start) { FindKeeps(s, r); }
    case TryLock(_, up) => TryLockKeeps(s, r, up);
    case FindBlocked(_) => FindBlockedKeeps(s, r);
    case Validate(_, ok) => GotoKeeps(s, r, Inserting); ReleaseAndGotoKeeps(s, r);
    case CrashRequest(_) => GotoKeeps(s, r, Finished);
  }

  lemma AdvanceKeeps(s: State, r: nat, ok: bool)
    requires Invariant(s) && r in s.requests && s.requests[r].phase.Queued?
    ensures Invariant(RequestStep(s, Advance(r, ok)))
  {
    var q := s.requests[r];
    assert RequestOk(s, q);
    LocksKeep(s, Release(s, q.key).locks);
    if ok { RespondKeeps(Release(s, q.key), r, q.phase.id); } else { GotoKeeps(Release(s, q.key), r, Finished); }
  }

  lemma WaitKeeps(s: State, e: Event)
    requires Invariant(s) && (e.Poll? || e.PollTimeout?) && e.request in s.requests && s.requests[e.request].phase.Waiting?
    ensures Invariant(RequestStep(s, e))
  {
    assert RequestOk(s, s.requests[e.request]);
    RespondKeeps(s, e.request, s.requests[e.request].phase.id);
  }

  lemma AnswerStepKeeps(s: State, e: Event)
    requires Invariant(s) && OfRequest(e) && e.request in s.requests
    requires e.Advance? || e.Poll? || e.PollTimeout?
    ensures Invariant(RequestStep(s, e))
  {
    if e.Advance? {
      if s.requests[e.request].phase.Queued? { AdvanceKeeps(s, e.request, e.ok); }
    } else if s.requests[e.request].phase.Waiting? {
      WaitKeeps(s, e);
    }
  }

  lemma QueueKeeps(s: State, r: nat, queued: bool)
    requires Invariant(s) && r in s.requests && s.requests[r].phase.Marked?
    ensures Invariant(RequestStep(s, Queue(r, queued)))
  {
    var id := s.requests[r].phase.id;
    assert RequestOk(s, s.requests[r]);
    var u := if queued then s.(jobs := s.jobs + {id}) else s;
    SettlersKeep(s, u);
    GotoKeeps(u, r, Queued(id));
  }

  lemma RequestStepKeeps(s: State, e: Event)
    requires Invariant(s) && OfRequest(e) && e.request in s.requests
    ensures Invariant(RequestStep(s, e))
  {
    var r := e.request;
    if e.Insert? {
      if s.requests[r].phase == Inserting { InsertKeeps(s, r); }
    } else if e.Mark? {
      if s.requests[r].phase.Created? { MarkKeeps(s, r); }
    } else if e.Queue? {
      if s.requests[r].phase.Marked? { QueueKeeps(s, r, e.queued); }
    } else if e.Advance? || e.Poll? || e.PollTimeout? {
      AnswerStepKeeps(s, e);
    } else {
      EntryStepKeeps(s, e);
    }
  }

  lemma ArriveKeeps(s: State, e: Event)
    requires Invariant(s) && e.Arrive?
    ensures Invariant(SystemStep(s, e))
  {
  }

  lemma SettlerStepKeeps(s: State, e: Event)
    requires Invariant(s) && !OfRequest(e) && !e.Arrive? && !e.LockExpires? && !e.SettlerWrites?
    ensures Invariant(SystemStep(s, e))
  {
    if e.SettlerAsks? || e.WorkerTimesOut? {
      SettlerDecides(s, e);
    } else {
      SettlersKeep(s, SystemStep(s, e));
    }
  }

  lemma SettlerDecides(s: State, e: Event)
    requires Invariant(s) && (e.SettlerAsks? || e.WorkerTimesOut?)
    ensures Invariant(SystemStep(s, e))
  {
    assert e.settler in s.settlers ==> SettlerOk(s, s.settlers[e.settler]);
    SettlersKeep(s, SystemStep(s, e));
  }

  lemma SystemStepKeeps(s: State, e: Event)
    requires Invariant(s) && !OfRequest(e)
    ensures Invariant(SystemStep(s, e))
  {
    if e.Arrive? {
      ArriveKeeps(s, e);
    } else if e.LockExpires? {
      LocksKeep(s, s.locks - {e.lock});
    } else if e.SettlerWrites? {
      if e.settler in s.settlers { WriteKeeps(s, e.settler); }
    } else {
      SettlerStepKeeps(s, e);
    }
  }

  lemma StepKeepsInvariant(s: State, e: Event)
    requires Invariant(s)
    ensures Invariant(Step(s, e))
  {
    if !OfRequest(e) {
      SystemStepKeeps(s, e);
    } else if e.request in s.requests {
      RequestStepKeeps(s, e);
    }
  }

  lemma {:induction false} RunKeepsInvariant(es: seq<Event>)
    ensures Invariant(Run(INIT, es))
  {
    if es != [] {
      RunKeepsInvariant(es[..|es| - 1]);
      StepKeepsInvariant(Run(INIT, es[..|es| - 1]), es[|es| - 1]);
    }
  }

  lemma RunSnoc(s: State, es: seq<Event>, e: Event)
    ensures Run(s, es + [e]) == Step(Run(s, es), e)
  {
    assert (es + [e])[..|es|] == es;
  }
}
