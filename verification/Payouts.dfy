/**
 Payout submission and reconciliation as interleaved steps. Any number of `distributePayout` calls,
 sweeps and reconciliation workers take turns between their awaits; any of them may crash.
 An event that is not enabled leaves the state alone, so every event sequence is a run.
 */
module Payouts {
  import opened JsText
  import opened Wrappers

  datatype Status = PendingSubmission | Submitted | Confirmed | Failed

  /** A row of `payout_transactions`, or the entity object a process holds for it. */
  datatype Row = Row(status: Status, txHash: Option<Text>)

  /** How far a call has come; `Threw` is the entry of its catch block. */
  datatype Phase = Checking | Absent | Inserted | HashSaved | Sent | Saved | Threw | Finished

  /** `path` says that the payout needs a path payment; `saved` that the call has saved SUBMITTED. */
  datatype Call = Call(key: Text, path: bool, phase: Phase, entity: Row, saved: bool)

  /** A row's own job carries the row's id; a job that an operator adds gets a number of its own. */
  datatype JobId = RowJob(key: Text) | ExtraJob(number: nat)

  /** Exhausted and completed jobs stay in the queue, and their ids with them. */
  datatype JobState = Waiting | Active(worker: nat) | Exhausted | Completed

  /** A reconciliation job with the attempts it has left. */
  datatype Job = Job(key: Text, left: nat, state: JobState)

  /** A process that has taken a job, read its row and waits for the chain's answer. */
  datatype Worker = Worker(job: JobId, key: Text, entity: Row)

  datatype Verdict = ChainConfirmed | ChainFailed

  /** A transaction handed to the network; `direct` tells disbursement from path payment. */
  datatype Submission = Submission(key: Text, txHash: Text, direct: bool, call: nat)

  /** The reconciliation queue, with the sweeps that fill it and the workers that empty it. */
  datatype Queue = Queue(jobs: map<JobId, Job>, sweeps: map<nat, set<Text>>, workers: map<nat, Worker>)

  datatype State = State(
    rows: map<Text, Row>,
    calls: map<nat, Call>,
    submissions: seq<Submission>,
    verdicts: map<Text, Verdict>,
    queue: Queue
  )

  datatype Event =
    | Begin(call: nat, group: Text, round: nat, path: bool)
    | Reject(call: nat)                                   // a precondition fails and the call throws
    | Lookup(call: nat)
    | Insert(call: nat)
    | DisburseFails(call: nat)                            // an error before anything was submitted
    | SaveHash(call: nat, txHash: Text, saved: bool)      // the callback that runs before submission
    | FallbackHash(call: nat, txHash: Text)               // a made-up hash, nothing submitted
    | SendFails(call: nat)
    | Send(call: nat, answered: bool)                     // submitted; the answer may be lost
    | PathPays(call: nat, txHash: Text)
    | PathRejects(call: nat, sent: bool, txHash: Text)    // slippage or failure, possibly after sending
    | SimulatedCrash(call: nat)
    | SaveSubmitted(call: nat, saved: bool)
    | Enqueue(call: nat, queued: bool)
    | Catch(call: nat)
    | Crash(call: nat)
    | SweepReads(sweep: nat)
    | SweepAdds(sweep: nat, key: Text)
    | WorkerTakes(worker: nat, job: JobId)
    | WorkerSettles(worker: nat, acknowledged: bool)
    | WorkerFails(worker: nat)                            // still pending, or an error
    | WorkerCrashes(worker: nat)
    | JobErrors(job: JobId)                               // an attempt fails before it reads the row
    | JobStalls(job: JobId, again: bool)
    | JobExpires(job: JobId)                              // a completed job ages out
    | OperatorRetries(job: JobId)
    | OperatorAdds(number: nat, key: Text, attempts: nat)
    | OperatorRemoves(job: JobId)
    | ChainDecides(txHash: Text, verdict: Verdict)

  // ---------------------------------------------------------------- order ids

  /** `${groupId}:${round}` */
  function PayoutOrderId(group: Text, round: nat): Text {
    group + [COLON] + Decimal(round)
  }

  /** Two payouts share an order id only when they share group and round. */
  lemma PayoutOrderIdInjective(g: Text, r: nat, g': Text, r': nat)
    requires PayoutOrderId(g, r) == PayoutOrderId(g', r')
    ensures g == g' && r == r'
  {
    var d, d' := Decimal(r), Decimal(r');
    var t := PayoutOrderId(g, r);
    assert forall i :: |g| < i < |t| ==> t[i] == d[i - |g| - 1] && IsDigit(d[i - |g| - 1]);
    assert forall i :: |g'| < i < |t| ==> t[i] == d'[i - |g'| - 1] && IsDigit(d'[i - |g'| - 1]);
    assert t[|g|] == COLON && t[|g'|] == COLON && !IsDigit(COLON);
    SplitParts(g, COLON, d);
    SplitParts(g', COLON, d');
    DecimalRoundTrip(r);
    DecimalRoundTrip(r');
  }

  // ---------------------------------------------------------------- steps

  const INIT: State := State(map[], map[], [], map[], Queue(map[], map[], map[]))

  /** Attempts of a row's own job. */
  const ATTEMPTS: nat := 5

  /** The rows `pollUnconfirmedPayouts` enqueues; also the rows a worker will act on. */
  predicate Selected(r: Row) {
    (r.status == Submitted || r.status == PendingSubmission) && r.txHash.Some?
  }

  function StatusOf(v: Verdict): Status {
    if v == ChainConfirmed then Confirmed else Failed
  }

  function RowAt(s: State, key: Text): Option<Row> {
    if key in s.rows then Some(s.rows[key]) else None
  }

  // ---- calls

  /** What a step does to the call, to the row of its order id, to the network and to the queue. */
  datatype Effect = Effect(call: Call, row: Option<Row>, sent: Option<Text>, enqueue: bool)

  function Move(x: Call, row: Option<Row>, p: Phase): Effect {
    Effect(x.(phase := p), row, None, false)
  }

  /** The call changes its entity and moves on without saving. */
  function Hold(x: Call, row: Option<Row>, entity: Row, p: Phase): Effect {
    Effect(x.(entity := entity, phase := p), row, None, false)
  }

  /** The call saves its entity and moves on. */
  function Save(x: Call, entity: Row, p: Phase): Effect {
    Effect(x.(entity := entity, phase := p), Some(entity), None, false)
  }

  function SaveOrThrow(x: Call, row: Option<Row>, entity: Row, p: Phase, saved: bool): Effect {
    if saved then Save(x, entity, p) else Hold(x, row, entity, Threw)
  }

  predicate OfCall(e: Event) {
    || e.Begin? || e.Reject? || e.Lookup? || e.Insert? || e.DisburseFails? || e.SaveHash? || e.FallbackHash? || e.SendFails?
    || e.Send? || e.PathPays? || e.PathRejects? || e.SimulatedCrash? || e.SaveSubmitted? || e.Enqueue? || e.Catch? || e.Crash?
  }

  /** The phase in which a step of a call can happen. */
  predicate Enabled(x: Call, e: Event) {
    match e
    case Reject(_) => x.phase == Checking
    case Lookup(_) => x.phase == Checking
    case Insert(_) => x.phase == Absent
    case DisburseFails(_) => x.phase == Inserted
    case SaveHash(_, _, _) => x.phase == Inserted && !x.path
    case FallbackHash(_, _) => x.phase == Inserted && !x.path
    case SendFails(_) => x.phase == HashSaved
    case Send(_, _) => x.phase == HashSaved
    case PathPays(_, _) => x.phase == Inserted && x.path
    case PathRejects(_, _, _) => x.phase == Inserted && x.path
    case SimulatedCrash(_) => x.phase == Sent
    case SaveSubmitted(_, _) => x.phase == Sent
    case Enqueue(_, _) => x.phase == Saved
    case Catch(_) => x.phase == Threw
    case Crash(_) => true
    case _ => false
  }

  /** The unique index on the order id lets one insert through; the catch block looks at the entity's hash. */
  function Act(x: Call, row: Option<Row>, e: Event): Effect {
    match e
    case Lookup(_) => if row.None? then Move(x, row, Absent) else Effect(x.(phase := Finished), row, None, row.value.status == Submitted)
    case Insert(_) => if row.Some? then Move(x, row, Finished) else Save(x, Row(PendingSubmission, None), Inserted)
    case DisburseFails(_) => Move(x, row, Threw)
    case SaveHash(_, h, saved) => SaveOrThrow(x, row, x.entity.(txHash := Some(h)), HashSaved, saved)
    case FallbackHash(_, h) => Hold(x, row, x.entity.(txHash := Some(h)), Sent)
    case SendFails(_) => Move(x, row, Threw)
    case Send(_, answered) => Effect(x.(phase := if answered then Sent else Threw), row, x.entity.txHash, false)
    case PathPays(_, h) => Hold(x, row, x.entity.(txHash := Some(h)), Sent).(sent := Some(h))
    case PathRejects(_, sent, h) => Save(x, x.entity.(status := Failed), Threw).(sent := if sent then Some(h) else None)
    case SimulatedCrash(_) => Move(x, row, Threw)
    case SaveSubmitted(_, saved) =>
      SaveOrThrow(x.(saved := x.saved || saved), row, x.entity.(status := Submitted), Saved, saved)
    case Enqueue(_, queued) => if queued then Effect(x.(phase := Finished), row, None, true) else Move(x, row, Threw)
    case Catch(_) => if x.entity.txHash.None? then Save(x, x.entity.(status := Failed), Finished) else Move(x, row, Finished)
    case _ => Move(x, row, Finished)
  }

  function Apply(s: State, c: nat, f: Effect): State {
    State(
      if f.row.Some? then s.rows[f.call.key := f.row.value] else s.rows,
      s.calls[c := f.call],
      if f.sent.Some? then s.submissions + [Submission(f.call.key, f.sent.value, !f.call.path, c)] else s.submissions,
      s.verdicts,
      if f.enqueue then EnqueueRow(s.queue, f.call.key) else s.queue)
  }

  function EffectOf(s: State, e: Event): Effect
    requires OfCall(e) && e.call in s.calls
  {
    Act(s.calls[e.call], RowAt(s, s.calls[e.call].key), e)
  }

  function AddCall(s: State, c: nat, key: Text, path: bool): State {
    s.(calls := s.calls[c := Call(key, path, Checking, Row(PendingSubmission, None), false)])
  }

  function CallStep(s: State, e: Event): State
    requires OfCall(e)
  {
    if e.Begin? then
      if e.call in s.calls then s else AddCall(s, e.call, PayoutOrderId(e.group, e.round), e.path)
    else if e.call in s.calls && Enabled(s.calls[e.call], e) then Apply(s, e.call, EffectOf(s, e))
    else s
  }

  // ---- the queue

  /** BullMQ ignores an add whose job id still exists, in whatever state that job is. */
  function AddJob(q: Queue, id: JobId, key: Text, attempts: nat): Queue {
    if id in q.jobs then q else q.(jobs := q.jobs[id := Job(key, attempts, Waiting)])
  }

  /** `addPayoutReconciliation` */
  function EnqueueRow(q: Queue, key: Text): Queue {
    AddJob(q, RowJob(key), key, ATTEMPTS)
  }

  predicate JobIn(q: Queue, id: JobId, state: JobState) {
    id in q.jobs && q.jobs[id].state == state
  }

  function SetJob(q: Queue, id: JobId, state: JobState): Queue
    requires id in q.jobs
  {
    q.(jobs := q.jobs[id := q.jobs[id].(state := state)])
  }

  /** A failed attempt: the job waits for the next one, or stays behind as failed. */
  function AttemptFails(q: Queue, id: JobId): Queue
    requires id in q.jobs
  {
    var job := q.jobs[id];
    q.(jobs := q.jobs[id := if job.left <= 1 then job.(left := 0, state := Exhausted) else job.(left := job.left - 1, state := Waiting)])
  }

  function Reads(q: Queue, rows: map<Text, Row>, n: nat): Queue {
    if n in q.sweeps then q else q.(sweeps := q.sweeps[n := set k | k in rows && Selected(rows[k])])
  }

  function Adds(q: Queue, n: nat, key: Text): Queue {
    if n !in q.sweeps || key !in q.sweeps[n] then q
    else EnqueueRow(q.(sweeps := q.sweeps[n := q.sweeps[n] - {key}]), key)
  }

  /** The processor reads the row, and is done, fails, or goes on to ask the chain. */
  function Takes(q: Queue, rows: map<Text, Row>, w: nat, id: JobId): Queue {
    if w in q.workers || !JobIn(q, id, Waiting) then q
    else
      var key := q.jobs[id].key;
      if key in rows && Selected(rows[key]) then SetJob(q, id, Active(w)).(workers := q.workers[w := Worker(id, key, rows[key])])
      else if key in rows && rows[key].status == Submitted then AttemptFails(q, id)
      else SetJob(q, id, Completed)
  }

  function DropWorker(q: Queue, w: nat): Queue {
    q.(workers := q.workers - {w})
  }

  function Fails(q: Queue, w: nat): Queue {
    if w !in q.workers then q
    else if JobIn(q, q.workers[w].job, Active(w)) then AttemptFails(DropWorker(q, w), q.workers[w].job)
    else DropWorker(q, w)
  }

  function Reports(q: Queue, w: nat, acknowledged: bool): Queue {
    if w !in q.workers then q
    else if acknowledged && JobIn(q, q.workers[w].job, Active(w)) then SetJob(DropWorker(q, w), q.workers[w].job, Completed)
    else DropWorker(q, w)
  }

  predicate OfOperator(e: Event) {
    e.OperatorRetries? || e.OperatorAdds? || e.OperatorRemoves?
  }

  function QueueStep(q: Queue, rows: map<Text, Row>, e: Event): Queue {
    match e
    case SweepReads(n) => Reads(q, rows, n)
    case SweepAdds(n, key) => Adds(q, n, key)
    case WorkerTakes(w, id) => Takes(q, rows, w, id)
    case WorkerFails(w) => Fails(q, w)
    case WorkerCrashes(w) => DropWorker(q, w)
    case JobErrors(id) => if JobIn(q, id, Waiting) then AttemptFails(q, id) else q
    case JobStalls(id, again) => if id in q.jobs && q.jobs[id].state.Active? then SetJob(q, id, if again then Waiting else Exhausted) else q
    case JobExpires(id) => if JobIn(q, id, Completed) then q.(jobs := q.jobs - {id}) else q
    case OperatorRetries(id) => if JobIn(q, id, Exhausted) then SetJob(q, id, Waiting) else q
    case OperatorAdds(n, key, attempts) => AddJob(q, ExtraJob(n), key, attempts)
    case OperatorRemoves(id) => q.(jobs := q.jobs - {id})
    case _ => q
  }

  // ---- the system

  /** The chain has decided on the hash of the worker's copy. */
  predicate CanSettle(s: State, w: nat) {
    w in s.queue.workers && s.queue.workers[w].entity.txHash.Some? && s.queue.workers[w].entity.txHash.value in s.verdicts
  }

  /** The worker saves its copy of the row with the chain's verdict, and then reports the job as done. */
  function Settles(s: State, w: nat, acknowledged: bool): State {
    if !CanSettle(s, w) then s
    else
      var worker := s.queue.workers[w];
      s.(rows := s.rows[worker.key := worker.entity.(status := StatusOf(s.verdicts[worker.entity.txHash.value]))],
         queue := Reports(s.queue, w, acknowledged))
  }

  predicate IsSubmitted(s: State, txHash: Text) {
    exists i :: 0 <= i < |s.submissions| && s.submissions[i].txHash == txHash
  }

  function Step(s: State, e: Event): State {
    if OfCall(e) then CallStep(s, e)
    else if e.WorkerSettles? then Settles(s, e.worker, e.acknowledged)
    else if e.ChainDecides? then
      if IsSubmitted(s, e.txHash) && e.txHash !in s.verdicts then s.(verdicts := s.verdicts[e.txHash := e.verdict]) else s
    else s.(queue := QueueStep(s.queue, s.rows, e))
  }

  function Run(s: State, es: seq<Event>): State {
    if es == [] then s else Step(Run(s, es[..|es| - 1]), es[|es| - 1])
  }

  // ---------------------------------------------------------------- the invariant

  /** Phases of a call whose insert succeeded and which can still act. */
  predicate Owns(p: Phase) {
    p == Inserted || p == HashSaved || p == Sent || p == Saved || p == Threw
  }

  predicate CanSubmit(p: Phase) {
    p == Inserted || p == HashSaved
  }

  /** Phases before the call saves SUBMITTED. */
  predicate Unsaved(p: Phase) {
    p == Checking || p == Absent || p == Inserted || p == HashSaved || p == Sent
  }

  /** Phases of a call that may have submitted. */
  predicate Submits(p: Phase) {
    p == Sent || p == Saved || p == Threw || p == Finished
  }

  function HashOf(row: Option<Row>): Option<Text> {
    if row.Some? then row.value.txHash else None
  }

  /** The row of an owning call: present, and with no hash the call does not know. */
  ghost predicate CallOk(x: Call, row: Option<Row>) {
    && (Unsaved(x.phase) ==> !x.saved) && x.entity.status != Confirmed
    && (Owns(x.phase) ==> row.Some? && (HashOf(row).None? || HashOf(row) == x.entity.txHash))
    && (x.phase == Inserted ==> HashOf(row).None? && x.entity == Row(PendingSubmission, None))
    && (x.phase == HashSaved ==> !x.path && x.entity.txHash.Some? && HashOf(row) == x.entity.txHash)
    && (x.phase == Sent ==> x.entity.txHash.Some?)
  }

  /**
   A submission's call and row: a direct submission left its hash in the row before it went out, a
   path payment leaves it when its call saves SUBMITTED.
   */
  ghost predicate SubmissionOk(x: Call, row: Option<Row>, txHash: Text) {
    && row.Some? && Submits(x.phase)
    && HashOf(row) == (if !x.path || x.saved then Some(txHash) else None)
    && (x.path && x.phase == Sent ==> x.entity.txHash == Some(txHash))
  }

  /** The chain has decided on a hash, and the status says what it decided. */
  ghost predicate Decided(verdicts: map<Text, Verdict>, txHash: Text, status: Status) {
    && txHash in verdicts
    && (verdicts[txHash] == ChainConfirmed ==> status == Confirmed)
    && (verdicts[txHash] == ChainFailed ==> status == Failed)
  }

  /** A row with a hash is unsettled or carries the chain's verdict on it; nothing is confirmed without a hash. */
  ghost predicate RowOk(verdicts: map<Text, Verdict>, r: Row) {
    && (r.txHash.Some? ==> Selected(r) || Decided(verdicts, r.txHash.value, r.status))
    && (r.status == Confirmed ==> r.txHash.Some?)
  }

  ghost predicate CallsOk(s: State) {
    forall c :: c in s.calls ==> CallOk(s.calls[c], RowAt(s, s.calls[c].key))
  }

  /** One owner per order id. */
  ghost predicate OneOwner(s: State) {
    forall c, d :: c in s.calls && d in s.calls && c != d && Owns(s.calls[c].phase) && Owns(s.calls[d].phase)
      ==> s.calls[c].key != s.calls[d].key
  }

  /** Whoever owns the row of a submission has made it, and will make no other. */
  ghost predicate OwnerSubmitted(s: State) {
    forall c, i :: c in s.calls && 0 <= i < |s.submissions| && Owns(s.calls[c].phase) && s.calls[c].key == s.submissions[i].key
      ==> c == s.submissions[i].call && !CanSubmit(s.calls[c].phase)
  }

  ghost predicate SubmissionAt(s: State, y: Submission) {
    && y.call in s.calls && s.calls[y.call].key == y.key && s.calls[y.call].path == !y.direct
    && SubmissionOk(s.calls[y.call], RowAt(s, y.key), y.txHash)
  }

  ghost predicate SubmissionsOk(s: State) {
    forall i :: 0 <= i < |s.submissions| ==> SubmissionAt(s, s.submissions[i])
  }

  /** No order id is submitted twice. */
  ghost predicate AtMostOnce(s: State) {
    forall i, j :: 0 <= i < j < |s.submissions| ==> s.submissions[i].key != s.submissions[j].key
  }

  ghost predicate RowsOk(s: State) {
    forall k :: k in s.rows ==> RowOk(s.verdicts, s.rows[k])
  }

  /** A worker's copy has the hash of its row; a row's own job names that row. */
  ghost predicate QueueOk(q: Queue, rows: map<Text, Row>) {
    && (forall w :: w in q.workers ==>
          q.workers[w].entity.txHash.Some? && q.workers[w].key in rows && rows[q.workers[w].key].txHash == q.workers[w].entity.txHash)
    && (forall k :: RowJob(k) in q.jobs ==> q.jobs[RowJob(k)].key == k)
  }

  ghost predicate Invariant(s: State) {
    && CallsOk(s) && OneOwner(s) && OwnerSubmitted(s) && SubmissionsOk(s) && AtMostOnce(s)
    && RowsOk(s) && QueueOk(s.queue, s.rows)
  }

  // ---------------------------------------------------------------- what a step may do to a call and its row

  /** The call stays itself and in order, and its row keeps its hash. */
  ghost predicate Orderly(x: Call, row: Option<Row>, f: Effect) {
    && f.call.key == x.key && f.call.path == x.path && CallOk(f.call, f.row)
    && (Submits(x.phase) ==> Submits(f.call.phase))
    && (CanSubmit(f.call.phase) ==> CanSubmit(x.phase) || row.None?)
    && (row.Some? ==> f.row.Some? && (HashOf(row).Some? ==> HashOf(f.row) == HashOf(row)))
    && (f.row.Some? && HashOf(f.row).Some? && f.row != row ==> Selected(f.row.value))
    && (f.row.Some? && f.row != row ==> f.row.value.status != Confirmed)
  }

  /** Only the owner changes a row, and nobody becomes the owner of a row that is there. */
  ghost predicate OwnerOnly(x: Call, row: Option<Row>, f: Effect) {
    && (Owns(f.call.phase) && !Owns(x.phase) ==> row.None?)
    && (row.Some? && !Owns(x.phase) ==> f.row == row)
  }

  /** A submission is made by a call that may, and recorded as `SubmissionOk` says. */
  ghost predicate Sends(x: Call, row: Option<Row>, f: Effect) {
    && (f.sent.Some? ==> CanSubmit(x.phase) && !CanSubmit(f.call.phase) && SubmissionOk(f.call, f.row, f.sent.value))
    && (forall h :: SubmissionOk(x, row, h) ==> SubmissionOk(f.call, f.row, h))
  }

  lemma ActOrderly(x: Call, row: Option<Row>, e: Event)
    requires Enabled(x, e) && CallOk(x, row)
    ensures Orderly(x, row, Act(x, row, e)) && OwnerOnly(x, row, Act(x, row, e))
  {
  }

  lemma ActSends(x: Call, row: Option<Row>, e: Event)
    requires Enabled(x, e) && CallOk(x, row)
    ensures Sends(x, row, Act(x, row, e))
  {
  }

  // ---------------------------------------------------------------- every step keeps the invariant

  lemma ApplyKeepsCalls(s: State, c: nat, f: Effect)
    requires Invariant(s) && c in s.calls
    requires var x := s.calls[c]; var row := RowAt(s, x.key); Orderly(x, row, f) && OwnerOnly(x, row, f)
    ensures CallsOk(Apply(s, c, f)) && OneOwner(Apply(s, c, f))
  {
    var t, key := Apply(s, c, f), f.call.key;
    forall d | d in t.calls ensures CallOk(t.calls[d], RowAt(t, t.calls[d].key)) {
      if d != c {
        assert CallOk(s.calls[d], RowAt(s, s.calls[d].key));
        assert s.calls[d].key != key ==> RowAt(t, s.calls[d].key) == RowAt(s, s.calls[d].key);
      }
    }
    forall d | d in s.calls && d != c && Owns(s.calls[d].phase) && Owns(f.call.phase) ensures s.calls[d].key != key {
      assert CallOk(s.calls[d], RowAt(s, s.calls[d].key));
    }
  }

  lemma ApplyKeepsSubmissions(s: State, c: nat, f: Effect)
    requires Invariant(s) && c in s.calls
    requires var x := s.calls[c]; var row := RowAt(s, x.key); Orderly(x, row, f) && OwnerOnly(x, row, f) && Sends(x, row, f)
    ensures SubmissionsOk(Apply(s, c, f)) && OwnerSubmitted(Apply(s, c, f)) && AtMostOnce(Apply(s, c, f))
  {
    var t, key := Apply(s, c, f), f.call.key;
    var n := |s.submissions|;
    forall i | 0 <= i < n ensures SubmissionAt(t, s.submissions[i]) && (f.sent.Some? ==> s.submissions[i].key != key) {
      var y := s.submissions[i];
      assert SubmissionAt(s, y);
      assert y.key != key ==> RowAt(t, y.key) == RowAt(s, y.key);
      assert y.key == key && y.call != c ==> !Owns(s.calls[c].phase);
    }
    assert f.sent.Some? ==> SubmissionAt(t, t.submissions[n]);
    forall d, i | d in t.calls && 0 <= i < n && Owns(t.calls[d].phase) && t.calls[d].key == s.submissions[i].key
      ensures d == s.submissions[i].call && !CanSubmit(t.calls[d].phase)
    {
      assert SubmissionAt(s, s.submissions[i]);
    }
    forall d | f.sent.Some? && d in t.calls && Owns(t.calls[d].phase) && t.calls[d].key == key ensures d == c {
      assert Owns(s.calls[c].phase);
    }
  }

  lemma ApplyKeepsRows(s: State, c: nat, f: Effect)
    requires Invariant(s) && c in s.calls
    requires Orderly(s.calls[c], RowAt(s, s.calls[c].key), f)
    ensures RowsOk(Apply(s, c, f)) && QueueOk(Apply(s, c, f).queue, Apply(s, c, f).rows)
  {
    var t := Apply(s, c, f);
    forall k | k in t.rows ensures RowOk(t.verdicts, t.rows[k]) {
      assert k in s.rows ==> RowOk(s.verdicts, s.rows[k]);
    }
  }

  lemma CallStepKeeps(s: State, e: Event)
    requires Invariant(s) && OfCall(e)
    ensures Invariant(CallStep(s, e))
  {
    if e.Begin? {
      if e.call !in s.calls { AddCallKeeps(s, e.call, PayoutOrderId(e.group, e.round), e.path); }
    } else if e.call in s.calls && Enabled(s.calls[e.call], e) {
      var f := EffectOf(s, e);
      ActOrderly(s.calls[e.call], RowAt(s, s.calls[e.call].key), e);
      ActSends(s.calls[e.call], RowAt(s, s.calls[e.call].key), e);
      ApplyKeepsCalls(s, e.call, f);
      ApplyKeepsSubmissions(s, e.call, f);
      ApplyKeepsRows(s, e.call, f);
    }
  }

  lemma AddCallKeeps(s: State, c: nat, key: Text, path: bool)
    requires Invariant(s) && c !in s.calls
    ensures Invariant(AddCall(s, c, key, path))
  {
    var t := AddCall(s, c, key, path);
    forall d | d in t.calls ensures CallOk(t.calls[d], RowAt(t, t.calls[d].key)) {
      assert d != c ==> CallOk(s.calls[d], RowAt(s, s.calls[d].key));
    }
    forall i | 0 <= i < |t.submissions| ensures SubmissionAt(t, t.submissions[i]) {
      assert SubmissionAt(s, s.submissions[i]);
    }
  }

  lemma QueueStepKeeps(q: Queue, rows: map<Text, Row>, e: Event)
    requires QueueOk(q, rows)
    ensures QueueOk(QueueStep(q, rows, e), rows)
  {
  }

  /** Calls and submissions look at a row's hash only. */
  lemma SettlesKeeps(s: State, w: nat, acknowledged: bool)
    requires Invariant(s)
    ensures Invariant(Settles(s, w, acknowledged))
  {
    var t := Settles(s, w, acknowledged);
    forall k ensures RowAt(t, k).Some? == RowAt(s, k).Some? && HashOf(RowAt(t, k)) == HashOf(RowAt(s, k)) { }
    forall d | d in t.calls ensures CallOk(t.calls[d], RowAt(t, t.calls[d].key)) {
      assert CallOk(s.calls[d], RowAt(s, s.calls[d].key));
    }
    forall i | 0 <= i < |t.submissions| ensures SubmissionAt(t, t.submissions[i]) {
      assert SubmissionAt(s, s.submissions[i]);
    }
    forall k | k in t.rows ensures RowOk(t.verdicts, t.rows[k]) {
      assert k in s.rows && RowOk(s.verdicts, s.rows[k]);
    }
  }

  /** Jobs and workers come and go, verdicts arrive: no row or call is touched. */
  lemma FrameKeeps(s: State, t: State)
    requires Invariant(s) && t == s.(queue := t.queue, verdicts := t.verdicts) && QueueOk(t.queue, t.rows)
    requires forall h :: h in s.verdicts ==> h in t.verdicts && t.verdicts[h] == s.verdicts[h]
    ensures Invariant(t)
  {
    forall d | d in t.calls ensures CallOk(t.calls[d], RowAt(t, t.calls[d].key)) {
      assert CallOk(s.calls[d], RowAt(s, s.calls[d].key));
    }
    forall i | 0 <= i < |t.submissions| ensures SubmissionAt(t, t.submissions[i]) {
      assert SubmissionAt(s, s.submissions[i]);
    }
    forall k | k in t.rows ensures RowOk(t.verdicts, t.rows[k]) {
      assert RowOk(s.verdicts, s.rows[k]);
    }
  }

  lemma StepKeepsInvariant(s: State, e: Event)
    requires Invariant(s)
    ensures Invariant(Step(s, e))
  {
    if OfCall(e) {
      CallStepKeeps(s, e);
    } else if e.WorkerSettles? {
      SettlesKeeps(s, e.worker, e.acknowledged);
    } else if e.ChainDecides? {
      FrameKeeps(s, Step(s, e));
    } else {
      QueueStepKeeps(s.queue, s.rows, e);
      FrameKeeps(s, s.(queue := QueueStep(s.queue, s.rows, e)));
    }
  }

  lemma {:induction false} RunKeepsInvariant(es: seq<Event>)
    ensures Invariant(Run(INIT, es))
  {
    if es != [] {
      RunKeepsInvariant(es[..|es| - 1]);
      StepKeepsInvariant(Run(INIT, es[..|es| - 1]), es[|es| - 1]);
    }
  }

  // ---------------------------------------------------------------- at most one submission

  /** How many submissions a run has made for one group and round. */
  function SubmissionCount(xs: seq<Submission>, group: Text, round: nat): nat {
    if xs == [] then 0
    else SubmissionCount(xs[..|xs| - 1], group, round)
         + (if xs[|xs| - 1].key == PayoutOrderId(group, round) then 1 else 0)
  }

  lemma {:induction false} DistinctKeysCount(xs: seq<Submission>, group: Text, round: nat)
    requires forall i, j :: 0 <= i < j < |xs| ==> xs[i].key != xs[j].key
    ensures SubmissionCount(xs, group, round) <= 1
    ensures (forall i :: 0 <= i < |xs| ==> xs[i].key != PayoutOrderId(group, round)) ==> SubmissionCount(xs, group, round) == 0
  {
    if xs != [] {
      var init := xs[..|xs| - 1];
      DistinctKeysCount(init, group, round);
      if xs[|xs| - 1].key == PayoutOrderId(group, round) {
        assert forall i :: 0 <= i < |init| ==> init[i].key != xs[|xs| - 1].key;
      }
    }
  }

  /** Whatever the interleaving, a payout is submitted at most once for a group and round. */
  lemma AtMostOneSubmission(es: seq<Event>, group: Text, round: nat)
    ensures SubmissionCount(Run(INIT, es).submissions, group, round) <= 1
  {
    RunKeepsInvariant(es);
    DistinctKeysCount(Run(INIT, es).submissions, group, round);
  }

  // ---------------------------------------------------------------- what a step does to one call and one row

  predicate Acts(s: State, e: Event) {
    OfCall(e) && !e.Begin? && e.call in s.calls && Enabled(s.calls[e.call], e)
  }

  lemma KeyKept(x: Call, row: Option<Row>, e: Event)
    ensures Act(x, row, e).call.key == x.key && Act(x, row, e).call.path == x.path
  {
  }

  lemma StepCall(s: State, e: Event, c: nat)
    requires c in s.calls
    ensures c in Step(s, e).calls
    ensures Step(s, e).calls[c] == if Acts(s, e) && e.call == c then EffectOf(s, e).call else s.calls[c]
  {
    if !OfCall(e) { OtherStepCalls(s, e); } else if Acts(s, e) { ActStep(s, e); } else { IdleStep(s, e, c); }
  }

  lemma ActStep(s: State, e: Event)
    requires Acts(s, e)
    ensures Step(s, e) == Apply(s, e.call, EffectOf(s, e))
  {
  }

  lemma IdleStep(s: State, e: Event, c: nat)
    requires OfCall(e) && !Acts(s, e) && c in s.calls
    ensures c in Step(s, e).calls && Step(s, e).calls[c] == s.calls[c]
  {
  }

  lemma OtherStepCalls(s: State, e: Event)
    requires !OfCall(e)
    ensures Step(s, e).calls == s.calls && Step(s, e).submissions == s.submissions
  {
  }

  lemma StepRow(s: State, e: Event, key: Text)
    requires !e.WorkerSettles?
    ensures RowAt(Step(s, e), key) ==
            if Acts(s, e) && s.calls[e.call].key == key && EffectOf(s, e).row.Some? then EffectOf(s, e).row else RowAt(s, key)
  {
    if Acts(s, e) { KeyKept(s.calls[e.call], RowAt(s, s.calls[e.call].key), e); }
  }

  // ---------------------------------------------------------------- which submissions the sweep can find

  /** A submission's row is waiting for a sweep, or holds the chain's verdict. */
  ghost predicate Covered(s: State, y: Submission) {
    && y.key in s.rows
    && s.rows[y.key].txHash == Some(y.txHash)
    && (Selected(s.rows[y.key]) || Decided(s.verdicts, y.txHash, s.rows[y.key].status))
  }

  /** Any submission, direct or not, is covered exactly when its hash has reached its row. */
  lemma CoveredIffHashStored(s: State, i: nat)
    requires Invariant(s) && i < |s.submissions|
    ensures var y := s.submissions[i]; y.key in s.rows && (Covered(s, y) <==> s.rows[y.key].txHash == Some(y.txHash))
  {
    assert SubmissionAt(s, s.submissions[i]);
    assert RowOk(s.verdicts, s.rows[s.submissions[i].key]);
  }

  /**
   In every reachable state a submission is covered exactly when its call pays directly or has saved
   SUBMITTED: the asset comparison that chooses the way decides whether a crash can lose it.
   */
  lemma CoveredIffDirectOrSaved(es: seq<Event>, i: nat)
    requires i < |Run(INIT, es).submissions|
    ensures var s := Run(INIT, es);
            var y := s.submissions[i];
            y.call in s.calls && s.calls[y.call].key == y.key && (Covered(s, y) <==> !s.calls[y.call].path || s.calls[y.call].saved)
  {
    RunKeepsInvariant(es);
    CoveredIffHashStored(Run(INIT, es), i);
    assert SubmissionAt(Run(INIT, es), Run(INIT, es).submissions[i]);
  }

  /** In every reachable state every direct submission is covered; no crash loses one. */
  lemma DirectSubmissionsCovered(es: seq<Event>, i: nat)
    requires i < |Run(INIT, es).submissions| && Run(INIT, es).submissions[i].direct
    ensures Covered(Run(INIT, es), Run(INIT, es).submissions[i])
  {
    RunKeepsInvariant(es);
    CoveredIffDirectOrSaved(es, i);
    assert SubmissionAt(Run(INIT, es), Run(INIT, es).submissions[i]);
  }

  /** A call has saved SUBMITTED exactly from the step on in which it did so, and its way to pay is fixed. */
  lemma SavedBySubmittedSave(s: State, e: Event, c: nat)
    requires c in s.calls
    ensures c in Step(s, e).calls && Step(s, e).calls[c].path == s.calls[c].path
    ensures Step(s, e).calls[c].saved <==> s.calls[c].saved || (e == SaveSubmitted(c, true) && s.calls[c].phase == Sent)
  {
    StepCall(s, e, c);
    if Acts(s, e) && e.call == c { SavedAct(s.calls[c], RowAt(s, s.calls[c].key), e); }
  }

  lemma SavedAct(x: Call, row: Option<Row>, e: Event)
    ensures Act(x, row, e).call.path == x.path
    ensures Act(x, row, e).call.saved == (x.saved || (e.SaveSubmitted? && e.saved))
  {
  }

  /** At the moment it is made, a submission is covered exactly when its call needs no path payment. */
  lemma CoveredAtSubmission(es: seq<Event>, e: Event)
    requires |Step(Run(INIT, es), e).submissions| > |Run(INIT, es).submissions|
    ensures var s, t := Run(INIT, es), Step(Run(INIT, es), e);
            var y := t.submissions[|s.submissions|];
            && |t.submissions| == |s.submissions| + 1 && y.call in s.calls
            && (Covered(t, y) <==> !s.calls[y.call].path)
  {
    var s, t := Run(INIT, es), Step(Run(INIT, es), e);
    RunKeepsInvariant(es);
    RunSnoc(INIT, es, e);
    SubmissionIsNew(s, e);
    CoveredIffDirectOrSaved(es + [e], |s.submissions|);
  }

  lemma SubmissionIsNew(s: State, e: Event)
    requires Invariant(s) && |Step(s, e).submissions| > |s.submissions|
    ensures OfCall(e) && e.call in s.calls && e.call in Step(s, e).calls
    ensures Step(s, e).submissions[..|s.submissions|] == s.submissions && |Step(s, e).submissions| == |s.submissions| + 1
    ensures Step(s, e).submissions[|s.submissions|].call == e.call
    ensures Step(s, e).calls[e.call].path == s.calls[e.call].path && !Step(s, e).calls[e.call].saved
  {
    assert Acts(s, e) by { IdleSubmissions(s, e); }
    var x := s.calls[e.call];
    assert CallOk(x, RowAt(s, x.key));
    ActStep(s, e);
    SendsUnsaved(x, RowAt(s, x.key), e);
  }

  lemma IdleSubmissions(s: State, e: Event)
    ensures !Acts(s, e) ==> Step(s, e).submissions == s.submissions
  {
  }

  lemma SendsUnsaved(x: Call, row: Option<Row>, e: Event)
    requires Enabled(x, e) && CallOk(x, row) && Act(x, row, e).sent.Some?
    ensures Act(x, row, e).call.path == x.path && !Act(x, row, e).call.saved
  {
  }

  // ---------------------------------------------------------------- what path payments lose

  /** A call by path past the point where it could still save SUBMITTED. */
  predicate Lost(x: Call) {
    x.path && !x.saved && Submits(x.phase) && x.phase != Sent
  }

  lemma LostStep(s: State, e: Event, c: nat)
    requires c in s.calls && Lost(s.calls[c])
    ensures c in Step(s, e).calls && Lost(Step(s, e).calls[c]) && Step(s, e).calls[c].key == s.calls[c].key
  {
    StepCall(s, e, c);
    if Acts(s, e) && e.call == c { LostAct(s.calls[c], RowAt(s, s.calls[c].key), e); }
  }

  lemma LostAct(x: Call, row: Option<Row>, e: Event)
    requires Lost(x) && Enabled(x, e)
    ensures Lost(Act(x, row, e).call) && Act(x, row, e).call.key == x.key
  {
  }

  /** Submissions and verdicts only accumulate. */
  lemma {:induction false} HistoryStays(s: State, more: seq<Event>)
    ensures s.submissions <= Run(s, more).submissions
    ensures forall h :: h in s.verdicts ==> h in Run(s, more).verdicts && Run(s, more).verdicts[h] == s.verdicts[h]
  {
    if more != [] { HistoryStays(s, more[..|more| - 1]); }
  }

  lemma RunSnoc(s: State, es: seq<Event>, e: Event)
    ensures Run(s, es + [e]) == Step(Run(s, es), e)
  {
    assert (es + [e])[..|es|] == es;
  }

  lemma {:induction false} RunConcat(s: State, xs: seq<Event>, ys: seq<Event>)
    ensures Run(s, xs + ys) == Run(Run(s, xs), ys)
  {
    if ys == [] {
      assert xs + ys == xs;
    } else {
      assert (xs + ys)[..|xs + ys| - 1] == xs + ys[..|ys| - 1];
      RunConcat(s, xs, ys[..|ys| - 1]);
    }
  }

  lemma {:induction false} LostStays(s: State, c: nat, more: seq<Event>)
    requires c in s.calls && Lost(s.calls[c])
    ensures c in Run(s, more).calls && Lost(Run(s, more).calls[c])
  {
    if more != [] {
      LostStays(s, c, more[..|more| - 1]);
      LostStep(Run(s, more[..|more| - 1]), more[|more| - 1], c);
    }
  }

  /** A path payment whose call has passed its save of SUBMITTED without it is uncovered in every continuation. */
  lemma LostStaysUncovered(es: seq<Event>, i: nat, more: seq<Event>)
    requires var s := Run(INIT, es);
             i < |s.submissions| && s.submissions[i].call in s.calls && Lost(s.calls[s.submissions[i].call])
    ensures var t := Run(INIT, es + more);
            i < |t.submissions| && t.submissions[i] == Run(INIT, es).submissions[i] && !Covered(t, t.submissions[i])
  {
    RunConcat(INIT, es, more);
    HistoryStays(Run(INIT, es), more);
    LostStays(Run(INIT, es), Run(INIT, es).submissions[i].call, more);
    CoveredIffDirectOrSaved(es + more, i);
  }

  /** A FAILED row without hash that its owner, if it has one, leaves as it is. */
  ghost predicate Frozen(s: State, key: Text) {
    && RowAt(s, key) == Some(Row(Failed, None))
    && forall c :: c in s.calls && s.calls[c].key == key ==> Leaves(s.calls[c])
  }

  predicate Leaves(x: Call) {
    Owns(x.phase) ==> x.phase == Threw && x.entity == Row(Failed, None)
  }

  lemma LeavesAct(x: Call, e: Event)
    requires Leaves(x) && Enabled(x, e)
    ensures var f := Act(x, Some(Row(Failed, None)), e); f.row == Some(Row(Failed, None)) && f.call.key == x.key && Leaves(f.call)
  {
  }

  lemma FrozenStep(s: State, e: Event, key: Text)
    requires Invariant(s) && Frozen(s, key)
    ensures Frozen(Step(s, e), key)
  {
    FrozenCalls(s, e, key);
    if e.WorkerSettles? {
      assert CanSettle(s, e.worker) ==> s.queue.workers[e.worker].key != key;
    } else {
      StepRow(s, e, key);
      if Acts(s, e) && s.calls[e.call].key == key { LeavesAct(s.calls[e.call], e); }
    }
  }

  lemma FrozenCalls(s: State, e: Event, key: Text)
    requires Frozen(s, key)
    ensures forall c :: c in Step(s, e).calls && Step(s, e).calls[c].key == key ==> Leaves(Step(s, e).calls[c])
  {
    forall c | c in Step(s, e).calls && Step(s, e).calls[c].key == key ensures Leaves(Step(s, e).calls[c]) {
      if c in s.calls {
        StepCall(s, e, c);
        KeyKept(s.calls[c], RowAt(s, s.calls[c].key), e);
        if Acts(s, e) && e.call == c { LeavesAct(s.calls[c], e); }
      } else {
        NewCallLeaves(s, e, c);
      }
    }
  }

  lemma NewCallLeaves(s: State, e: Event, c: nat)
    requires c !in s.calls && c in Step(s, e).calls
    ensures Leaves(Step(s, e).calls[c])
  {
  }

  /** Once frozen, always frozen. */
  lemma {:induction false} FrozenStays(s: State, key: Text, more: seq<Event>)
    requires Invariant(s) && Frozen(s, key)
    ensures Invariant(Run(s, more)) && Frozen(Run(s, more), key)
  {
    if more != [] {
      FrozenStays(s, key, more[..|more| - 1]);
      StepKeepsInvariant(Run(s, more[..|more| - 1]), more[|more| - 1]);
      FrozenStep(Run(s, more[..|more| - 1]), more[|more| - 1], key);
    }
  }

  /** Inserted, and about to take one of the two ways to the network. */
  predicate Ready(s: State, c: nat, path: bool) {
    c in s.calls && s.calls[c].phase == Inserted && s.calls[c].path == path
  }

  /**
   A path payment that is sent and then rejected for slippage is never covered: in every continuation
   its row says FAILED, carries no hash and is selected by no sweep, while the network has the transaction.
   */
  lemma RejectedPathPaymentUncovered(es: seq<Event>, c: nat, txHash: Text, more: seq<Event>)
    requires Ready(Run(INIT, es), c, true)
    ensures var t := Run(INIT, es + [PathRejects(c, true, txHash)] + more);
            var y := Submission(Run(INIT, es).calls[c].key, txHash, false, c);
            && y in t.submissions && !Covered(t, y)
            && y.key in t.rows && t.rows[y.key] == Row(Failed, None) && !Selected(t.rows[y.key])
  {
    var s, e := Run(INIT, es), PathRejects(c, true, txHash);
    RunSnoc(INIT, es, e);
    RunKeepsInvariant(es);
    RejectedPathPayment(s, c, txHash);
    var t := Step(s, e);
    assert t.submissions[|s.submissions|] == Submission(s.calls[c].key, txHash, false, c);
    LostStaysUncovered(es + [e], |s.submissions|, more);
    StepKeepsInvariant(s, e);
    FrozenStays(t, s.calls[c].key, more);
    RunConcat(INIT, es + [e], more);
  }

  lemma RejectedPathPayment(s: State, c: nat, txHash: Text)
    requires Invariant(s) && Ready(s, c, true)
    ensures var t := Step(s, PathRejects(c, true, txHash));
            && t.submissions == s.submissions + [Submission(s.calls[c].key, txHash, false, c)]
            && c in t.calls && Lost(t.calls[c]) && Frozen(t, s.calls[c].key)
  {
    assert CallOk(s.calls[c], RowAt(s, s.calls[c].key));
  }

  /** Every payout can get as far as its insert, by either way, so the case above is real. */
  lemma InsertReachable(group: Text, round: nat, path: bool)
    ensures Ready(Run(INIT, [Begin(0, group, round, path), Lookup(0), Insert(0)]), 0, path)
  {
    var es := [Begin(0, group, round, path), Lookup(0), Insert(0)];
    assert es[..2][..1][..0] == [] && es[..2][..1] == es[..1];
    assert Run(INIT, es[..1]) == Step(INIT, es[0]);
    assert Run(INIT, es[..2]) == Step(Run(INIT, es[..1]), es[1]);
  }

  // ---------------------------------------------------------------- who writes FAILED

  lemma FailureAct(x: Call, row: Option<Row>, e: Event)
    requires Enabled(x, e) && CallOk(x, row)
    ensures WritesFailed(row, Act(x, row, e).row) ==> HashOf(Act(x, row, e).row).None? && (e.Catch? || e.PathRejects?)
  {
  }

  /** The row is changed to FAILED, or inserted so. */
  predicate WritesFailed(before: Option<Row>, after: Option<Row>) {
    after.Some? && after.value.status == Failed && after != before
  }

  /** Beside the reconciler only the catch block and a rejected path payment write FAILED, and only without a stored hash. */
  lemma FailureWriters(s: State, e: Event, key: Text)
    requires Invariant(s)
    ensures WritesFailed(RowAt(s, key), RowAt(Step(s, e), key)) ==>
              e.WorkerSettles? || (HashOf(RowAt(Step(s, e), key)).None? && (e.Catch? || e.PathRejects?))
  {
    if !e.WorkerSettles? {
      StepRow(s, e, key);
      if Acts(s, e) && s.calls[e.call].key == key {
        assert CallOk(s.calls[e.call], RowAt(s, key));
        FailureAct(s.calls[e.call], RowAt(s, key), e);
      }
    }
  }

  /** A call writes FAILED only over a row for which it made no direct submission. */
  lemma OnlyUnsentMarkedFailed(es: seq<Event>, e: Event, key: Text)
    requires WritesFailed(RowAt(Run(INIT, es), key), RowAt(Step(Run(INIT, es), e), key)) && !e.WorkerSettles?
    ensures var t := Step(Run(INIT, es), e);
            forall i :: 0 <= i < |t.submissions| && t.submissions[i].direct ==> t.submissions[i].key != key
  {
    var s, t := Run(INIT, es), Step(Run(INIT, es), e);
    RunKeepsInvariant(es);
    FailureWriters(s, e, key);
    StepKeepsInvariant(s, e);
    forall i | 0 <= i < |t.submissions| && t.submissions[i].direct ensures t.submissions[i].key != key {
      assert SubmissionAt(t, t.submissions[i]);
    }
  }

  // ---------------------------------------------------------------- settling, and what job ids do to it

  /** The row carries the chain's verdict on its hash. */
  ghost predicate Settled(s: State, y: Submission) {
    y.key in s.rows && s.rows[y.key].txHash == Some(y.txHash) && Decided(s.verdicts, y.txHash, s.rows[y.key].status)
  }

  /** The row's job id is taken by a job that no worker can take. */
  predicate Blocked(s: State, key: Text) {
    RowJob(key) in s.queue.jobs && s.queue.jobs[RowJob(key)].state != Waiting
  }

  /** One sweep that adds the row if it selects it. */
  function SweepRow(s: State, n: nat, key: Text): State {
    Step(Step(s, SweepReads(n)), SweepAdds(n, key))
  }

  /** One worker that takes a job and gets an answer, if there is one. */
  function Work(s: State, w: nat, id: JobId): State {
    Step(Step(s, WorkerTakes(w, id)), WorkerSettles(w, true))
  }

  lemma SweepRowAdds(s: State, n: nat, key: Text)
    requires n !in s.queue.sweeps && key in s.rows
    ensures var t := SweepRow(s, n, key);
            && t == s.(queue := t.queue) && t.queue.workers == s.queue.workers
            && t.queue.jobs == (if Selected(s.rows[key]) then EnqueueRow(s.queue, key).jobs else s.queue.jobs)
  {
  }

  /** The row that a job leads to, and whether it can be settled now. */
  predicate Settleable(s: State, id: JobId) {
    && JobIn(s.queue, id, Waiting) && s.queue.jobs[id].key in s.rows
    && Selected(s.rows[s.queue.jobs[id].key]) && s.rows[s.queue.jobs[id].key].txHash.value in s.verdicts
  }

  lemma WorkSettles(s: State, w: nat, id: JobId)
    requires w !in s.queue.workers
    ensures Work(s, w, id).verdicts == s.verdicts
    ensures Settleable(s, id) ==>
              var k := s.queue.jobs[id].key;
              var confirmed := s.verdicts[s.rows[k].txHash.value] == ChainConfirmed;
              Work(s, w, id).rows == s.rows[k := s.rows[k].(status := if confirmed then Confirmed else Failed)]
    ensures !Settleable(s, id) ==> Work(s, w, id).rows == s.rows
    ensures Settleable(s, id) ==> JobIn(Work(s, w, id).queue, id, Completed) && w !in Work(s, w, id).queue.workers
  {
    var taken := s.(queue := Takes(s.queue, s.rows, w, id));
    assert Step(s, WorkerTakes(w, id)) == taken;
    assert Work(s, w, id) == Settles(taken, w, true);
  }

  /**
   Once the chain has decided, one sweep and one worker settle the row of a direct submission exactly
   when no active, failed or completed job holds the row's job id, or the row was settled before.
   */
  lemma SweepSettlesIffNotBlocked(es: seq<Event>, i: nat, n: nat, w: nat)
    requires var s := Run(INIT, es);
             i < |s.submissions| && s.submissions[i].direct && s.submissions[i].txHash in s.verdicts
             && n !in s.queue.sweeps && w !in s.queue.workers
    ensures var s := Run(INIT, es);
            var y := s.submissions[i];
            Settled(Work(SweepRow(s, n, y.key), w, RowJob(y.key)), y) <==> Settled(s, y) || !Blocked(s, y.key)
  {
    RunKeepsInvariant(es);
    DirectSubmissionsCovered(es, i);
    SettlesIffNotBlocked(Run(INIT, es), Run(INIT, es).submissions[i], n, w);
  }

  lemma SettlesIffNotBlocked(s: State, y: Submission, n: nat, w: nat)
    requires QueueOk(s.queue, s.rows) && Covered(s, y) && y.txHash in s.verdicts && n !in s.queue.sweeps && w !in s.queue.workers
    ensures Settled(Work(SweepRow(s, n, y.key), w, RowJob(y.key)), y) <==> Settled(s, y) || !Blocked(s, y.key)
  {
    SweepRowAdds(s, n, y.key);
    var t := SweepRow(s, n, y.key);
    WorkSettles(t, w, RowJob(y.key));
    assert RowJob(y.key) in t.queue.jobs ==> t.queue.jobs[RowJob(y.key)].key == y.key;
    assert Settled(s, y) <==> !Selected(s.rows[y.key]);
  }

  /** In every run, a row is CONFIRMED only if it has a hash and the chain confirmed that hash. */
  lemma ConfirmedOnlyByChain(es: seq<Event>, key: Text)
    requires key in Run(INIT, es).rows && Run(INIT, es).rows[key].status == Confirmed
    ensures var s := Run(INIT, es);
            s.rows[key].txHash.Some? && s.rows[key].txHash.value in s.verdicts
            && s.verdicts[s.rows[key].txHash.value] == ChainConfirmed
  {
    RunKeepsInvariant(es);
    assert RowOk(Run(INIT, es).verdicts, Run(INIT, es).rows[key]);
  }

  /** And a row with a hash is FAILED only if the chain failed that hash. */
  lemma FailedWithHashByChain(es: seq<Event>, key: Text)
    requires key in Run(INIT, es).rows && Run(INIT, es).rows[key].status == Failed && Run(INIT, es).rows[key].txHash.Some?
    ensures var s := Run(INIT, es);
            s.rows[key].txHash.value in s.verdicts && s.verdicts[s.rows[key].txHash.value] == ChainFailed
  {
    RunKeepsInvariant(es);
    assert RowOk(Run(INIT, es).verdicts, Run(INIT, es).rows[key]);
  }

  /** A row's own job has used up its attempts, and no other job or worker is on the row. */
  ghost predicate Abandoned(q: Queue, key: Text) {
    && JobIn(q, RowJob(key), Exhausted)
    && (forall id :: id in q.jobs && q.jobs[id].key == key ==> q.jobs[id].state == Exhausted || q.jobs[id].state == Completed)
    && (forall w :: w in q.workers ==> q.workers[w].key != key)
  }

  ghost predicate Stranded(s: State, key: Text) {
    key in s.rows && Selected(s.rows[key]) && Abandoned(s.queue, key)
  }

  lemma AbandonedStep(q: Queue, rows: map<Text, Row>, e: Event, key: Text)
    requires Abandoned(q, key) && !OfOperator(e)
    ensures Abandoned(QueueStep(q, rows, e), key)
  {
  }

  lemma SelectedAct(x: Call, row: Option<Row>, e: Event)
    requires Enabled(x, e) && CallOk(x, row) && row.Some? && Selected(row.value)
    ensures var f := Act(x, row, e); f.call.key == x.key && f.row.Some? && Selected(f.row.value)
  {
  }

  lemma StrandedStep(s: State, e: Event, key: Text)
    requires Invariant(s) && Stranded(s, key) && !OfOperator(e)
    ensures Stranded(Step(s, e), key)
  {
    StrandedQueue(s, e, key);
    if e.WorkerSettles? {
      assert CanSettle(s, e.worker) ==> s.queue.workers[e.worker].key != key;
    } else {
      StepRow(s, e, key);
      if Acts(s, e) && s.calls[e.call].key == key {
        assert CallOk(s.calls[e.call], RowAt(s, key));
        SelectedAct(s.calls[e.call], RowAt(s, key), e);
      }
    }
  }

  lemma EnqueueAbandoned(q: Queue, key: Text, other: Text)
    requires Abandoned(q, key)
    ensures Abandoned(EnqueueRow(q, other), key)
  {
  }

  lemma ReportsAbandoned(q: Queue, w: nat, acknowledged: bool, key: Text)
    requires Abandoned(q, key)
    ensures Abandoned(Reports(q, w, acknowledged), key)
  {
  }

  lemma StrandedQueue(s: State, e: Event, key: Text)
    requires Abandoned(s.queue, key) && !OfOperator(e)
    ensures Abandoned(Step(s, e).queue, key)
  {
    if OfCall(e) {
      StepQueue(s, e);
      if Acts(s, e) { EnqueueAbandoned(s.queue, key, EffectOf(s, e).call.key); }
    } else if e.WorkerSettles? {
      ReportsAbandoned(s.queue, e.worker, e.acknowledged, key);
    } else if !e.WorkerSettles? && !e.ChainDecides? {
      AbandonedStep(s.queue, s.rows, e, key);
    }
  }

  lemma StepQueue(s: State, e: Event)
    requires OfCall(e)
    ensures Step(s, e).queue == if Acts(s, e) && EffectOf(s, e).enqueue then EnqueueRow(s.queue, EffectOf(s, e).call.key) else s.queue
  {
  }

  /** Without an operator such a row stays unsettled in every continuation, whatever the chain decides. */
  lemma {:induction false} StrandedStays(s: State, key: Text, more: seq<Event>)
    requires Invariant(s) && Stranded(s, key) && forall e <- more :: !OfOperator(e)
    ensures Invariant(Run(s, more)) && Stranded(Run(s, more), key)
  {
    if more != [] {
      var before, e := Run(s, more[..|more| - 1]), more[|more| - 1];
      StrandedStays(s, key, more[..|more| - 1]);
      assert e in more;
      StepKeepsInvariant(before, e);
      StrandedStep(before, e, key);
    }
  }

  /** With an operator's retry one worker settles it, once the chain has decided. */
  lemma OperatorRetrySettles(s: State, key: Text, w: nat)
    requires Invariant(s) && Stranded(s, key) && s.rows[key].txHash.value in s.verdicts && w !in s.queue.workers
    ensures var t := Work(Step(s, OperatorRetries(RowJob(key))), w, RowJob(key));
            key in t.rows && t.rows[key].txHash == s.rows[key].txHash && Decided(s.verdicts, s.rows[key].txHash.value, t.rows[key].status)
  {
    var t := s.(queue := SetJob(s.queue, RowJob(key), Waiting));
    assert Step(s, OperatorRetries(RowJob(key))) == t;
    WorkSettles(t, w, RowJob(key));
  }

  /** A worker is done at once, and its job with it, when the row is settled or not there. */
  lemma NothingToDo(s: State, w: nat, id: JobId)
    requires w !in s.queue.workers && JobIn(s.queue, id, Waiting)
    requires var k := s.queue.jobs[id].key; k !in s.rows || s.rows[k].status == Confirmed || s.rows[k].status == Failed
    ensures var t := Step(s, WorkerTakes(w, id));
            t.rows == s.rows && JobIn(t.queue, id, Completed) && w !in t.queue.workers
  {
  }

  // ---------------------------------------------------------------- how calls end

  /** A call for a payout that has a row does nothing but see to the job of a row that says SUBMITTED. */
  lemma RepeatedCallRequeues(s: State, c: nat)
    requires c in s.calls && s.calls[c].phase == Checking && s.calls[c].key in s.rows
    ensures var t, key := Step(s, Lookup(c)), s.calls[c].key;
            && t.rows == s.rows && t.submissions == s.submissions && c in t.calls && t.calls[c].phase == Finished
            && (RowJob(key) in t.queue.jobs <==> RowJob(key) in s.queue.jobs || s.rows[key].status == Submitted)
  {
  }

  /** The catch block marks the row FAILED exactly when the call has no hash, and ends the call. */
  lemma CatchFailsIff(s: State, c: nat)
    requires c in s.calls && s.calls[c].phase == Threw && s.calls[c].key in s.rows
    ensures var t, key := Step(s, Catch(c)), s.calls[c].key;
            && c in t.calls && t.calls[c].phase == Finished && t.submissions == s.submissions && key in t.rows
            && (if s.calls[c].entity.txHash.None? then t.rows == s.rows[key := Row(Failed, None)] else t.rows == s.rows)
  {
  }

  /** A crash leaves everything as it is but the call. */
  lemma CrashLeavesState(s: State, c: nat)
    requires c in s.calls
    ensures var t := Step(s, Crash(c));
            t == s.(calls := t.calls) && c in t.calls && t.calls[c].phase == Finished && t.calls[c].entity == s.calls[c].entity
  {
    assert RowAt(s, s.calls[c].key).Some? ==> s.rows[s.calls[c].key := s.rows[s.calls[c].key]] == s.rows;
  }

  // ---------------------------------------------------------------- a run that strands a direct payout

  /** A direct payout up to its submission, its own save and its queued job. */
  function PayoutRun(group: Text, round: nat, h: Text): seq<Event> {
    [Begin(0, group, round, false)] + [Lookup(0)] + [Insert(0)] + [SaveHash(0, h, true)]
    + [Send(0, true)] + [SaveSubmitted(0, true)] + [Enqueue(0, true)]
  }

  function PayoutState(k: Text, h: Text): State {
    State(map[k := Row(Submitted, Some(h))], map[0 := Call(k, false, Finished, Row(Submitted, Some(h)), true)],
          [Submission(k, h, true, 0)], map[], Queue(map[RowJob(k) := Job(k, ATTEMPTS, Waiting)], map[], map[]))
  }

  /** One call is all there is. */
  function Alone(x: Call, row: Option<Row>, ys: seq<Submission>): State {
    State(if row.Some? then map[x.key := row.value] else map[], map[0 := x], ys, map[], Queue(map[], map[], map[]))
  }

  lemma AloneStep(x: Call, row: Option<Row>, ys: seq<Submission>, e: Event)
    requires OfCall(e) && e.call == 0 && Enabled(x, e) && !Act(x, row, e).enqueue
    requires row.Some? ==> Act(x, row, e).row.Some?
    ensures var f := Act(x, row, e);
            Step(Alone(x, row, ys), e) ==
            Alone(f.call, f.row, if f.sent.Some? then ys + [Submission(x.key, f.sent.value, !x.path, 0)] else ys)
  {
    assert RowAt(Alone(x, row, ys), x.key) == row;
    KeyKept(x, row, e);
  }

  lemma PayoutRunInserts(group: Text, round: nat)
    ensures var k := PayoutOrderId(group, round);
            Run(INIT, [Begin(0, group, round, false)] + [Lookup(0)] + [Insert(0)]) ==
            Alone(Call(k, false, Inserted, Row(PendingSubmission, None), false), Some(Row(PendingSubmission, None)), [])
  {
    var x := Call(PayoutOrderId(group, round), false, Checking, Row(PendingSubmission, None), false);
    var e1 := [Begin(0, group, round, false)];
    assert e1[..0] == [];
    assert Run(INIT, e1) == Step(INIT, e1[0]) == Alone(x, None, []);
    RunSnoc(INIT, e1, Lookup(0));
    AloneStep(x, None, [], Lookup(0));
    RunSnoc(INIT, e1 + [Lookup(0)], Insert(0));
    AloneStep(x.(phase := Absent), None, [], Insert(0));
  }

  lemma PayoutRunSubmits(es: seq<Event>, k: Text, h: Text)
    requires Run(INIT, es) == Alone(Call(k, false, Inserted, Row(PendingSubmission, None), false), Some(Row(PendingSubmission, None)), [])
    ensures Run(INIT, es + [SaveHash(0, h, true)] + [Send(0, true)] + [SaveSubmitted(0, true)]) ==
            Alone(Call(k, false, Saved, Row(Submitted, Some(h)), true), Some(Row(Submitted, Some(h))), [Submission(k, h, true, 0)])
  {
    var x, row := Call(k, false, Inserted, Row(PendingSubmission, None), false), Row(PendingSubmission, Some(h));
    var ys := [Submission(k, h, true, 0)];
    RunSnoc(INIT, es, SaveHash(0, h, true));
    AloneStep(x, Some(x.entity), [], SaveHash(0, h, true));
    RunSnoc(INIT, es + [SaveHash(0, h, true)], Send(0, true));
    AloneStep(x.(phase := HashSaved, entity := row), Some(row), [], Send(0, true));
    assert [] + ys == ys;
    RunSnoc(INIT, es + [SaveHash(0, h, true)] + [Send(0, true)], SaveSubmitted(0, true));
    AloneStep(x.(phase := Sent, entity := row), Some(row), ys, SaveSubmitted(0, true));
  }

  lemma PayoutRunReaches(group: Text, round: nat, h: Text)
    ensures Run(INIT, PayoutRun(group, round, h)) == PayoutState(PayoutOrderId(group, round), h)
  {
    var k := PayoutOrderId(group, round);
    var es := [Begin(0, group, round, false)] + [Lookup(0)] + [Insert(0)];
    PayoutRunInserts(group, round);
    PayoutRunSubmits(es, k, h);
    RunSnoc(INIT, es + [SaveHash(0, h, true)] + [Send(0, true)] + [SaveSubmitted(0, true)], Enqueue(0, true));
    AloneEnqueues(k, h);
  }

  /** A path payment that goes well ends like a direct payout, with its hash in the row and a job. */
  lemma PathPayoutReaches(group: Text, round: nat, h: Text, es: seq<Event>)
    requires es == [Begin(0, group, round, true)] + [Lookup(0)] + [Insert(0)]
    ensures var k := PayoutOrderId(group, round);
            var t := Run(INIT, es + [PathPays(0, h)] + [SaveSubmitted(0, true)]);
            t == Alone(Call(k, true, Saved, Row(Submitted, Some(h)), true), Some(Row(Submitted, Some(h))), [Submission(k, h, false, 0)])
  {
    var k, unsent := PayoutOrderId(group, round), Row(PendingSubmission, None);
    var x := Call(k, true, Checking, unsent, false);
    var e1 := [Begin(0, group, round, true)];
    assert e1[..0] == [];
    assert Run(INIT, e1) == Step(INIT, e1[0]) == Alone(x, None, []);
    RunSnoc(INIT, e1, Lookup(0));
    AloneStep(x, None, [], Lookup(0));
    RunSnoc(INIT, e1 + [Lookup(0)], Insert(0));
    AloneStep(x.(phase := Absent), None, [], Insert(0));
    PathPaysAndSaves(es, k, h);
  }

  lemma PathPaysAndSaves(es: seq<Event>, k: Text, h: Text)
    requires Run(INIT, es) == Alone(Call(k, true, Inserted, Row(PendingSubmission, None), false), Some(Row(PendingSubmission, None)), [])
    ensures Run(INIT, es + [PathPays(0, h)] + [SaveSubmitted(0, true)]) ==
            Alone(Call(k, true, Saved, Row(Submitted, Some(h)), true), Some(Row(Submitted, Some(h))), [Submission(k, h, false, 0)])
  {
    var x, row := Call(k, true, Inserted, Row(PendingSubmission, None), false), Row(PendingSubmission, Some(h));
    var ys := [Submission(k, h, false, 0)];
    RunSnoc(INIT, es, PathPays(0, h));
    AloneStep(x, Some(x.entity), [], PathPays(0, h));
    assert [] + ys == ys;
    RunSnoc(INIT, es + [PathPays(0, h)], SaveSubmitted(0, true));
    AloneStep(x.(phase := Sent, entity := row), Some(x.entity), ys, SaveSubmitted(0, true));
  }

  lemma AloneEnqueues(k: Text, h: Text)
    ensures Step(Alone(Call(k, false, Saved, Row(Submitted, Some(h)), true), Some(Row(Submitted, Some(h))), [Submission(k, h, true, 0)]),
                 Enqueue(0, true)) == PayoutState(k, h)
  {
  }

  /** Workers take the row's job again and again, and the chain has not decided yet. */
  function Attempts(k: Text, n: nat): seq<Event> {
    if n == 0 then [] else Attempts(k, n - 1) + [WorkerTakes(0, RowJob(k))] + [WorkerFails(0)]
  }

  function OneJob(k: Text, left: nat): Queue {
    Queue(map[RowJob(k) := Job(k, left, if left == 0 then Exhausted else Waiting)], map[], map[])
  }

  lemma OneAttempt(rows: map<Text, Row>, k: Text, left: nat)
    requires left >= 1 && k in rows && Selected(rows[k])
    ensures QueueStep(QueueStep(OneJob(k, left), rows, WorkerTakes(0, RowJob(k))), rows, WorkerFails(0)) == OneJob(k, left - 1)
  {
    var q := OneJob(k, left);
    var t := Queue(map[RowJob(k) := Job(k, left, Active(0))], map[], map[0 := Worker(RowJob(k), k, rows[k])]);
    assert Takes(q, rows, 0, RowJob(k)) == t;
    assert DropWorker(t, 0) == Queue(t.jobs, map[], map[]);
  }

  /** The state with the row's job at a number of attempts left. */
  predicate Waits(s: State, t: State, k: Text, left: nat) {
    t == s.(queue := OneJob(k, left)) && k in s.rows && Selected(s.rows[k])
  }

  lemma OneAttemptRun(s: State, t: State, es: seq<Event>, k: Text, left: nat)
    requires left >= 1 && Waits(t, Run(s, es), k, left)
    ensures Waits(t, Run(s, es + [WorkerTakes(0, RowJob(k))] + [WorkerFails(0)]), k, left - 1)
  {
    RunSnoc(s, es, WorkerTakes(0, RowJob(k)));
    RunSnoc(s, es + [WorkerTakes(0, RowJob(k))], WorkerFails(0));
    OneAttempt(Run(s, es).rows, k, left);
  }

  lemma {:induction false} AttemptsRunOut(s: State, k: Text, n: nat)
    requires n <= ATTEMPTS && Waits(s, s, k, ATTEMPTS)
    ensures Waits(s, Run(s, Attempts(k, n)), k, ATTEMPTS - n)
  {
    if n > 0 {
      AttemptsRunOut(s, k, n - 1);
      OneAttemptRun(s, s, Attempts(k, n - 1), k, ATTEMPTS - n + 1);
    } else {
      assert Run(s, []) == s;
    }
  }

  /** The payout is pending through all five attempts of its job, and only then decided. */
  function StrandingRun(group: Text, round: nat, h: Text): seq<Event> {
    PayoutRun(group, round, h) + Attempts(PayoutOrderId(group, round), 5) + [ChainDecides(h, ChainConfirmed)]
  }

  lemma StrandingRunReaches(group: Text, round: nat, h: Text)
    ensures var k := PayoutOrderId(group, round);
            Run(INIT, StrandingRun(group, round, h)) == PayoutState(k, h).(verdicts := map[h := ChainConfirmed], queue := OneJob(k, 0))
  {
    var k := PayoutOrderId(group, round);
    PayoutRunReaches(group, round, h);
    RunConcat(INIT, PayoutRun(group, round, h), Attempts(k, ATTEMPTS));
    AttemptsRunOut(PayoutState(k, h), k, ATTEMPTS);
    RunSnoc(INIT, PayoutRun(group, round, h) + Attempts(k, ATTEMPTS), ChainDecides(h, ChainConfirmed));
    assert PayoutState(k, h).submissions[0].txHash == h;
  }

  /** Every direct payout can be stranded: confirmed by the chain, and unsettled for good without an operator. */
  lemma StrandingReachable(group: Text, round: nat, h: Text, more: seq<Event>)
    requires forall e <- more :: !OfOperator(e)
    ensures var k := PayoutOrderId(group, round);
            var t := Run(INIT, StrandingRun(group, round, h) + more);
            && Submission(k, h, true, 0) in t.submissions && h in t.verdicts && t.verdicts[h] == ChainConfirmed
            && k in t.rows && t.rows[k].status != Confirmed
  {
    var s, k := Run(INIT, StrandingRun(group, round, h)), PayoutOrderId(group, round);
    StrandingRunReaches(group, round, h);
    RunKeepsInvariant(StrandingRun(group, round, h));
    StrandedStays(s, k, more);
    RunConcat(INIT, StrandingRun(group, round, h), more);
    HistoryStays(s, more);
    assert s.submissions[0] == Submission(k, h, true, 0);
  }
}
