/**
 The on-chain event poller: a ledger checkpoint and a set of processed transaction hashes guard the
 application of contract events to groups, memberships and contributions. What each handler does is
 the list of its database writes, so that a handler can fail between any two of them.
 */
module EventPoller {
  import opened Wrappers

  /** Payload fields as read by the handlers: a missing or blank field is `None`. */
  datatype Event =
    | ContributionReceived(groupId: Option<string>, userId: Option<string>, wallet: Option<string>, amount: Option<string>, round: Option<int>)
    | RoundCompleted(groupId: Option<string>, payoutUserId: Option<string>, payoutWallet: Option<string>, payoutOrder: Option<int>)

  /** A fetched record. `failAt` is the number of database writes that succeed before one throws. */
  datatype Tx = Tx(hash: string, successful: bool, ledger: int, events: seq<Event>, failAt: Option<nat>)

  datatype Contribution = Contribution(groupId: string, userId: string, wallet: string, amount: string, round: int)
  datatype Member = Member(groupId: string, userId: string, wallet: string, payoutOrder: Option<int>, hasPaid: bool, hasReceived: bool)
  datatype Db = Db(rounds: map<string, int>, members: seq<Member>, contributions: map<string, Contribution>)

  datatype Payee = ByUser(userId: string) | ByWallet(wallet: string) | ByOrder(order: int)

  datatype Write =
    | SaveContribution(hash: string, row: Contribution)
    | SetPaid(groupId: string, userId: string)
    | NextRound(groupId: string)
    | ClearPaid(groupId: string)
    | SetReceived(groupId: string, payee: Payee)

  /** `applied` and `checkpoints` are histories: transactions whose events were run, checkpoint values written. */
  datatype State = State(checkpoint: int, processed: set<string>, db: Db, applied: seq<Tx>, checkpoints: seq<int>)

  // ---------------------------------------------------------------- handlers

  function PayeeOf(e: Event): Option<Payee>
    requires e.RoundCompleted?
  {
    if e.payoutUserId.Some? then Some(ByUser(e.payoutUserId.value))
    else if e.payoutWallet.Some? then Some(ByWallet(e.payoutWallet.value))
    else if e.payoutOrder.Some? then Some(ByOrder(e.payoutOrder.value))
    else None
  }

  function Writes(hash: string, e: Event): seq<Write> {
    match e
    case ContributionReceived(g, u, w, a, r) =>
      if g.None? || u.None? || w.None? || a.None? then []
      else
        [SaveContribution(hash, Contribution(g.value, u.value, w.value, a.value, if r.Some? then r.value else 1)),
         SetPaid(g.value, u.value)]
    case RoundCompleted(g, _, _, _) =>
      if g.None? then []
      else
        [NextRound(g.value), ClearPaid(g.value)]
        + (if PayeeOf(e).Some? then [SetReceived(g.value, PayeeOf(e).value)] else [])
  }

  predicate Receives(m: Member, groupId: string, payee: Payee) {
    && m.groupId == groupId
    && match payee
       case ByUser(u) => m.userId == u
       case ByWallet(w) => m.wallet == w
       case ByOrder(o) => m.payoutOrder == Some(o)
  }

  function WriteMember(m: Member, w: Write): Member {
    match w
    case SetPaid(g, u) => if m.groupId == g && m.userId == u then m.(hasPaid := true) else m
    case ClearPaid(g) => if m.groupId == g then m.(hasPaid := false) else m
    case SetReceived(g, p) => if Receives(m, g, p) then m.(hasReceived := true) else m
    case _ => m
  }

  /** One database statement; updates match any number of rows. */
  function Apply(db: Db, w: Write): Db {
    match w
    case SaveContribution(h, row) => db.(contributions := db.contributions[h := row])
    case NextRound(g) => if g in db.rounds then db.(rounds := db.rounds[g := db.rounds[g] + 1]) else db
    case _ => db.(members := seq(|db.members|, i requires 0 <= i < |db.members| => WriteMember(db.members[i], w)))
  }

  function ApplyAll(db: Db, ws: seq<Write>): Db {
    if ws == [] then db else Apply(ApplyAll(db, ws[..|ws| - 1]), ws[|ws| - 1])
  }

  function AllWrites(hash: string, es: seq<Event>): seq<Write> {
    if es == [] then [] else AllWrites(hash, es[..|es| - 1]) + Writes(hash, es[|es| - 1])
  }

  /** The writes a transaction makes: all of them, or those before the one that throws. */
  function Performed(tx: Tx): seq<Write> {
    Cut(AllWrites(tx.hash, tx.events), tx.failAt)
  }

  function Cut(ws: seq<Write>, failAt: Option<nat>): seq<Write> {
    if failAt.Some? && failAt.value < |ws| then ws[..failAt.value] else ws
  }

  function Remaining(failAt: Option<nat>, made: nat): Option<nat> {
    if failAt.Some? && made <= failAt.value then Some(failAt.value - made) else None
  }

  // ---------------------------------------------------------------- polling

  /** `last` is the checkpoint as it was read when the poll began. */
  predicate Handled(last: int, tx: Tx) {
    tx.ledger != 0 && tx.ledger > last
  }

  predicate Processed(s: State, tx: Tx) {
    tx.hash != "" && tx.hash in s.processed
  }

  function WithProcessed(p: set<string>, hash: string): set<string> {
    if hash == "" then p else p + {hash}
  }

  function Handle(s: State, last: int, tx: Tx): State {
    if !Handled(last, tx) then s
    else
      var t := s.(checkpoint := tx.ledger, checkpoints := s.checkpoints + [tx.ledger]);
      if Processed(s, tx) then t
      else
        var u := t.(processed := WithProcessed(s.processed, tx.hash));
        if !tx.successful then u else u.(db := ApplyAll(s.db, Performed(tx)), applied := s.applied + [tx])
  }

  function PollFrom(s: State, last: int, txs: seq<Tx>): State {
    if txs == [] then s else Handle(PollFrom(s, last, txs[..|txs| - 1]), last, txs[|txs| - 1])
  }

  function Poll(s: State, txs: seq<Tx>): State {
    PollFrom(s, s.checkpoint, txs)
  }

  function Run(s: State, polls: seq<seq<Tx>>): State {
    if polls == [] then s else Poll(Run(s, polls[..|polls| - 1]), polls[|polls| - 1])
  }

  class Listener {
    var checkpoint: int
    var processed: set<string>
    var db: Db
    ghost var applied: seq<Tx>
    ghost var checkpoints: seq<int>
    const contractConfigured: bool

    ghost function View(): State
      reads this
    {
      State(checkpoint, processed, db, applied, checkpoints)
    }

    constructor (db: Db, contractConfigured: bool)
      ensures View() == State(0, {}, db, [], [])
      ensures this.contractConfigured == contractConfigured
    {
      this.checkpoint, this.processed, this.db := 0, {}, db;
      this.applied, this.checkpoints, this.contractConfigured := [], [], contractConfigured;
    }

    /** One event's handler; `failAt` counts the writes that still succeed before one throws. */
    method HandleParsedEvent(hash: string, e: Event, failAt: Option<nat>) returns (threw: bool)
      modifies this`db
      ensures db == ApplyAll(old(db), Cut(Writes(hash, e), failAt))
      ensures threw <==> failAt.Some? && failAt.value < |Writes(hash, e)|
    {
      var ws := Writes(hash, e);
      for k := 0 to |ws|
        invariant db == ApplyAll(old(db), ws[..k])
        invariant failAt.Some? ==> k <= failAt.value
      {
        if failAt == Some(k) { return true; }
        assert ws[..k + 1][..k] == ws[..k];
        db := Apply(db, ws[k]);
      }
      assert ws[..|ws|] == ws;
      threw := false;
    }

    /** Runs the events of one transaction until a handler throws. */
    method RunEvents(tx: Tx)
      modifies this`db
      ensures db == ApplyAll(old(db), Performed(tx))
    {
      var failAt := tx.failAt;
      for i := 0 to |tx.events|
        invariant db == ApplyAll(old(db), AllWrites(tx.hash, tx.events[..i]))
        invariant failAt == Remaining(tx.failAt, |AllWrites(tx.hash, tx.events[..i])|)
        invariant tx.failAt.Some? ==> |AllWrites(tx.hash, tx.events[..i])| <= tx.failAt.value
      {
        ghost var before, ws := AllWrites(tx.hash, tx.events[..i]), Writes(tx.hash, tx.events[i]);
        AllWritesStep(tx.hash, tx.events, i);
        CutStep(AllWrites(tx.hash, tx.events), before, ws, tx.failAt);
        ApplyAllConcat(old(db), before, Cut(ws, failAt));
        var threw := HandleParsedEvent(tx.hash, tx.events[i], failAt);
        if threw { return; }
        failAt := Remaining(failAt, |Writes(tx.hash, tx.events[i])|);
      }
      assert tx.events[..|tx.events|] == tx.events;
    }

    method PollNow(transactions: seq<Tx>)
      modifies this
      ensures View() == if contractConfigured then Poll(old(View()), transactions) else old(View())
    {
      if !contractConfigured { return; }
      var last := checkpoint;
      for i := 0 to |transactions|
        invariant View() == PollFrom(old(View()), last, transactions[..i])
      {
        var tx := transactions[i];
        assert transactions[..i + 1][..i] == transactions[..i];
        if tx.ledger == 0 || tx.ledger <= last {
          continue;
        }
        if tx.hash != "" && tx.hash in processed {
          SetLastProcessedLedger(tx.ledger);
          continue;
        }
        if tx.successful {
          RunEvents(tx);
          applied := applied + [tx];
        }
        MarkProcessed(tx.hash);
        SetLastProcessedLedger(tx.ledger);
      }
      assert transactions[..|transactions|] == transactions;
    }

    method SetLastProcessedLedger(ledger: int)
      modifies this`checkpoint, this`checkpoints
      ensures checkpoint == ledger && checkpoints == old(checkpoints) + [ledger]
    {
      checkpoint, checkpoints := ledger, checkpoints + [ledger];
    }

    method MarkProcessed(hash: string)
      modifies this`processed
      ensures processed == WithProcessed(old(processed), hash)
    {
      if hash != "" { processed := processed + {hash}; }
    }
  }

  lemma {:induction false} ApplyAllConcat(db: Db, xs: seq<Write>, ys: seq<Write>)
    ensures ApplyAll(db, xs + ys) == ApplyAll(ApplyAll(db, xs), ys)
  {
    if ys == [] {
      assert xs + ys == xs;
    } else {
      assert (xs + ys)[..|xs + ys| - 1] == xs + ys[..|ys| - 1];
      ApplyAllConcat(db, xs, ys[..|ys| - 1]);
    }
  }

  /** Cutting the next event's writes extends what was written so far, or ends at the cut of the whole list. */
  lemma CutStep(all: seq<Write>, before: seq<Write>, ws: seq<Write>, failAt: Option<nat>)
    requires before + ws <= all && (failAt.Some? ==> |before| <= failAt.value)
    ensures var left := Remaining(failAt, |before|);
            before + Cut(ws, left) == if left.Some? && left.value < |ws| then Cut(all, failAt) else before + ws
  {
    if failAt.Some? && failAt.value - |before| < |ws| {
      assert all[..failAt.value] == (before + ws)[..failAt.value];
    }
  }

  lemma AllWritesStep(hash: string, es: seq<Event>, i: nat)
    requires i < |es|
    ensures AllWrites(hash, es[..i + 1]) == AllWrites(hash, es[..i]) + Writes(hash, es[i])
    ensures AllWrites(hash, es[..i]) + Writes(hash, es[i]) <= AllWrites(hash, es)
  {
    assert es[..i + 1][..i] == es[..i];
    AllWritesPrefix(hash, es, i + 1);
  }

  lemma {:induction false} AllWritesPrefix(hash: string, es: seq<Event>, i: nat)
    requires i <= |es|
    ensures AllWrites(hash, es[..i]) <= AllWrites(hash, es)
    decreases |es| - i
  {
    if i < |es| {
      assert es[..i + 1][..i] == es[..i];
      AllWritesPrefix(hash, es, i + 1);
    } else {
      assert es[..i] == es;
    }
  }

  // ---------------------------------------------------------------- the invariant

  /** The contribution a list of writes leaves behind for its transaction: the last one saved. */
  function LastSaved(ws: seq<Write>): Option<Contribution> {
    if ws == [] then None
    else if ws[|ws| - 1].SaveContribution? then Some(ws[|ws| - 1].row)
    else LastSaved(ws[..|ws| - 1])
  }

  ghost predicate Recorded(s: State, tx: Tx) {
    && tx.successful
    && (tx.hash != "" ==>
          && tx.hash in s.processed
          && (LastSaved(Performed(tx)).Some? ==>
                tx.hash in s.db.contributions && s.db.contributions[tx.hash] == LastSaved(Performed(tx)).value))
  }

  ghost predicate Invariant(s: State) {
    && (forall i :: 0 <= i < |s.applied| ==> Recorded(s, s.applied[i]))
    && (forall i, j :: 0 <= i < j < |s.applied| && s.applied[i].hash != "" ==> s.applied[i].hash != s.applied[j].hash)
  }

  ghost predicate SavesOnly(hash: string, ws: seq<Write>) {
    forall i :: 0 <= i < |ws| && ws[i].SaveContribution? ==> ws[i].hash == hash
  }

  lemma {:induction false} AllWritesSaveOnly(hash: string, es: seq<Event>)
    ensures SavesOnly(hash, AllWrites(hash, es))
  {
    if es != [] { AllWritesSaveOnly(hash, es[..|es| - 1]); }
  }

  /** A transaction's writes leave other contributions alone and its own at the last one saved. */
  lemma {:induction false} SavedContribution(db: Db, hash: string, ws: seq<Write>)
    requires SavesOnly(hash, ws)
    ensures var c := ApplyAll(db, ws).contributions;
            && (forall h :: h != hash ==> (h in c <==> h in db.contributions) && (h in c ==> c[h] == db.contributions[h]))
            && (LastSaved(ws).Some? ==> hash in c && c[hash] == LastSaved(ws).value)
  {
    if ws != [] { SavedContribution(db, hash, ws[..|ws| - 1]); }
  }

  lemma HandleKeepsInvariant(s: State, last: int, tx: Tx)
    requires Invariant(s)
    ensures Invariant(Handle(s, last, tx))
  {
    AllWritesSaveOnly(tx.hash, tx.events);
    SavedContribution(s.db, tx.hash, Performed(tx));
    var t := Handle(s, last, tx);
    forall i | 0 <= i < |t.applied| ensures Recorded(t, t.applied[i]) {
      if i < |s.applied| { assert Recorded(s, s.applied[i]); }
    }
    forall i | 0 <= i < |s.applied| && s.applied[i].hash != "" ensures s.applied[i].hash in s.processed {
      assert Recorded(s, s.applied[i]);
    }
  }

  /** What one transaction changes in the histories, and how the checkpoint follows them. */
  ghost predicate Extends(s: State, t: State, last: int) {
    && s.applied <= t.applied && s.checkpoints <= t.checkpoints && s.processed <= t.processed
    && (forall i :: |s.applied| <= i < |t.applied| ==> t.applied[i].ledger > last)
    && (t.checkpoint == s.checkpoint || t.checkpoint > last)
  }

  lemma {:induction false} PollFromKeeps(s: State, last: int, txs: seq<Tx>)
    requires Invariant(s)
    ensures Invariant(PollFrom(s, last, txs)) && Extends(s, PollFrom(s, last, txs), last)
  {
    if txs != [] {
      PollFromKeeps(s, last, txs[..|txs| - 1]);
      HandleKeepsInvariant(PollFrom(s, last, txs[..|txs| - 1]), last, txs[|txs| - 1]);
    }
  }

  // ---------------------------------------------------------------- main results

  /** Over any polls of any lists: histories only grow, the checkpoint never falls, nothing at or below it is applied. */
  lemma {:induction false} RunKeeps(s: State, polls: seq<seq<Tx>>)
    requires Invariant(s)
    ensures Invariant(Run(s, polls)) && Extends(s, Run(s, polls), s.checkpoint)
    ensures Run(s, polls).checkpoint >= s.checkpoint
  {
    if polls != [] {
      var before := Run(s, polls[..|polls| - 1]);
      RunKeeps(s, polls[..|polls| - 1]);
      PollFromKeeps(before, before.checkpoint, polls[|polls| - 1]);
    }
  }

  /** Each non-empty hash has its events applied at most once, whatever the polls fetched. */
  lemma AppliedAtMostOnce(s: State, polls: seq<seq<Tx>>, i: nat, j: nat)
    requires Invariant(s) && i < j < |Run(s, polls).applied| && Run(s, polls).applied[i].hash != ""
    ensures Run(s, polls).applied[i].hash != Run(s, polls).applied[j].hash
  {
    RunKeeps(s, polls);
  }

  /** The contribution recorded for an applied transaction is that of its last saved event, in every later state. */
  lemma ContributionIsLastEvent(s: State, polls: seq<seq<Tx>>, tx: Tx)
    requires Invariant(s) && tx in Run(s, polls).applied && tx.hash != "" && LastSaved(Performed(tx)).Some?
    ensures tx.hash in Run(s, polls).db.contributions
    ensures Run(s, polls).db.contributions[tx.hash] == LastSaved(Performed(tx)).value
  {
    RunKeeps(s, polls);
    var t := Run(s, polls);
    var i :| 0 <= i < |t.applied| && t.applied[i] == tx;
    assert Recorded(t, t.applied[i]);
  }

  /** A contribution event with all the fields that are needed. */
  predicate CompleteContribution(e: Event) {
    e.ContributionReceived? && e.groupId.Some? && e.userId.Some? && e.wallet.Some? && e.amount.Some?
  }

  /** The row says what the event says; a missing round means round 1. */
  predicate SaysEvent(row: Contribution, e: Event)
    requires CompleteContribution(e)
  {
    && row.groupId == e.groupId.value && row.userId == e.userId.value
    && row.wallet == e.wallet.value && row.amount == e.amount.value
    && row.round == (match e.round case Some(n) => n case None => 1)
  }

  /** The last complete contribution event. */
  ghost predicate LastContribution(es: seq<Event>, i: nat) {
    i < |es| && CompleteContribution(es[i]) && forall j :: i < j < |es| ==> !CompleteContribution(es[j])
  }

  lemma LastSavedSnoc(ws: seq<Write>, w: Write)
    ensures LastSaved(ws + [w]) == if w.SaveContribution? then Some(w.row) else LastSaved(ws)
  {
    assert (ws + [w])[..|ws|] == ws;
  }

  lemma SavedByEvent(hash: string, e: Event)
    ensures CompleteContribution(e) ==> LastSaved(Writes(hash, e)).Some? && SaysEvent(LastSaved(Writes(hash, e)).value, e)
    ensures !CompleteContribution(e) ==> LastSaved(Writes(hash, e)).None?
  {
    var ws := Writes(hash, e);
    if |ws| > 0 {
      LastSavedSnoc([], ws[0]);
      LastSavedSnoc([ws[0]], ws[1]);
      assert [] + [ws[0]] == [ws[0]];
      assert ws[..2] == [ws[0]] + [ws[1]];
      if |ws| == 3 {
        LastSavedSnoc(ws[..2], ws[2]);
        assert ws == ws[..2] + [ws[2]];
      } else {
        assert ws == ws[..2];
      }
    }
  }

  lemma {:induction false} LastSavedConcat(xs: seq<Write>, ys: seq<Write>)
    ensures LastSaved(xs + ys) == if LastSaved(ys).Some? then LastSaved(ys) else LastSaved(xs)
  {
    if ys == [] {
      assert xs + ys == xs;
    } else {
      assert (xs + ys)[..|xs + ys| - 1] == xs + ys[..|ys| - 1];
      LastSavedConcat(xs, ys[..|ys| - 1]);
    }
  }

  lemma EarlierContribution(es: seq<Event>, i: nat)
    requires LastContribution(es, i) && i < |es| - 1
    ensures LastContribution(es[..|es| - 1], i) && es[..|es| - 1][i] == es[i]
  {
  }

  lemma {:induction false} SavedIsLastEvent(hash: string, es: seq<Event>, i: nat)
    requires LastContribution(es, i)
    ensures LastSaved(AllWrites(hash, es)).Some? && SaysEvent(LastSaved(AllWrites(hash, es)).value, es[i])
  {
    var n := |es| - 1;
    SavedByEvent(hash, es[n]);
    LastSavedConcat(AllWrites(hash, es[..n]), Writes(hash, es[n]));
    if i < n {
      assert !CompleteContribution(es[n]);
      EarlierContribution(es, i);
      SavedIsLastEvent(hash, es[..n], i);
    }
  }

  /**
   The stored contribution of a transaction that was applied without a throwing handler has the group,
   user, wallet, amount and round of its last complete contribution event, in every later state.
   */
  lemma ContributionSaysEvent(s: State, polls: seq<seq<Tx>>, tx: Tx, i: nat)
    requires Invariant(s) && tx in Run(s, polls).applied && tx.hash != "" && tx.failAt.None? && LastContribution(tx.events, i)
    ensures tx.hash in Run(s, polls).db.contributions
    ensures SaysEvent(Run(s, polls).db.contributions[tx.hash], tx.events[i])
  {
    SavedIsLastEvent(tx.hash, tx.events, i);
    ContributionIsLastEvent(s, polls, tx);
  }

  // ---------------------------------------------------------------- checkpoint order

  function HandledLedgers(last: int, txs: seq<Tx>): seq<int> {
    if txs == [] then []
    else HandledLedgers(last, txs[..|txs| - 1]) + (if Handled(last, txs[|txs| - 1]) then [txs[|txs| - 1].ledger] else [])
  }

  ghost predicate Ascending(xs: seq<int>) {
    forall i, j :: 0 <= i < j < |xs| ==> xs[i] <= xs[j]
  }

  lemma {:induction false} PollWrites(s: State, last: int, txs: seq<Tx>)
    ensures PollFrom(s, last, txs).checkpoints == s.checkpoints + HandledLedgers(last, txs)
    ensures PollFrom(s, last, txs).checkpoint ==
              if HandledLedgers(last, txs) == [] then s.checkpoint else HandledLedgers(last, txs)[|HandledLedgers(last, txs)| - 1]
    ensures forall l :: l in HandledLedgers(last, txs) ==> l > last
  {
    if txs != [] { PollWrites(s, last, txs[..|txs| - 1]); }
  }

  /** The checkpoint values written so far ascend and end at the current one. */
  ghost predicate CheckpointsAscend(s: State) {
    Ascending(s.checkpoints) && forall c :: c in s.checkpoints ==> c <= s.checkpoint
  }

  ghost predicate InLedgerOrder(txs: seq<Tx>) {
    forall i, j :: 0 <= i < j < |txs| ==> txs[i].ledger <= txs[j].ledger
  }

  lemma {:induction false} HandledLedgersAscend(last: int, txs: seq<Tx>)
    requires InLedgerOrder(txs)
    ensures Ascending(HandledLedgers(last, txs))
    ensures txs != [] ==> forall l :: l in HandledLedgers(last, txs) ==> l <= txs[|txs| - 1].ledger
  {
    if txs != [] {
      var init, tx := txs[..|txs| - 1], txs[|txs| - 1];
      HandledLedgersAscend(last, init);
      var hs := HandledLedgers(last, init);
      forall i | 0 <= i < |hs| ensures hs[i] <= tx.ledger {
        assert hs[i] in hs;
        assert init != [] ==> init[|init| - 1] == txs[|txs| - 2];
      }
    }
  }

  /** Inside a poll the checkpoint is only ever raised exactly when the handled transactions come in ledger order. */
  lemma WritesAscendIff(s: State, txs: seq<Tx>)
    requires CheckpointsAscend(s)
    ensures CheckpointsAscend(Poll(s, txs)) <==> Ascending(HandledLedgers(s.checkpoint, txs))
  {
    PollWrites(s, s.checkpoint, txs);
    var t, hs := Poll(s, txs), HandledLedgers(s.checkpoint, txs);
    if CheckpointsAscend(t) {
      forall i, j | 0 <= i < j < |hs| ensures hs[i] <= hs[j] {
        assert t.checkpoints[|s.checkpoints| + i] == hs[i] && t.checkpoints[|s.checkpoints| + j] == hs[j];
      }
    }
    if Ascending(hs) {
      assert hs != [] ==> hs[|hs| - 1] in hs;
      forall c | c in s.checkpoints ensures c <= t.checkpoint { }
      forall i, j | 0 <= i < j < |t.checkpoints| ensures t.checkpoints[i] <= t.checkpoints[j] {
        if i < |s.checkpoints| {
          assert s.checkpoints[i] in s.checkpoints;
          assert j < |s.checkpoints| || t.checkpoints[j] in hs;
        }
      }
    }
  }

  lemma {:induction false} LedgerOrderKeepsCheckpointsAscending(s: State, polls: seq<seq<Tx>>)
    requires CheckpointsAscend(s)
    requires forall k :: 0 <= k < |polls| ==> InLedgerOrder(polls[k])
    ensures CheckpointsAscend(Run(s, polls))
  {
    if polls != [] {
      var before, txs := Run(s, polls[..|polls| - 1]), polls[|polls| - 1];
      LedgerOrderKeepsCheckpointsAscending(s, polls[..|polls| - 1]);
      HandledLedgersAscend(before.checkpoint, txs);
      WritesAscendIff(before, txs);
    }
  }

  // ---------------------------------------------------------------- the database is the replay of the log

  function Replay(db: Db, txs: seq<Tx>): Db {
    if txs == [] then db else ApplyAll(Replay(db, txs[..|txs| - 1]), Performed(txs[|txs| - 1]))
  }

  lemma {:induction false} ReplayConcat(db: Db, xs: seq<Tx>, ys: seq<Tx>)
    ensures Replay(db, xs + ys) == Replay(Replay(db, xs), ys)
  {
    if ys == [] {
      assert xs + ys == xs;
    } else {
      assert (xs + ys)[..|xs + ys| - 1] == xs + ys[..|ys| - 1];
      ReplayConcat(db, xs, ys[..|ys| - 1]);
    }
  }

  /** A transaction is added to the log exactly when its writes are applied. */
  lemma HandleLogs(s: State, last: int, tx: Tx)
    ensures var t := Handle(s, last, tx);
            (t.applied == s.applied && t.db == s.db) || (t.applied == s.applied + [tx] && t.db == ApplyAll(s.db, Performed(tx)))
  {
  }

  lemma ReplaySnoc(db: Db, txs: seq<Tx>, tx: Tx)
    ensures Replay(db, txs + [tx]) == ApplyAll(Replay(db, txs), Performed(tx))
  {
    assert (txs + [tx])[..|txs|] == txs;
  }

  lemma SuffixSnoc(xs: seq<Tx>, ys: seq<Tx>, tx: Tx)
    requires xs <= ys
    ensures xs <= ys + [tx] && (ys + [tx])[|xs|..] == ys[|xs|..] + [tx]
  {
  }

  lemma {:induction false} PollReplays(s: State, last: int, txs: seq<Tx>)
    ensures s.applied <= PollFrom(s, last, txs).applied
    ensures PollFrom(s, last, txs).db == Replay(s.db, PollFrom(s, last, txs).applied[|s.applied|..])
  {
    if txs == [] {
      assert s.applied[|s.applied|..] == [];
    } else {
      var p, tx := PollFrom(s, last, txs[..|txs| - 1]), txs[|txs| - 1];
      PollReplays(s, last, txs[..|txs| - 1]);
      HandleLogs(p, last, tx);
      SuffixSnoc(s.applied, p.applied, tx);
      ReplaySnoc(s.db, p.applied[|s.applied|..], tx);
    }
  }

  lemma SuffixSplit(xs: seq<Tx>, ys: seq<Tx>, zs: seq<Tx>)
    requires xs <= ys <= zs
    ensures zs[|xs|..] == ys[|xs|..] + zs[|ys|..]
  {
  }

  /** Whatever was fetched, the database is the replay of the applied transactions in order. */
  lemma {:induction false} RunReplays(s: State, polls: seq<seq<Tx>>)
    ensures s.applied <= Run(s, polls).applied
    ensures Run(s, polls).db == Replay(s.db, Run(s, polls).applied[|s.applied|..])
  {
    if polls != [] {
      var p := Run(s, polls[..|polls| - 1]);
      RunReplays(s, polls[..|polls| - 1]);
      PollReplays(p, p.checkpoint, polls[|polls| - 1]);
      var q := Run(s, polls);
      SuffixSplit(s.applied, p.applied, q.applied);
      ReplayConcat(s.db, p.applied[|s.applied|..], q.applied[|p.applied|..]);
    }
  }

  // ---------------------------------------------------------------- rounds

  function Advances(g: string, ws: seq<Write>): nat {
    if ws == [] then 0 else Advances(g, ws[..|ws| - 1]) + (if ws[|ws| - 1] == NextRound(g) then 1 else 0)
  }

  /** RoundCompleted events for a group in a list of events. */
  function Completions(g: string, es: seq<Event>): nat {
    if es == [] then 0
    else Completions(g, es[..|es| - 1]) + (if es[|es| - 1].RoundCompleted? && es[|es| - 1].groupId == Some(g) then 1 else 0)
  }

  function CompletionsIn(g: string, txs: seq<Tx>): nat {
    if txs == [] then 0 else CompletionsIn(g, txs[..|txs| - 1]) + Completions(g, txs[|txs| - 1].events)
  }

  lemma {:induction false} AdvancesConcat(g: string, xs: seq<Write>, ys: seq<Write>)
    ensures Advances(g, xs + ys) == Advances(g, xs) + Advances(g, ys)
  {
    if ys == [] {
      assert xs + ys == xs;
    } else {
      assert (xs + ys)[..|xs + ys| - 1] == xs + ys[..|ys| - 1];
      AdvancesConcat(g, xs, ys[..|ys| - 1]);
    }
  }

  lemma EventAdvances(g: string, hash: string, e: Event)
    ensures Advances(g, Writes(hash, e)) == if e.RoundCompleted? && e.groupId == Some(g) then 1 else 0
  {
    var ws := Writes(hash, e);
    if |ws| > 0 {
      assert Advances(g, ws[..1]) == Advances(g, ws[..1][..0]) + (if ws[0] == NextRound(g) then 1 else 0);
      assert ws[..2][..1] == ws[..1];
      assert Advances(g, ws[..2]) == Advances(g, ws[..1]) + (if ws[1] == NextRound(g) then 1 else 0);
      assert |ws| == 2 ==> ws[..2] == ws;
    }
  }

  lemma {:induction false} EventsAdvance(g: string, hash: string, es: seq<Event>)
    ensures Advances(g, AllWrites(hash, es)) == Completions(g, es)
  {
    if es != [] {
      EventsAdvance(g, hash, es[..|es| - 1]);
      EventAdvances(g, hash, es[|es| - 1]);
      AdvancesConcat(g, AllWrites(hash, es[..|es| - 1]), Writes(hash, es[|es| - 1]));
    }
  }

  lemma {:induction false} WritesAdvance(g: string, db: Db, ws: seq<Write>)
    ensures g in ApplyAll(db, ws).rounds <==> g in db.rounds
    ensures g in db.rounds ==> ApplyAll(db, ws).rounds[g] == db.rounds[g] + Advances(g, ws)
  {
    if ws != [] { WritesAdvance(g, db, ws[..|ws| - 1]); }
  }

  lemma {:induction false} ReplayAdvances(g: string, db: Db, txs: seq<Tx>)
    requires forall tx :: tx in txs ==> tx.failAt.None?
    ensures g in Replay(db, txs).rounds <==> g in db.rounds
    ensures g in db.rounds ==> Replay(db, txs).rounds[g] == db.rounds[g] + CompletionsIn(g, txs)
  {
    if txs != [] {
      var init, tx := txs[..|txs| - 1], txs[|txs| - 1];
      ReplayAdvances(g, db, init);
      assert tx in txs;
      EventsAdvance(g, tx.hash, tx.events);
      WritesAdvance(g, Replay(db, init), Performed(tx));
    }
  }

  /** When no handler fails, a group's round grows by exactly the RoundCompleted events applied for it. */
  lemma RoundGrowsByCompletions(s: State, polls: seq<seq<Tx>>, g: string)
    requires forall tx :: tx in Run(s, polls).applied ==> tx.failAt.None?
    ensures |s.applied| <= |Run(s, polls).applied|
    ensures g in Run(s, polls).db.rounds <==> g in s.db.rounds
    ensures g in s.db.rounds ==>
              Run(s, polls).db.rounds[g] == s.db.rounds[g] + CompletionsIn(g, Run(s, polls).applied[|s.applied|..])
  {
    RunReplays(s, polls);
    ReplayAdvances(g, s.db, Run(s, polls).applied[|s.applied|..]);
  }

  // ---------------------------------------------------------------- what a throwing handler loses

  /** Round advances that the transactions' writes performed. */
  function AdvancesIn(g: string, txs: seq<Tx>): nat {
    if txs == [] then 0 else AdvancesIn(g, txs[..|txs| - 1]) + Advances(g, Performed(txs[|txs| - 1]))
  }

  lemma {:induction false} AdvancesOfCut(g: string, ws: seq<Write>, failAt: Option<nat>)
    ensures Advances(g, Cut(ws, failAt)) <= Advances(g, ws)
  {
    if failAt.Some? && failAt.value < |ws| {
      AdvancesConcat(g, ws[..failAt.value], ws[failAt.value..]);
      assert ws == ws[..failAt.value] + ws[failAt.value..];
    }
  }

  /** Completed rounds of a group that the applied transactions announced and their handlers did not get to. */
  function Shortfall(g: string, txs: seq<Tx>): int {
    CompletionsIn(g, txs) - AdvancesIn(g, txs)
  }

  lemma {:induction false} ShortfallGrows(g: string, txs: seq<Tx>, more: seq<Tx>)
    ensures 0 <= Shortfall(g, txs) <= Shortfall(g, txs + more)
    decreases |txs| + |more|
  {
    if more != [] {
      var m := |more| - 1;
      assert (txs + more)[..|txs + more| - 1] == txs + more[..m];
      ShortfallGrows(g, txs, more[..m]);
      OneShortfall(g, more[m]);
    } else {
      assert txs + more == txs;
      if txs != [] {
        ShortfallGrows(g, txs[..|txs| - 1], []);
        assert txs[..|txs| - 1] + [] == txs[..|txs| - 1];
        OneShortfall(g, txs[|txs| - 1]);
      }
    }
  }

  lemma OneShortfall(g: string, tx: Tx)
    ensures Advances(g, Performed(tx)) <= Completions(g, tx.events)
  {
    EventsAdvance(g, tx.hash, tx.events);
    AdvancesOfCut(g, AllWrites(tx.hash, tx.events), tx.failAt);
  }

  lemma {:induction false} ReplayRounds(g: string, db: Db, txs: seq<Tx>)
    ensures g in Replay(db, txs).rounds <==> g in db.rounds
    ensures g in db.rounds ==> Replay(db, txs).rounds[g] == db.rounds[g] + AdvancesIn(g, txs)
  {
    if txs != [] {
      ReplayRounds(g, db, txs[..|txs| - 1]);
      WritesAdvance(g, Replay(db, txs[..|txs| - 1]), Performed(txs[|txs| - 1]));
    }
  }

  /**
   With handlers that may throw, a group's round stays behind the announced completions by exactly
   those that handlers did not get to, and no later poll makes up for any of them.
   */
  lemma LostRoundsStayLost(s: State, polls: seq<seq<Tx>>, later: seq<seq<Tx>>, g: string)
    requires g in s.db.rounds
    ensures |s.applied| <= |Run(s, polls).applied| && |s.applied| <= |Run(Run(s, polls), later).applied|
    ensures g in Run(s, polls).db.rounds && Run(s, polls).db.rounds[g] ==
              s.db.rounds[g] + CompletionsIn(g, Run(s, polls).applied[|s.applied|..]) - Shortfall(g, Run(s, polls).applied[|s.applied|..])
    ensures 0 <= Shortfall(g, Run(s, polls).applied[|s.applied|..]) <= Shortfall(g, Run(Run(s, polls), later).applied[|s.applied|..])
  {
    var t := Run(s, polls);
    RunReplays(s, polls);
    RunReplays(t, later);
    ReplayRounds(g, s.db, t.applied[|s.applied|..]);
    SuffixSplit(s.applied, t.applied, Run(t, later).applied);
    ShortfallGrows(g, t.applied[|s.applied|..], Run(t, later).applied[|t.applied|..]);
  }

  /**
   The writes of an applied transaction are over for good: later polls apply other transactions only,
   so what lies past the throwing write is made by none of them.
   */
  lemma CutIsFinal(s: State, tx: Tx, polls: seq<seq<Tx>>)
    requires Invariant(s) && tx in s.applied && tx.hash != ""
    ensures s.applied <= Run(s, polls).applied
    ensures forall t :: t in Run(s, polls).applied[|s.applied|..] ==> t.hash != tx.hash
    ensures Run(s, polls).db == Replay(s.db, Run(s, polls).applied[|s.applied|..])
  {
    RunKeeps(s, polls);
    RunReplays(s, polls);
    var all := Run(s, polls).applied;
    var i :| 0 <= i < |s.applied| && s.applied[i] == tx;
    assert all[i] == tx;
    forall t | t in all[|s.applied|..] ensures t.hash != tx.hash {
      var j :| 0 <= j < |all[|s.applied|..]| && all[|s.applied|..][j] == t;
      assert all[|s.applied| + j] == t;
    }
  }

  // ---------------------------------------------------------------- member flags

  /** The event records a contribution of this member. */
  predicate PaysFor(e: Event, m: Member) {
    && e.ContributionReceived? && e.wallet.Some? && e.amount.Some?
    && e.groupId == Some(m.groupId) && e.userId == Some(m.userId)
  }

  predicate Completes(e: Event, m: Member) {
    e.RoundCompleted? && e.groupId == Some(m.groupId)
  }

  /** The event names this member as recipient: by user, else by wallet, else by order. */
  predicate Names(e: Event, m: Member) {
    && Completes(e, m)
    && (|| e.payoutUserId == Some(m.userId)
        || (e.payoutUserId.None? && e.payoutWallet == Some(m.wallet))
        || (e.payoutUserId.None? && e.payoutWallet.None? && e.payoutOrder.Some? && e.payoutOrder == m.payoutOrder))
  }

  ghost predicate PaidSinceRound(m: Member, es: seq<Event>) {
    || (exists i :: 0 <= i < |es| && PaidAt(m, es, i))
    || (m.hasPaid && forall i :: 0 <= i < |es| ==> !Completes(es[i], m))
  }

  ghost predicate PaidAt(m: Member, es: seq<Event>, i: nat)
    requires i < |es|
  {
    PaysFor(es[i], m) && forall j :: i < j < |es| ==> !Completes(es[j], m)
  }

  ghost predicate EverNamed(m: Member, es: seq<Event>) {
    exists i :: 0 <= i < |es| && Names(es[i], m)
  }

  function MemberWrites(m: Member, ws: seq<Write>): Member {
    if ws == [] then m else WriteMember(MemberWrites(m, ws[..|ws| - 1]), ws[|ws| - 1])
  }

  function MemberEvents(m: Member, es: seq<Event>): Member {
    if es == [] then m else MemberEvent(MemberEvents(m, es[..|es| - 1]), es[|es| - 1])
  }

  function MemberEvent(m: Member, e: Event): Member {
    m.(hasPaid := PaysFor(e, m) || (m.hasPaid && !Completes(e, m)), hasReceived := m.hasReceived || Names(e, m))
  }

  lemma {:induction false} ApplyAllMembers(db: Db, ws: seq<Write>)
    ensures |ApplyAll(db, ws).members| == |db.members|
    ensures forall i :: 0 <= i < |db.members| ==> ApplyAll(db, ws).members[i] == MemberWrites(db.members[i], ws)
  {
    if ws != [] { ApplyAllMembers(db, ws[..|ws| - 1]); }
  }

  lemma {:induction false} MemberWritesConcat(m: Member, xs: seq<Write>, ys: seq<Write>)
    ensures MemberWrites(m, xs + ys) == MemberWrites(MemberWrites(m, xs), ys)
  {
    if ys == [] {
      assert xs + ys == xs;
    } else {
      assert (xs + ys)[..|xs + ys| - 1] == xs + ys[..|ys| - 1];
      MemberWritesConcat(m, xs, ys[..|ys| - 1]);
    }
  }

  lemma {:induction false} MemberEventsConcat(m: Member, xs: seq<Event>, ys: seq<Event>)
    ensures MemberEvents(m, xs + ys) == MemberEvents(MemberEvents(m, xs), ys)
  {
    if ys == [] {
      assert xs + ys == xs;
    } else {
      assert (xs + ys)[..|xs + ys| - 1] == xs + ys[..|ys| - 1];
      MemberEventsConcat(m, xs, ys[..|ys| - 1]);
    }
  }

  lemma MemberWritesTwo(m: Member, a: Write, b: Write)
    ensures MemberWrites(m, [a, b]) == WriteMember(WriteMember(m, a), b)
  {
    assert [a, b][..1] == [a] && [a][..0] == [];
    assert MemberWrites(m, [a]) == WriteMember(MemberWrites(m, []), a);
    assert MemberWrites(m, [a, b]) == WriteMember(MemberWrites(m, [a]), b);
  }

  /** What one event's writes do to one member. */
  lemma WritesOnMember(m: Member, hash: string, e: Event)
    ensures MemberWrites(m, Writes(hash, e)) == MemberEvent(m, e)
  {
    var ws := Writes(hash, e);
    if |ws| > 0 {
      MemberWritesTwo(m, ws[0], ws[1]);
      assert ws[..2] == [ws[0], ws[1]];
      assert |ws| == 2 ==> ws == ws[..2];
    }
  }

  lemma {:induction false} TxOnMember(m: Member, hash: string, es: seq<Event>)
    ensures MemberWrites(m, AllWrites(hash, es)) == MemberEvents(m, es)
  {
    if es != [] {
      var init, e := es[..|es| - 1], es[|es| - 1];
      TxOnMember(m, hash, init);
      WritesOnMember(MemberEvents(m, init), hash, e);
      MemberWritesConcat(m, AllWrites(hash, init), Writes(hash, e));
    }
  }

  /** The events of some transactions, in order. */
  function EventsOf(txs: seq<Tx>): seq<Event> {
    if txs == [] then [] else EventsOf(txs[..|txs| - 1]) + txs[|txs| - 1].events
  }

  lemma {:induction false} ReplayMembers(db: Db, txs: seq<Tx>)
    requires forall tx :: tx in txs ==> tx.failAt.None?
    ensures |Replay(db, txs).members| == |db.members|
    ensures forall i :: 0 <= i < |db.members| ==> Replay(db, txs).members[i] == MemberEvents(db.members[i], EventsOf(txs))
  {
    if txs != [] {
      var init, tx := txs[..|txs| - 1], txs[|txs| - 1];
      ReplayMembers(db, init);
      assert tx in txs;
      ApplyAllMembers(Replay(db, init), AllWrites(tx.hash, tx.events));
      forall i | 0 <= i < |db.members| ensures Replay(db, txs).members[i] == MemberEvents(db.members[i], EventsOf(txs)) {
        TxOnMember(MemberEvents(db.members[i], EventsOf(init)), tx.hash, tx.events);
        MemberEventsConcat(db.members[i], EventsOf(init), tx.events);
      }
    }
  }

  lemma PaidSnoc(m: Member, es: seq<Event>, e: Event)
    ensures PaidSinceRound(m, es + [e]) <==> PaysFor(e, m) || (PaidSinceRound(m, es) && !Completes(e, m))
  {
    var all, n := es + [e], |es|;
    forall i | 0 <= i < n ensures PaidAt(m, all, i) <==> PaidAt(m, es, i) && !Completes(e, m) {
      assert all[n] == e && all[i] == es[i];
      assert forall j :: i < j < n ==> all[j] == es[j];
    }
    assert PaidAt(m, all, n) <==> PaysFor(e, m);
    assert forall i :: 0 <= i < n ==> all[i] == es[i];
    assert all[n] == e;
  }

  lemma NamedSnoc(m: Member, es: seq<Event>, e: Event)
    ensures EverNamed(m, es + [e]) <==> EverNamed(m, es) || Names(e, m)
  {
    var all := es + [e];
    assert all[|es|] == e && forall i :: 0 <= i < |es| ==> all[i] == es[i];
  }

  lemma {:induction false} EventsOnMember(m: Member, es: seq<Event>)
    ensures MemberEvents(m, es) == m.(hasPaid := PaidSinceRound(m, es), hasReceived := m.hasReceived || EverNamed(m, es))
  {
    if es != [] {
      var init, e := es[..|es| - 1], es[|es| - 1];
      EventsOnMember(m, init);
      PaidSnoc(m, init, e);
      NamedSnoc(m, init, e);
      assert es == init + [e];
    }
  }

  /**
   When no handler fails, a member counts as paid exactly when a contribution of theirs was applied after
   the group's last completed round, and as having received the payout exactly when a round named them.
   */
  lemma FlagsMeanEvents(s: State, polls: seq<seq<Tx>>, k: nat)
    requires k < |s.db.members| && forall tx :: tx in Run(s, polls).applied ==> tx.failAt.None?
    ensures |s.applied| <= |Run(s, polls).applied| && |Run(s, polls).db.members| == |s.db.members|
    ensures var es := EventsOf(Run(s, polls).applied[|s.applied|..]);
            var m := s.db.members[k];
            Run(s, polls).db.members[k] == m.(hasPaid := PaidSinceRound(m, es), hasReceived := m.hasReceived || EverNamed(m, es))
  {
    RunReplays(s, polls);
    var txs := Run(s, polls).applied[|s.applied|..];
    ReplayMembers(s.db, txs);
    EventsOnMember(s.db.members[k], EventsOf(txs));
  }

  // ---------------------------------------------------------------- completeness over a ledger-ordered chain

  /** The contract's transactions as the chain has them: in ledger order, with different hashes. */
  ghost predicate Chain(chain: seq<Tx>) {
    && (forall i :: 0 <= i < |chain| ==> chain[i].ledger > 0 && chain[i].hash != "")
    && (forall i, j :: 0 <= i < j < |chain| ==> chain[i].ledger <= chain[j].ledger && chain[i].hash != chain[j].hash)
  }

  /** Exactly the successful transactions up to the checkpoint have been applied. */
  ghost predicate CaughtUpAt(s: State, tx: Tx) {
    && (tx.hash in s.processed <==> tx.ledger <= s.checkpoint)
    && (tx in s.applied <==> tx.successful && tx.ledger <= s.checkpoint)
  }

  ghost predicate CaughtUp(s: State, chain: seq<Tx>) {
    forall i :: 0 <= i < |chain| ==> CaughtUpAt(s, chain[i])
  }

  /** A page: part of the chain that begins nowhere after the first transaction past the checkpoint. */
  ghost predicate Page(chain: seq<Tx>, checkpoint: int, lo: nat, hi: nat) {
    lo <= hi <= |chain| && forall i :: 0 <= i < lo ==> chain[i].ledger <= checkpoint
  }

  /** The page does not end inside a ledger. */
  ghost predicate WholeLedgers(chain: seq<Tx>, checkpoint: int, hi: nat)
    requires hi <= |chain|
  {
    0 < hi < |chain| && chain[hi - 1].ledger > checkpoint ==> chain[hi - 1].ledger < chain[hi].ledger
  }

  /** The state once the page's transactions before index `k` are handled. */
  ghost predicate HandledUpTo(s: State, t: State, chain: seq<Tx>, lo: nat, k: nat)
    requires k <= |chain|
  {
    && t.checkpoint == PageCheckpoint(chain, s.checkpoint, lo, k)
    && forall i :: 0 <= i < |chain| ==> HandledAt(s, t, chain, k, i)
  }

  ghost predicate HandledAt(s: State, t: State, chain: seq<Tx>, k: nat, i: nat)
    requires i < |chain|
  {
    && (chain[i].hash in t.processed <==> chain[i].ledger <= s.checkpoint || i < k)
    && (chain[i] in t.applied <==> chain[i].successful && (chain[i].ledger <= s.checkpoint || i < k))
  }

  lemma PageBegins(s: State, chain: seq<Tx>, lo: nat)
    requires Chain(chain) && CaughtUp(s, chain) && Page(chain, s.checkpoint, lo, lo)
    ensures HandledUpTo(s, s, chain, lo, lo)
  {
    forall i | 0 <= i < |chain| ensures HandledAt(s, s, chain, lo, i) {
      assert CaughtUpAt(s, chain[i]);
    }
  }

  /** What handling one more transaction of the page does to any transaction of the chain. */
  lemma HandledNext(s: State, p: State, chain: seq<Tx>, k: nat, i: nat)
    requires Chain(chain) && k < |chain| && i < |chain|
    requires HandledAt(s, p, chain, k, i) && HandledAt(s, p, chain, k, k)
    ensures HandledAt(s, Handle(p, s.checkpoint, chain[k]), chain, k + 1, i)
  {
    assert i != k ==> chain[i].hash != chain[k].hash;
  }

  function PageCheckpoint(chain: seq<Tx>, start: int, lo: nat, k: nat): int
    requires k <= |chain|
  {
    if lo < k && chain[k - 1].ledger > start then chain[k - 1].ledger else start
  }

  lemma PageCheckpointStep(s: State, p: State, chain: seq<Tx>, lo: nat, k: nat)
    requires Chain(chain) && lo <= k < |chain| && p.checkpoint == PageCheckpoint(chain, s.checkpoint, lo, k)
    ensures Handle(p, s.checkpoint, chain[k]).checkpoint == PageCheckpoint(chain, s.checkpoint, lo, k + 1)
  {
    assert chain[k].ledger > 0;
    assert k > lo ==> chain[k - 1].ledger <= chain[k].ledger;
  }

  lemma PageStep(s: State, p: State, chain: seq<Tx>, lo: nat, k: nat)
    requires Chain(chain) && lo <= k < |chain| && Page(chain, s.checkpoint, lo, k) && HandledUpTo(s, p, chain, lo, k)
    ensures HandledUpTo(s, Handle(p, s.checkpoint, chain[k]), chain, lo, k + 1)
  {
    var t, next := Handle(p, s.checkpoint, chain[k]), k + 1;
    PageCheckpointStep(s, p, chain, lo, k);
    assert HandledAt(s, p, chain, k, k);
    forall i | 0 <= i < |chain| ensures HandledAt(s, t, chain, next, i) {
      assert HandledAt(s, p, chain, k, i);
      HandledNext(s, p, chain, k, i);
    }
  }

  lemma PollNext(s: State, last: int, chain: seq<Tx>, lo: nat, k: nat)
    requires lo <= k < |chain|
    ensures PollFrom(s, last, chain[lo..k + 1]) == Handle(PollFrom(s, last, chain[lo..k]), last, chain[k])
  {
    assert chain[lo..k + 1][..k - lo] == chain[lo..k];
  }

  lemma {:induction false} PageHandled(s: State, chain: seq<Tx>, lo: nat, k: nat)
    requires Chain(chain) && CaughtUp(s, chain) && Page(chain, s.checkpoint, lo, k)
    ensures HandledUpTo(s, PollFrom(s, s.checkpoint, chain[lo..k]), chain, lo, k)
    decreases k
  {
    if k > lo {
      PageHandled(s, chain, lo, k - 1);
      PollNext(s, s.checkpoint, chain, lo, k - 1);
      PageStep(s, PollFrom(s, s.checkpoint, chain[lo..k - 1]), chain, lo, k - 1);
    } else {
      PageBegins(s, chain, lo);
      assert chain[lo..k] == [];
    }
  }

  /** A poll keeps the poller caught up exactly when its page does not end inside a ledger. */
  lemma CaughtUpIffWholeLedgers(s: State, chain: seq<Tx>, lo: nat, hi: nat)
    requires Chain(chain) && CaughtUp(s, chain) && Page(chain, s.checkpoint, lo, hi)
    ensures CaughtUp(Poll(s, chain[lo..hi]), chain) <==> WholeLedgers(chain, s.checkpoint, hi)
  {
    PageHandled(s, chain, lo, hi);
    var t := Poll(s, chain[lo..hi]);
    if WholeLedgers(chain, s.checkpoint, hi) {
      forall i | 0 <= i < |chain| ensures CaughtUpAt(t, chain[i]) {
        assert HandledAt(s, t, chain, hi, i);
      }
    } else {
      assert HandledAt(s, t, chain, hi, hi);
      assert !CaughtUpAt(t, chain[hi]);
    }
  }

  /** A transaction split off by a page end is never applied by any later poll. */
  lemma SplitLedgerIsLost(s: State, chain: seq<Tx>, lo: nat, hi: nat, later: seq<seq<Tx>>)
    requires Invariant(s) && Chain(chain) && CaughtUp(s, chain) && Page(chain, s.checkpoint, lo, hi)
    requires !WholeLedgers(chain, s.checkpoint, hi)
    ensures chain[hi] !in Run(Poll(s, chain[lo..hi]), later).applied
  {
    var t := Poll(s, chain[lo..hi]);
    PageHandled(s, chain, lo, hi);
    assert HandledAt(s, t, chain, hi, hi);
    PollFromKeeps(s, s.checkpoint, chain[lo..hi]);
    RunKeeps(t, later);
  }

  /** Polls by pages of the chain, each given by where it begins and ends, none ending inside a ledger. */
  ghost predicate WholePages(s: State, chain: seq<Tx>, pages: seq<(nat, nat)>) {
    pages == [] ||
    var n := |pages| - 1;
    && WholePages(s, chain, pages[..n])
    && Page(chain, RunPages(s, chain, pages[..n]).checkpoint, pages[n].0, pages[n].1)
    && WholeLedgers(chain, RunPages(s, chain, pages[..n]).checkpoint, pages[n].1)
  }

  ghost function RunPages(s: State, chain: seq<Tx>, pages: seq<(nat, nat)>): State {
    if pages == [] then s
    else
      var p := pages[|pages| - 1];
      Poll(RunPages(s, chain, pages[..|pages| - 1]), if p.0 <= p.1 <= |chain| then chain[p.0..p.1] else [])
  }

  /** Then every successful transaction up to the checkpoint is applied exactly once, and no other. */
  lemma {:induction false} ExactlyOnce(s: State, chain: seq<Tx>, pages: seq<(nat, nat)>)
    requires Invariant(s) && Chain(chain) && CaughtUp(s, chain) && WholePages(s, chain, pages)
    ensures Invariant(RunPages(s, chain, pages)) && CaughtUp(RunPages(s, chain, pages), chain)
    ensures forall i, j :: 0 <= i < j < |RunPages(s, chain, pages).applied| && RunPages(s, chain, pages).applied[i] in chain ==>
              RunPages(s, chain, pages).applied[i] != RunPages(s, chain, pages).applied[j]
  {
    if pages != [] {
      var before := RunPages(s, chain, pages[..|pages| - 1]);
      var p := pages[|pages| - 1];
      ExactlyOnce(s, chain, pages[..|pages| - 1]);
      CaughtUpIffWholeLedgers(before, chain, p.0, p.1);
      PollFromKeeps(before, before.checkpoint, chain[p.0..p.1]);
    }
  }
}
