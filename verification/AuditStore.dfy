/**
 The audit tables: the backfill that turns existing rows into a chain, and the write-once anchors
 that record and later check the head of a chain.
 */
module AuditStore {
  import opened AuditChain
  import opened HashChain
  import opened JsNumber
  import opened JsText
  import opened Wrappers

  /** The columns the migration adds; they are written together. */
  datatype Link = Link(hash: Text, prevHash: Text, chainId: Text, chainPartition: Text, chainVersion: Number)

  /** A row of `audit_logs`; `instant` is the time the database orders by. */
  datatype AuditLog = AuditLog(instant: int, content: Content, link: Option<Link>, anchorReference: Option<Text>)

  /** A row of `audit_anchors`. */
  datatype Anchor = Anchor(id: Text, chainId: Text, chainPartition: Text, chainHeadHash: Text)

  datatype AnchorResult = Anchored(anchor: Anchor) | NoChain | NoHead

  /** `Unresolved` when no chain is given and there is no global one. */
  datatype Verification = Unresolved | Verification(ok: bool, expectedHeadHash: Option<Text>, anchorChainHeadHash: Option<Text>)

  const GLOBAL: Text := Ascii("GLOBAL")

  /** Rows in the order the queries ask for: by time, then by id, each id once. */
  ghost predicate InQueryOrder(logs: seq<AuditLog>) {
    forall i, j :: 0 <= i < j < |logs| ==>
      || logs[i].instant < logs[j].instant
      || (logs[i].instant == logs[j].instant && AtMost(logs[i].content.id, logs[j].content.id)
          && logs[i].content.id != logs[j].content.id)
  }

  ghost predicate ValidTable(logs: seq<AuditLog>) {
    InQueryOrder(logs) && forall i :: 0 <= i < |logs| ==> WellFormedContent(logs[i].content)
  }

  // ---------------------------------------------------------------- queries

  predicate InChain(log: AuditLog, chainId: Text, partition: Text) {
    log.link.Some? && log.link.value.chainId == chainId && log.link.value.chainPartition == partition
  }

  function LinkOf(log: AuditLog): ChainLink
    requires log.link.Some?
  {
    var l := log.link.value;
    ChainLink(ChainRow(log.content, l.prevHash, l.chainId, l.chainPartition, l.chainVersion), l.hash)
  }

  /** The rows of one chain, oldest first. */
  function ChainOf(logs: seq<AuditLog>, chainId: Text, partition: Text): seq<ChainLink> {
    if logs == [] then []
    else
      var last := logs[|logs| - 1];
      ChainOf(logs[..|logs| - 1], chainId, partition) + (if InChain(last, chainId, partition) then [LinkOf(last)] else [])
  }

  /** Position of the newest row of one chain. */
  function HeadIndex(logs: seq<AuditLog>, chainId: Text, partition: Text): (r: Option<nat>)
    ensures r.Some? ==> r.value < |logs| && InChain(logs[r.value], chainId, partition)
    ensures r.Some? ==> forall j :: r.value < j < |logs| ==> !InChain(logs[j], chainId, partition)
    ensures r.None? ==> forall j :: 0 <= j < |logs| ==> !InChain(logs[j], chainId, partition)
  {
    if logs == [] then None
    else if InChain(logs[|logs| - 1], chainId, partition) then Some(|logs| - 1)
    else HeadIndex(logs[..|logs| - 1], chainId, partition)
  }

  predicate OfChain(anchor: Anchor, chainId: Text, partition: Text) {
    anchor.chainId == chainId && anchor.chainPartition == partition
  }

  /** The anchor at k is of the chain, and no later one is. */
  ghost predicate NewestAt(anchors: seq<Anchor>, k: nat, chainId: Text, partition: Text) {
    && k < |anchors| && OfChain(anchors[k], chainId, partition)
    && forall j :: k < j < |anchors| ==> !OfChain(anchors[j], chainId, partition)
  }

  /** The newest anchor of one chain. */
  function LatestAnchor(anchors: seq<Anchor>, chainId: Text, partition: Text): (r: Option<Anchor>)
    ensures r.Some? ==> exists k: nat :: NewestAt(anchors, k, chainId, partition) && anchors[k] == r.value
    ensures r.None? ==> forall k :: 0 <= k < |anchors| ==> !OfChain(anchors[k], chainId, partition)
  {
    if anchors == [] then None
    else
      var last := anchors[|anchors| - 1];
      if OfChain(last, chainId, partition) then
        assert NewestAt(anchors, |anchors| - 1, chainId, partition);
        Some(last)
      else
        assert forall k: nat :: NewestAt(anchors[..|anchors| - 1], k, chainId, partition) ==> NewestAt(anchors, k, chainId, partition);
        LatestAnchor(anchors[..|anchors| - 1], chainId, partition)
  }

  /** The row at k is not linked, or is in the GLOBAL partition, and no older row is. */
  ghost predicate OldestGlobalAt(logs: seq<AuditLog>, k: nat) {
    && k < |logs| && (logs[k].link.Some? ==> logs[k].link.value.chainPartition == GLOBAL)
    && forall j :: 0 <= j < k ==> logs[j].link.Some? && logs[j].link.value.chainPartition != GLOBAL
  }

  /** The partition column says GLOBAL until a row is linked. */
  predicate MaybeGlobal(log: AuditLog) {
    log.link.None? || log.link.value.chainPartition == GLOBAL
  }

  /** `resolveGlobalChainId`: the chain of the oldest row of the GLOBAL partition, if it has one. */
  function GlobalChainId(logs: seq<AuditLog>): (r: Option<Text>)
    ensures r.Some? ==> r.value != [] && exists k: nat :: OldestGlobalAt(logs, k) && logs[k].link.Some? && logs[k].link.value.chainId == r.value
    ensures r.None? ==> forall k: nat :: OldestGlobalAt(logs, k) ==> logs[k].link.None? || logs[k].link.value.chainId == []
  {
    if logs == [] then None
    else if MaybeGlobal(logs[0]) then
      assert forall k: nat :: OldestGlobalAt(logs, k) <==> k == 0;
      if logs[0].link.None? || logs[0].link.value.chainId == [] then None else Some(logs[0].link.value.chainId)
    else
      OldestGlobalStep(logs);
      GlobalChainId(logs[1..])
  }

  lemma OldestGlobalStep(logs: seq<AuditLog>)
    requires logs != [] && !MaybeGlobal(logs[0])
    ensures forall k: nat :: OldestGlobalAt(logs, k) ==> k > 0 && OldestGlobalAt(logs[1..], k - 1) && logs[1..][k - 1] == logs[k]
    ensures forall k: nat :: OldestGlobalAt(logs[1..], k) ==> OldestGlobalAt(logs, k + 1) && logs[k + 1] == logs[1..][k]
  {
    forall k: nat | OldestGlobalAt(logs, k) ensures k > 0 && OldestGlobalAt(logs[1..], k - 1) && logs[1..][k - 1] == logs[k] {
      forall j | 0 <= j < k - 1 ensures logs[1..][j].link.Some? && logs[1..][j].link.value.chainPartition != GLOBAL {
        assert logs[1..][j] == logs[j + 1];
      }
    }
    forall k: nat | OldestGlobalAt(logs[1..], k) ensures OldestGlobalAt(logs, k + 1) && logs[k + 1] == logs[1..][k] {
      forall j | 0 <= j < k + 1 ensures logs[j].link.Some? && logs[j].link.value.chainPartition != GLOBAL {
        assert j > 0 ==> logs[1..][j - 1] == logs[j];
      }
    }
  }

  /** The chain that is asked for, or the global one. */
  function Resolve(logs: seq<AuditLog>, chainId: Option<Text>): Option<Text> {
    if chainId.Some? then chainId else GlobalChainId(logs)
  }

  /** The newest anchor of a chain names the hash of the chain's last row. */
  ghost predicate Verified(logs: seq<AuditLog>, anchors: seq<Anchor>, chainId: Text, partition: Text) {
    var chain := ChainOf(logs, chainId, partition);
    && chain != [] && chain[|chain| - 1].hash != []
    && exists k: nat :: NewestAt(anchors, k, chainId, partition) && anchors[k].chainHeadHash == chain[|chain| - 1].hash
  }

  /** The head query returns the last row of the chain. */
  lemma {:induction false} HeadIsLast(logs: seq<AuditLog>, chainId: Text, partition: Text)
    ensures HeadIndex(logs, chainId, partition).None? <==> ChainOf(logs, chainId, partition) == []
    ensures HeadIndex(logs, chainId, partition).Some? ==>
              var c := ChainOf(logs, chainId, partition);
              c[|c| - 1] == LinkOf(logs[HeadIndex(logs, chainId, partition).value])
  {
    if logs != [] && !InChain(logs[|logs| - 1], chainId, partition) {
      HeadIsLast(logs[..|logs| - 1], chainId, partition);
    }
  }

  lemma {:induction false} WholeTableChain(logs: seq<AuditLog>, chainId: Text, partition: Text)
    requires forall i :: 0 <= i < |logs| ==> InChain(logs[i], chainId, partition)
    ensures |ChainOf(logs, chainId, partition)| == |logs|
    ensures forall i :: 0 <= i < |logs| ==>
              InChain(logs[i], chainId, partition) && ChainOf(logs, chainId, partition)[i] == LinkOf(logs[i])
  {
    if logs != [] {
      WholeTableChain(logs[..|logs| - 1], chainId, partition);
    }
  }

  /** The row is linked, into the chain of this id and partition, and reads as the link says. */
  ghost predicate LinkedAs(log: AuditLog, chainId: Text, partition: Text, l: ChainLink) {
    && log.link.Some? && log.link.value.chainId == chainId && log.link.value.chainPartition == partition
    && l == ChainLink(ChainRow(log.content, log.link.value.prevHash, chainId, partition, log.link.value.chainVersion), log.link.value.hash)
  }

  /** The positions of a chain's rows in the table, oldest first. */
  function Positions(logs: seq<AuditLog>, chainId: Text, partition: Text): seq<nat> {
    if logs == [] then []
    else Positions(logs[..|logs| - 1], chainId, partition) + (if InChain(logs[|logs| - 1], chainId, partition) then [|logs| - 1] else [])
  }

  /** A chain is exactly the table's rows of that id and partition, in table order. */
  lemma {:induction false} ChainIsSelection(logs: seq<AuditLog>, chainId: Text, partition: Text)
    ensures var ps, chain := Positions(logs, chainId, partition), ChainOf(logs, chainId, partition);
            && |ps| == |chain|
            && (forall i :: 0 <= i < |ps| ==> ps[i] < |logs| && LinkedAs(logs[ps[i]], chainId, partition, chain[i]))
            && (forall i, j :: 0 <= i < j < |ps| ==> ps[i] < ps[j])
            && (forall k :: 0 <= k < |logs| && logs[k].link.Some? && logs[k].link.value.chainId == chainId && logs[k].link.value.chainPartition == partition ==>
                  k in ps)
  {
    if logs != [] { ChainIsSelection(logs[..|logs| - 1], chainId, partition); }
  }

  /** The chain sees neither anchor references nor times. */
  lemma {:induction false} ChainIgnoresAnchors(logs: seq<AuditLog>, logs': seq<AuditLog>, chainId: Text, partition: Text)
    requires |logs| == |logs'|
    requires forall i :: 0 <= i < |logs| ==> logs[i].content == logs'[i].content && logs[i].link == logs'[i].link
    ensures ChainOf(logs, chainId, partition) == ChainOf(logs', chainId, partition)
  {
    if logs != [] {
      ChainIgnoresAnchors(logs[..|logs| - 1], logs'[..|logs| - 1], chainId, partition);
    }
  }

  // ---------------------------------------------------------------- backfill

  /** The defaults the migration fills in before it serialises a row. */
  function WithDefaults(c: Content): Content {
    c.(metadata := OrEmptyObject(c.metadata), requestPayload := OrEmptyObject(c.requestPayload))
  }

  /** The migration hashes the defaulted row, the service the stored one: the text is the same. */
  lemma DefaultsKeepPayload(r: ChainRow)
    ensures ChainPayload(r.(content := WithDefaults(r.content))) == ChainPayload(r)
  {
  }

  /** What linking leaves alone. */
  ghost predicate OnlyLinked(before: AuditLog, after: AuditLog) {
    after == before.(link := after.link)
  }

  /** What the backfill has to write into row i. */
  ghost predicate BackfilledAt(sha256: Text -> Text, logs: seq<AuditLog>, chainId: Text, i: nat)
    requires i < |logs|
  {
    && InChain(logs[i], chainId, GLOBAL)
    && logs[i].link.value.chainVersion == ONE
    && logs[i].link.value.hash == RowHash(sha256, LinkOf(logs[i]).row)
    && logs[i].link.value.prevHash ==
         (if i == 0 then [] else if logs[i - 1].link.Some? then logs[i - 1].link.value.hash else [])
  }

  /** The whole table linked into one chain, and nothing else changed. */
  ghost predicate Backfilled(sha256: Text -> Text, before: seq<AuditLog>, after: seq<AuditLog>, chainId: Text) {
    && |after| == |before|
    && (forall i :: 0 <= i < |after| ==> OnlyLinked(before[i], after[i]))
    && (forall i :: 0 <= i < |after| ==> BackfilledAt(sha256, after, chainId, i))
  }

  lemma BackfillStep(sha256: Text -> Text, logs: seq<AuditLog>, after: seq<AuditLog>, chainId: Text, i: nat)
    requires i < |logs| && forall j :: 0 <= j < i ==> BackfilledAt(sha256, logs, chainId, j)
    requires |after| == |logs| && after == logs[i := after[i]] && BackfilledAt(sha256, after, chainId, i)
    ensures forall j :: 0 <= j <= i ==> BackfilledAt(sha256, after, chainId, j)
  {
    forall j | 0 <= j < i ensures BackfilledAt(sha256, after, chainId, j) {
      assert BackfilledAt(sha256, logs, chainId, j);
    }
  }

  lemma LinkingKeepsTable(before: seq<AuditLog>, after: seq<AuditLog>)
    requires ValidTable(before)
    requires |after| == |before| && forall i :: 0 <= i < |after| ==> OnlyLinked(before[i], after[i])
    ensures ValidTable(after)
  {
  }

  lemma BackfilledIsValid(sha256: Text -> Text, logs: seq<AuditLog>, chainId: Text)
    requires forall i :: 0 <= i < |logs| ==> WellFormedContent(logs[i].content)
    requires forall i :: 0 <= i < |logs| ==> BackfilledAt(sha256, logs, chainId, i)
    ensures |ChainOf(logs, chainId, GLOBAL)| == |logs|
    ensures ValidChain(sha256, ChainOf(logs, chainId, GLOBAL))
  {
    var chain := ChainOf(logs, chainId, GLOBAL);
    forall i | 0 <= i < |logs| ensures InChain(logs[i], chainId, GLOBAL) {
      assert BackfilledAt(sha256, logs, chainId, i);
    }
    WholeTableChain(logs, chainId, GLOBAL);
    forall i | 0 <= i < |chain| ensures ValidAt(sha256, chain, i) {
      assert BackfilledAt(sha256, logs, chainId, i);
      assert i > 0 ==> BackfilledAt(sha256, logs, chainId, i - 1);
      assert DropMinusZero(ONE) == ONE;
    }
  }

  /** The table with an anchor reference on the newest row of one chain. */
  function Stamped(logs: seq<AuditLog>, chainId: Text, partition: Text, reference: Text): seq<AuditLog> {
    var head := HeadIndex(logs, chainId, partition);
    if head.None? then logs else logs[head.value := logs[head.value].(anchorReference := Some(reference))]
  }

  /** Stamping writes the reference into the chain's last row and leaves all other rows alone. */
  lemma StampMarksLastRow(logs: seq<AuditLog>, chainId: Text, partition: Text, reference: Text, k: nat)
    requires k < |logs|
    ensures var t := Stamped(logs, chainId, partition, reference);
            && |t| == |logs|
            && t[k] == if InChain(logs[k], chainId, partition) && forall j :: k < j < |logs| ==> !InChain(logs[j], chainId, partition)
                       then logs[k].(anchorReference := Some(reference)) else logs[k]
  {
  }

  lemma StampKeepsTable(logs: seq<AuditLog>, chainId: Text, partition: Text, reference: Text)
    requires ValidTable(logs)
    ensures ValidTable(Stamped(logs, chainId, partition, reference))
  {
  }

  /** Stamping a row leaves every chain as it was: the reference is not part of what is hashed. */
  lemma StampKeepsChains(logs: seq<AuditLog>, chainId: Text, partition: Text, reference: Text, c: Text, p: Text)
    ensures ChainOf(Stamped(logs, chainId, partition, reference), c, p) == ChainOf(logs, c, p)
  {
    ChainIgnoresAnchors(Stamped(logs, chainId, partition, reference), logs, c, p);
  }

  class Store {
    var logs: seq<AuditLog>
    var anchors: seq<Anchor>

    /** The tables as the database guarantees them. */
    ghost predicate Valid()
      reads this
    {
      ValidTable(logs)
    }

    /** The migration: every row, oldest first, is hashed together with the hash before it. */
    method Backfill(sha256: Text -> Text, chainId: Text)
      requires Valid()
      modifies this`logs
      ensures Valid()
      ensures Backfilled(sha256, old(logs), logs, chainId)
      ensures |ChainOf(logs, chainId, GLOBAL)| == |logs|
      ensures ValidChain(sha256, ChainOf(logs, chainId, GLOBAL))
    {
      var rows := logs;
      var prevHash: Text := [];
      var i := 0;
      while i < |rows|
        invariant 0 <= i <= |rows| == |logs|
        invariant forall j :: 0 <= j < |rows| ==> OnlyLinked(rows[j], logs[j])
        invariant forall j :: 0 <= j < i ==> BackfilledAt(sha256, logs, chainId, j)
        invariant prevHash == (if i == 0 then [] else if logs[i - 1].link.Some? then logs[i - 1].link.value.hash else [])
      {
        var row := ChainRow(WithDefaults(rows[i].content), prevHash, chainId, GLOBAL, ONE);
        var hash := sha256(ChainPayload(row));
        DefaultsKeepPayload(row.(content := rows[i].content));
        ghost var before := logs;
        logs := logs[i := logs[i].(link := Some(Link(hash, prevHash, chainId, GLOBAL, ONE)))];
        BackfillStep(sha256, before, logs, chainId, i);
        prevHash := hash;
        i := i + 1;
      }
      LinkingKeepsTable(rows, logs);
      BackfilledIsValid(sha256, logs, chainId);
    }

    /** Appends the hash of the chain's newest row to the anchors and stamps that row. */
    method AnchorCurrentChainHead(chainId: Option<Text>, partition: Text, newId: Text) returns (r: AnchorResult)
      requires Valid()
      modifies this
      ensures Valid()
      ensures r.NoChain? <==> Resolve(old(logs), chainId).None?
      ensures chainId.Some? ==> !r.NoChain? && (r.Anchored? ==> r.anchor.chainId == chainId.value)
      ensures r.NoHead? ==>
                var cid := Resolve(old(logs), chainId).value;
                var chain := ChainOf(old(logs), cid, partition);
                chain == [] || chain[|chain| - 1].hash == []
      ensures !r.Anchored? ==> logs == old(logs) && anchors == old(anchors)
      ensures r.Anchored? ==>
                var cid := Resolve(old(logs), chainId).value;
                var chain := ChainOf(old(logs), cid, partition);
                && anchors == old(anchors) + [r.anchor]
                && chain != [] && r.anchor == Anchor(newId, cid, partition, chain[|chain| - 1].hash)
                && logs == Stamped(old(logs), cid, partition, newId)
    {
      var cid := Resolve(logs, chainId);
      if cid.None? {
        return NoChain;
      }
      var head := HeadIndex(logs, cid.value, partition);
      HeadIsLast(logs, cid.value, partition);
      if head.None? || logs[head.value].link.value.hash == [] {
        return NoHead;
      }
      var k := head.value;
      var anchor := Anchor(newId, cid.value, partition, logs[k].link.value.hash);
      anchors := anchors + [anchor];
      StampKeepsTable(logs, cid.value, partition, anchor.id);
      logs := logs[k := logs[k].(anchorReference := Some(anchor.id))];
      r := Anchored(anchor);
    }

    /** Compares the newest anchor of a chain with the newest row's hash. */
    method VerifyLatestAnchor(chainId: Option<Text>, partition: Text) returns (r: Verification)
      requires Valid()
      ensures r.Unresolved? <==> Resolve(logs, chainId).None?
      ensures chainId.Some? ==> r.Verification? && (r.ok <==> Verified(logs, anchors, chainId.value, partition))
      ensures r.Verification? ==> (r.ok <==> Verified(logs, anchors, Resolve(logs, chainId).value, partition))
      ensures r.Verification? ==> (r.ok <==> r.expectedHeadHash.Some? && r.expectedHeadHash == r.anchorChainHeadHash)
    {
      var resolved := Resolve(logs, chainId);
      if resolved.None? { return Unresolved; }
      var cid := resolved.value;
      var head := HeadIndex(logs, cid, partition);
      HeadIsLast(logs, cid, partition);
      if head.None? || logs[head.value].link.value.hash == [] {
        return Verification(false, None, None);
      }
      var hash := logs[head.value].link.value.hash;
      var latest := LatestAnchor(anchors, cid, partition);
      NewestUnique(anchors, cid, partition);
      if latest.None? {
        return Verification(false, Some(hash), None);
      }
      r := Verification(latest.value.chainHeadHash == hash, Some(hash), Some(latest.value.chainHeadHash));
    }
  }

  // ---------------------------------------------------------------- what an anchor is worth

  /** The anchor names the newest row of its chain: what anchoring records and verification checks. */
  ghost predicate IsHeadHash(logs: seq<AuditLog>, anchor: Anchor) {
    var chain := ChainOf(logs, anchor.chainId, anchor.chainPartition);
    chain != [] && chain[|chain| - 1].hash == anchor.chainHeadHash
  }

  /**
   An anchor taken over one state of the table and matching a later state fixes the whole chain
   between them, unless two of its payloads collide.
   */
  lemma AnchorFixesHistory(sha256: Text -> Text, before: seq<AuditLog>, after: seq<AuditLog>, anchor: Anchor)
    requires Digests64(sha256)
    requires ValidChain(sha256, ChainOf(before, anchor.chainId, anchor.chainPartition))
    requires ValidChain(sha256, ChainOf(after, anchor.chainId, anchor.chainPartition))
    requires IsHeadHash(before, anchor) && IsHeadHash(after, anchor)
    ensures SameHistoryOrCollision(sha256, ChainOf(before, anchor.chainId, anchor.chainPartition),
                                   ChainOf(after, anchor.chainId, anchor.chainPartition))
  {
    TamperEvidence(sha256, ChainOf(before, anchor.chainId, anchor.chainPartition),
                   ChainOf(after, anchor.chainId, anchor.chainPartition));
  }

  /** There is one newest anchor. */
  lemma NewestUnique(anchors: seq<Anchor>, chainId: Text, partition: Text)
    ensures forall k: nat, m: nat :: NewestAt(anchors, k, chainId, partition) && NewestAt(anchors, m, chainId, partition) ==> k == m
  {
  }

  /** Right after anchoring, a verification compares the last row with the anchor just appended, and with no other. */
  lemma AppendedAnchorDecides(logs: seq<AuditLog>, anchors: seq<Anchor>, anchor: Anchor)
    ensures var chain := ChainOf(logs, anchor.chainId, anchor.chainPartition);
            Verified(logs, anchors + [anchor], anchor.chainId, anchor.chainPartition) <==>
            chain != [] && chain[|chain| - 1].hash != [] && chain[|chain| - 1].hash == anchor.chainHeadHash
  {
    var all := anchors + [anchor];
    assert NewestAt(all, |anchors|, anchor.chainId, anchor.chainPartition);
    NewestUnique(all, anchor.chainId, anchor.chainPartition);
  }

  /** A chain that lost its newest rows after it was anchored does not verify, unless two payloads collide. */
  lemma CutChainFails(sha256: Text -> Text, logs: seq<AuditLog>, cut: seq<AuditLog>, anchors: seq<Anchor>, anchor: Anchor, m: nat)
    requires Digests64(sha256)
    requires var chain := ChainOf(logs, anchor.chainId, anchor.chainPartition);
             && ValidChain(sha256, chain) && m < |chain| && chain[|chain| - 1].hash == anchor.chainHeadHash
             && ChainOf(cut, anchor.chainId, anchor.chainPartition) == chain[..m]
    ensures var chain := ChainOf(logs, anchor.chainId, anchor.chainPartition);
            Verified(cut, anchors + [anchor], anchor.chainId, anchor.chainPartition) ==>
              FirstDifference(Nodes(chain[..m]), Nodes(chain)).Some? && SameHistoryOrCollision(sha256, chain[..m], chain)
  {
    var chain := ChainOf(logs, anchor.chainId, anchor.chainPartition);
    AppendedAnchorDecides(cut, anchors, anchor);
    if Verified(cut, anchors + [anchor], anchor.chainId, anchor.chainPartition) {
      PrefixValid(sha256, chain, m);
      TamperEvidence(sha256, chain[..m], chain);
      assert |chain[..m]| != |chain|;
    }
  }

  lemma PrefixValid(sha256: Text -> Text, chain: seq<ChainLink>, m: nat)
    requires ValidChain(sha256, chain) && m <= |chain|
    ensures ValidChain(sha256, chain[..m])
  {
    forall i | 0 <= i < m ensures ValidAt(sha256, chain[..m], i) {
      assert ValidAt(sha256, chain, i);
    }
  }

  /** A chain whose rows say, in order, what the rows of a table said. */
  ghost predicate SaysTheSame(original: seq<AuditLog>, chain: seq<ChainLink>) {
    |chain| == |original| && forall i :: 0 <= i < |chain| ==> SameContent(original[i].content, chain[i].row.content)
  }

  lemma BackfilledContents(sha256: Text -> Text, before: seq<AuditLog>, after: seq<AuditLog>, chainId: Text)
    requires Backfilled(sha256, before, after, chainId)
    ensures var chain := ChainOf(after, chainId, GLOBAL);
            |chain| == |before| && forall i :: 0 <= i < |chain| ==> chain[i].row.content == before[i].content
  {
    forall i | 0 <= i < |after| ensures InChain(after[i], chainId, GLOBAL) {
      assert BackfilledAt(sha256, after, chainId, i);
    }
    WholeTableChain(after, chainId, GLOBAL);
    forall i | 0 <= i < |after| ensures ChainOf(after, chainId, GLOBAL)[i].row.content == before[i].content {
      assert OnlyLinked(before[i], after[i]);
    }
  }

  lemma SameHistorySaysTheSame(original: seq<AuditLog>, chain: seq<ChainLink>, later: seq<ChainLink>)
    requires |chain| == |original| && forall i :: 0 <= i < |chain| ==> chain[i].row.content == original[i].content
    requires SameHistory(chain, later)
    ensures SaysTheSame(original, later)
  {
    forall i | 0 <= i < |later| ensures SameContent(original[i].content, later[i].row.content) {
      assert SameRow(chain[i].row, later[i].row);
    }
  }

  /** What anchoring the backfilled table leaves behind. */
  ghost predicate AnchoredAs(linked: seq<AuditLog>, chainId: Text, newId: Text, anchor: Anchor) {
    var chain := ChainOf(linked, chainId, GLOBAL);
    chain != [] && anchor == Anchor(newId, chainId, GLOBAL, chain[|chain| - 1].hash)
  }

  /**
   Backfill, anchor, and verify later: if the table was backfilled and its head anchored, and that
   anchor still is the newest, then any later table with a valid chain that verifies says exactly what
   the original table said, row by row, or two payloads with one digest are named.
   */
  lemma VerifiedTableIsOriginal(sha256: Text -> Text, original: seq<AuditLog>, linked: seq<AuditLog>, chainId: Text, newId: Text,
                                anchor: Anchor, later: seq<AuditLog>, anchors: seq<Anchor>)
    requires Digests64(sha256) && ValidTable(original)
    requires Backfilled(sha256, original, linked, chainId) && AnchoredAs(linked, chainId, newId, anchor)
    requires ValidChain(sha256, ChainOf(later, chainId, GLOBAL))
    requires (exists k: nat :: NewestAt(anchors, k, chainId, GLOBAL) && anchors[k] == anchor) && Verified(later, anchors, chainId, GLOBAL)
    ensures var before, after := ChainOf(Stamped(linked, chainId, GLOBAL, newId), chainId, GLOBAL), ChainOf(later, chainId, GLOBAL);
            && SameHistoryOrCollision(sha256, before, after)
            && (FirstDifference(Nodes(before), Nodes(after)).None? ==> SaysTheSame(original, after))
  {
    LinkingKeepsTable(original, linked);
    BackfilledIsValid(sha256, linked, chainId);
    StampKeepsChains(linked, chainId, GLOBAL, newId, chainId, GLOBAL);
    BackfilledContents(sha256, original, linked, chainId);
    var before, after := ChainOf(linked, chainId, GLOBAL), ChainOf(later, chainId, GLOBAL);
    NewestUnique(anchors, chainId, GLOBAL);
    TamperEvidence(sha256, before, after);
    if FirstDifference(Nodes(before), Nodes(after)).None? {
      SameHistorySaysTheSame(original, before, after);
    }
  }
}
