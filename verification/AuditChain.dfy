/**
 The hash chain over audit rows: the payload that is hashed, what a valid chain is, and the
 theorem that equal head hashes mean equal histories unless the hash function collides.
 The hash function is a parameter of every statement.
 */
module AuditChain {
  import opened HashChain
  import opened JsText
  import opened JsNumber
  import opened Json
  import opened StableJson
  import opened Wrappers

  /** What an audit row says, before it is linked into a chain. */
  datatype Content = Content(
    id: Text,
    userId: Option<Text>,
    action: Text,
    resource: Text,
    metadata: Json,
    timestamp: Text,
    ipAddress: Option<Text>,
    userAgent: Option<Text>,
    requestPayload: Json
  )

  /** The input of `computeRowHash`. */
  datatype ChainRow = ChainRow(
    content: Content,
    prevHash: Text,
    chainId: Text,
    chainPartition: Text,
    chainVersion: Number
  )

  ghost predicate WellFormedContent(c: Content) {
    WellFormed(c.metadata) && WellFormed(c.requestPayload)
  }

  /** Column types: JSON documents in the two JSON columns, an integer version. */
  ghost predicate WellFormedRow(r: ChainRow) {
    && WellFormedContent(r.content)
    && Denotable(Num(r.chainVersion))
  }

  // ---------------------------------------------------------------- the payload

  /** Text of an ASCII string constant. */
  function Ascii(s: string): Text {
    seq(|s|, i requires 0 <= i < |s| => if s[i] as int < 0x80 then s[i] as int else 0)
  }

  /** `v ?? {}` */
  function OrEmptyObject(v: Json): Json {
    if v.Null? || v.Undefined? then Obj([]) else v
  }

  function OrNull(t: Option<Text>): Json {
    if t.Some? then Str(t.value) else Null
  }

  /** The object literal that is serialised; the JSON columns enter it as strings. */
  function PayloadObject(r: ChainRow): Json {
    var c := r.content;
    Obj([
      Entry(Ascii("v"), Num(ONE)),
      Entry(Ascii("id"), Str(c.id)),
      Entry(Ascii("userId"), OrNull(c.userId)),
      Entry(Ascii("action"), Str(c.action)),
      Entry(Ascii("resource"), Str(c.resource)),
      Entry(Ascii("metadata"), Str(StableStringify(OrEmptyObject(c.metadata)))),
      Entry(Ascii("timestamp"), Str(c.timestamp)),
      Entry(Ascii("ipAddress"), OrNull(c.ipAddress)),
      Entry(Ascii("userAgent"), OrNull(c.userAgent)),
      Entry(Ascii("requestPayload"), Str(StableStringify(OrEmptyObject(c.requestPayload)))),
      Entry(Ascii("prevHash"), Str(r.prevHash)),
      Entry(Ascii("chainId"), Str(r.chainId)),
      Entry(Ascii("chainPartition"), Str(r.chainPartition)),
      Entry(Ascii("chainVersion"), Num(r.chainVersion))
    ])
  }

  /** `buildChainPayload` */
  function ChainPayload(r: ChainRow): Text {
    Stringify(PayloadObject(r))
  }

  /** `computeRowHash` */
  function RowHash(sha256: Text -> Text, r: ChainRow): Text {
    sha256(ChainPayload(r))
  }

  /** Same scalars, and JSON columns that agree up to key order and null versus `{}`. */
  ghost predicate SameContent(a: Content, b: Content) {
    && a == b.(metadata := a.metadata, requestPayload := a.requestPayload)
    && Equivalent(OrEmptyObject(a.metadata), OrEmptyObject(b.metadata))
    && Equivalent(OrEmptyObject(a.requestPayload), OrEmptyObject(b.requestPayload))
  }

  ghost predicate SameRow(a: ChainRow, b: ChainRow) {
    a == b.(content := a.content) && SameContent(a.content, b.content)
  }

  /** The object says the value under the key, once. */
  ghost predicate Says(v: Json, key: string, value: Json) {
    v.Obj? && exists i :: 0 <= i < |v.members| && v.members[i] == Entry(Ascii(key), value)
  }

  lemma SaysAt(v: Json, i: nat, key: string, value: Json)
    requires v.Obj? && i < |v.members| && v.members[i] == Entry(Ascii(key), value)
    ensures Says(v, key, value)
  {
  }

  lemma SaysTexts(r: ChainRow)
    ensures var v, c := PayloadObject(r), r.content;
            Says(v, "id", Str(c.id)) && Says(v, "action", Str(c.action)) && Says(v, "resource", Str(c.resource)) && Says(v, "timestamp", Str(c.timestamp))
  {
    SaysAt(PayloadObject(r), 1, "id", Str(r.content.id));
    SaysAt(PayloadObject(r), 3, "action", Str(r.content.action));
    SaysAt(PayloadObject(r), 4, "resource", Str(r.content.resource));
    SaysAt(PayloadObject(r), 6, "timestamp", Str(r.content.timestamp));
  }

  lemma SaysOptional(r: ChainRow)
    ensures var v, c := PayloadObject(r), r.content;
            && Says(v, "userId", if c.userId.Some? then Str(c.userId.value) else Null)
            && Says(v, "ipAddress", if c.ipAddress.Some? then Str(c.ipAddress.value) else Null)
            && Says(v, "userAgent", if c.userAgent.Some? then Str(c.userAgent.value) else Null)
  {
    SaysAt(PayloadObject(r), 2, "userId", OrNull(r.content.userId));
    SaysAt(PayloadObject(r), 7, "ipAddress", OrNull(r.content.ipAddress));
    SaysAt(PayloadObject(r), 8, "userAgent", OrNull(r.content.userAgent));
  }

  lemma SaysDocuments(r: ChainRow)
    ensures var v, m, p := PayloadObject(r), r.content.metadata, r.content.requestPayload;
            && Says(v, "metadata", Str(StableStringify(if m.Null? || m.Undefined? then Obj([]) else m)))
            && Says(v, "requestPayload", Str(StableStringify(if p.Null? || p.Undefined? then Obj([]) else p)))
  {
    SaysAt(PayloadObject(r), 5, "metadata", Str(StableStringify(OrEmptyObject(r.content.metadata))));
    SaysAt(PayloadObject(r), 9, "requestPayload", Str(StableStringify(OrEmptyObject(r.content.requestPayload))));
  }

  lemma SaysLink(r: ChainRow)
    ensures var v := PayloadObject(r);
            && Says(v, "v", Num(ONE)) && Says(v, "prevHash", Str(r.prevHash)) && Says(v, "chainId", Str(r.chainId))
            && Says(v, "chainPartition", Str(r.chainPartition)) && Says(v, "chainVersion", Num(r.chainVersion))
  {
    SaysAt(PayloadObject(r), 0, "v", Num(ONE));
    SaysAt(PayloadObject(r), 10, "prevHash", Str(r.prevHash));
    SaysAt(PayloadObject(r), 11, "chainId", Str(r.chainId));
    SaysAt(PayloadObject(r), 12, "chainPartition", Str(r.chainPartition));
    SaysAt(PayloadObject(r), 13, "chainVersion", Num(r.chainVersion));
  }

  lemma PayloadParses(r: ChainRow)
    requires WellFormedRow(r)
    ensures ParseValue(ChainPayload(r)) == Some((PayloadObject(r), []))
  {
    PayloadDenotable(r);
    StringifyRoundTrip(PayloadObject(r), []);
    assert ChainPayload(r) + [] == ChainPayload(r);
  }

  /** Each column is in the object under the column's own name. */
  ghost predicate SaysColumns(v: Json, r: ChainRow) {
    var c := r.content;
    && Says(v, "v", Num(ONE)) && Says(v, "id", Str(c.id)) && Says(v, "action", Str(c.action)) && Says(v, "resource", Str(c.resource))
    && Says(v, "userId", if c.userId.Some? then Str(c.userId.value) else Null)
    && Says(v, "ipAddress", if c.ipAddress.Some? then Str(c.ipAddress.value) else Null)
    && Says(v, "userAgent", if c.userAgent.Some? then Str(c.userAgent.value) else Null)
    && Says(v, "timestamp", Str(c.timestamp)) && Says(v, "prevHash", Str(r.prevHash)) && Says(v, "chainId", Str(r.chainId))
    && Says(v, "chainPartition", Str(r.chainPartition)) && Says(v, "chainVersion", Num(r.chainVersion))
    && Says(v, "metadata", Str(StableStringify(if c.metadata.Null? || c.metadata.Undefined? then Obj([]) else c.metadata)))
    && Says(v, "requestPayload",
            Str(StableStringify(if c.requestPayload.Null? || c.requestPayload.Undefined? then Obj([]) else c.requestPayload)))
  }

  /** The hashed text is a JSON object that has each column under the column's own name. */
  lemma PayloadSaysColumns(r: ChainRow)
    requires WellFormedRow(r)
    ensures ParseValue(ChainPayload(r)).Some? && ParseValue(ChainPayload(r)).value.1 == []
    ensures SaysColumns(ParseValue(ChainPayload(r)).value.0, r)
  {
    PayloadParses(r);
    SaysTexts(r);
    SaysOptional(r);
    SaysDocuments(r);
    SaysLink(r);
  }

  lemma PayloadDenotable(r: ChainRow)
    requires WellFormedRow(r)
    ensures Denotable(PayloadObject(r))
  {
    var ms := PayloadObject(r).members;
    assert DropMinusZero(ONE) == ONE && ValidNumber(ONE);
    forall i | 0 <= i < 14 ensures Denotable(ms[i].value) {
    }
  }

  lemma SamePayloadObject(a: ChainRow, b: ChainRow)
    requires WellFormedRow(a) && WellFormedRow(b)
    requires PayloadObject(a) == PayloadObject(b)
    ensures SameRow(a, b)
  {
    var ma, mb := PayloadObject(a).members, PayloadObject(b).members;
    assert forall i :: 0 <= i < 14 ==> ma[i].value == mb[i].value;
    assert ma[1] == mb[1] && ma[2] == mb[2] && ma[3] == mb[3] && ma[4] == mb[4] && ma[5] == mb[5];
    assert ma[6] == mb[6] && ma[7] == mb[7] && ma[8] == mb[8] && ma[9] == mb[9] && ma[10] == mb[10];
    assert ma[11] == mb[11] && ma[12] == mb[12] && ma[13] == mb[13];
    StableStringifyIffEquivalent(OrEmptyObject(a.content.metadata), OrEmptyObject(b.content.metadata));
    StableStringifyIffEquivalent(OrEmptyObject(a.content.requestPayload), OrEmptyObject(b.content.requestPayload));
  }

  /** The hashed text determines the row, up to the order of JSON keys; and the row the text. */
  lemma PayloadIffSameRow(a: ChainRow, b: ChainRow)
    requires WellFormedRow(a) && WellFormedRow(b)
    ensures ChainPayload(a) == ChainPayload(b) <==> SameRow(a, b)
  {
    if ChainPayload(a) == ChainPayload(b) {
      PayloadDenotable(a);
      PayloadDenotable(b);
      StringifyInjective(PayloadObject(a), PayloadObject(b));
      SamePayloadObject(a, b);
    }
    if SameRow(a, b) {
      StableStringifyIffEquivalent(OrEmptyObject(a.content.metadata), OrEmptyObject(b.content.metadata));
      StableStringifyIffEquivalent(OrEmptyObject(a.content.requestPayload), OrEmptyObject(b.content.requestPayload));
      assert PayloadObject(a) == PayloadObject(b);
    }
  }

  // ---------------------------------------------------------------- chains

  /** A row of the chain with the hash stored beside it. */
  datatype ChainLink = ChainLink(row: ChainRow, hash: Text)

  ghost predicate ValidAt(sha256: Text -> Text, chain: seq<ChainLink>, i: nat)
    requires i < |chain|
  {
    && WellFormedRow(chain[i].row)
    && chain[i].hash == RowHash(sha256, chain[i].row)
    && chain[i].row.prevHash == (if i == 0 then [] else chain[i - 1].hash)
  }

  ghost predicate ValidChain(sha256: Text -> Text, chain: seq<ChainLink>) {
    forall i :: 0 <= i < |chain| ==> ValidAt(sha256, chain, i)
  }

  ghost predicate SameHistory(a: seq<ChainLink>, b: seq<ChainLink>) {
    |a| == |b| && forall i :: 0 <= i < |a| ==> SameRow(a[i].row, b[i].row)
  }

  /** The chain as texts and digests. */
  function Nodes(chain: seq<ChainLink>): (ns: seq<Node>)
    ensures |ns| == |chain|
    ensures forall i :: 0 <= i < |ns| ==> ns[i].hash == chain[i].hash
  {
    seq(|chain|, i requires 0 <= i < |chain| => NodeOf(chain[i]))
  }

  function NodeOf(l: ChainLink): Node {
    Node(ChainPayload(l.row), l.row.prevHash, l.hash)
  }

  lemma NodeAt(chain: seq<ChainLink>, i: nat)
    requires i < |chain|
    ensures Nodes(chain)[i] == NodeOf(chain[i])
  {
  }

  lemma NodesLinked(sha256: Text -> Text, a: seq<ChainLink>)
    requires ValidChain(sha256, a)
    ensures Linked(sha256, Nodes(a))
  {
    forall i | 0 <= i < |a| ensures LinkedAt(sha256, Nodes(a), i) {
      assert ValidAt(sha256, a, i);
      NodeAt(a, i);
    }
  }

  lemma NodesNamePredecessor(sha256: Text -> Text, a: seq<ChainLink>, b: seq<ChainLink>)
    requires ValidChain(sha256, a) && ValidChain(sha256, b)
    ensures NamesPredecessor(Nodes(a), Nodes(b))
  {
    forall i, j | 0 <= i < |a| && 0 <= j < |b| && Nodes(a)[i].payload == Nodes(b)[j].payload
      ensures Nodes(a)[i].prevHash == Nodes(b)[j].prevHash
    {
      assert ValidAt(sha256, a, i) && ValidAt(sha256, b, j);
      NodeAt(a, i);
      NodeAt(b, j);
      PayloadIffSameRow(a[i].row, b[j].row);
    }
  }

  lemma SamePayloadsSameHistory(sha256: Text -> Text, a: seq<ChainLink>, b: seq<ChainLink>)
    requires ValidChain(sha256, a) && ValidChain(sha256, b)
    ensures SamePayloads(Nodes(a), Nodes(b)) <==> SameHistory(a, b)
  {
    if |a| == |b| {
      forall i | 0 <= i < |a|
        ensures Nodes(a)[i].payload == Nodes(b)[i].payload <==> SameRow(a[i].row, b[i].row)
      {
        assert ValidAt(sha256, a, i) && ValidAt(sha256, b, i);
        NodeAt(a, i);
        NodeAt(b, i);
        PayloadIffSameRow(a[i].row, b[i].row);
      }
    }
  }

  /** The same rows in the same order, or two payloads, one of each chain, with one digest. */
  ghost predicate SameHistoryOrCollision(sha256: Text -> Text, a: seq<ChainLink>, b: seq<ChainLink>) {
    match FirstDifference(Nodes(a), Nodes(b))
    case None => SameHistory(a, b)
    case Some((x, y)) => Collides(sha256, x, y) && Occurs(x, Nodes(a)) && Occurs(y, Nodes(b))
  }

  lemma WalkBackRows(sha256: Text -> Text, a: seq<ChainLink>, b: seq<ChainLink>)
    requires Digests64(sha256)
    requires ValidChain(sha256, a) && ValidChain(sha256, b)
    requires a != [] && b != [] && a[|a| - 1].hash == b[|b| - 1].hash
    ensures SameOrCollision(sha256, Nodes(a), Nodes(b))
  {
    NodesLinked(sha256, a);
    NodesLinked(sha256, b);
    NodesNamePredecessor(sha256, a, b);
    WalkBack(sha256, Nodes(a), Nodes(b));
  }

  /** Two valid chains of any length with the same head hash are the same history, or collide. */
  lemma TamperEvidence(sha256: Text -> Text, a: seq<ChainLink>, b: seq<ChainLink>)
    requires Digests64(sha256)
    requires ValidChain(sha256, a) && ValidChain(sha256, b)
    requires a != [] && b != [] && a[|a| - 1].hash == b[|b| - 1].hash
    ensures SameHistoryOrCollision(sha256, a, b)
  {
    WalkBackRows(sha256, a, b);
    SamePayloadsSameHistory(sha256, a, b);
  }

  /** The other direction: the same history has the same head hash. */
  lemma SameHistorySameHead(sha256: Text -> Text, a: seq<ChainLink>, b: seq<ChainLink>)
    requires ValidChain(sha256, a) && ValidChain(sha256, b)
    requires a != [] && SameHistory(a, b)
    ensures a[|a| - 1].hash == b[|b| - 1].hash
  {
    var m := |a| - 1;
    assert ValidAt(sha256, a, m) && ValidAt(sha256, b, m);
    PayloadIffSameRow(a[m].row, b[m].row);
  }
}
