/**
 Chains of hashed payloads, whatever the payloads say: the walk back from two equal heads.
 */
module HashChain {
  import opened JsText
  import opened Wrappers

  /** One link: the text that was hashed, the previous hash it names, and its digest. */
  datatype Node = Node(payload: Text, prevHash: Text, hash: Text)

  /** SHA-256 in hexadecimal: every digest has 64 characters. */
  ghost predicate Digests64(sha256: Text -> Text) {
    forall t :: |sha256(t)| == 64
  }

  ghost predicate LinkedAt(sha256: Text -> Text, ns: seq<Node>, i: nat)
    requires i < |ns|
  {
    && ns[i].hash == sha256(ns[i].payload)
    && ns[i].prevHash == (if i == 0 then [] else ns[i - 1].hash)
  }

  ghost predicate Linked(sha256: Text -> Text, ns: seq<Node>) {
    forall i :: 0 <= i < |ns| ==> LinkedAt(sha256, ns, i)
  }

  /** A payload names its predecessor: equal payloads have equal previous hashes. */
  ghost predicate NamesPredecessor(a: seq<Node>, b: seq<Node>) {
    forall i, j :: 0 <= i < |a| && 0 <= j < |b| && a[i].payload == b[j].payload ==> a[i].prevHash == b[j].prevHash
  }

  predicate Collides(sha256: Text -> Text, x: Text, y: Text) {
    x != y && sha256(x) == sha256(y)
  }

  ghost predicate SamePayloads(a: seq<Node>, b: seq<Node>) {
    |a| == |b| && forall i :: 0 <= i < |a| ==> a[i].payload == b[i].payload
  }

  /**
   Walks two chains back from their heads while the payloads agree, and returns the first pair of
   different payloads it meets before one of the chains ends.
   */
  function FirstDifference(a: seq<Node>, b: seq<Node>): Option<(Text, Text)> {
    if a == [] || b == [] then None
    else if a[|a| - 1].payload != b[|b| - 1].payload then Some((a[|a| - 1].payload, b[|b| - 1].payload))
    else FirstDifference(a[..|a| - 1], b[..|b| - 1])
  }

  ghost predicate Occurs(t: Text, ns: seq<Node>) {
    exists i :: 0 <= i < |ns| && ns[i].payload == t
  }

  lemma {:induction false} DifferenceOccurs(a: seq<Node>, b: seq<Node>)
    requires FirstDifference(a, b).Some?
    ensures Occurs(FirstDifference(a, b).value.0, a) && Occurs(FirstDifference(a, b).value.1, b)
  {
    var m, n := |a| - 1, |b| - 1;
    if a[m].payload == b[n].payload {
      DifferenceOccurs(a[..m], b[..n]);
      assert forall i :: 0 <= i < m ==> a[..m][i] == a[i];
      assert forall j :: 0 <= j < n ==> b[..n][j] == b[j];
    }
  }

  lemma PrefixLinked(sha256: Text -> Text, ns: seq<Node>)
    requires Linked(sha256, ns) && ns != []
    ensures Linked(sha256, ns[..|ns| - 1])
  {
    var p := ns[..|ns| - 1];
    forall i | 0 <= i < |p| ensures LinkedAt(sha256, p, i) {
      assert LinkedAt(sha256, ns, i);
    }
  }

  /** Heads with one payload either both start their chains or both follow the same hash. */
  lemma StepBack(sha256: Text -> Text, a: seq<Node>, b: seq<Node>)
    requires Digests64(sha256)
    requires Linked(sha256, a) && Linked(sha256, b) && NamesPredecessor(a, b)
    requires a != [] && b != [] && a[|a| - 1].payload == b[|b| - 1].payload
    ensures |a| == 1 <==> |b| == 1
    ensures |a| > 1 && |b| > 1 ==> a[|a| - 2].hash == b[|b| - 2].hash
  {
    var m, n := |a| - 1, |b| - 1;
    assert LinkedAt(sha256, a, m) && LinkedAt(sha256, b, n);
    assert m > 0 ==> LinkedAt(sha256, a, m - 1);
    assert n > 0 ==> LinkedAt(sha256, b, n - 1);
  }

  /** Equal heads: the same payloads throughout, or the walk ends at a collision. */
  lemma {:induction false} EqualHeads(sha256: Text -> Text, a: seq<Node>, b: seq<Node>)
    requires Digests64(sha256)
    requires Linked(sha256, a) && Linked(sha256, b) && NamesPredecessor(a, b)
    requires a != [] && b != [] && a[|a| - 1].hash == b[|b| - 1].hash
    ensures match FirstDifference(a, b)
            case None => SamePayloads(a, b)
            case Some((x, y)) => Collides(sha256, x, y)
    decreases |a|
  {
    var m, n := |a| - 1, |b| - 1;
    if a[m].payload != b[n].payload {
      assert LinkedAt(sha256, a, m) && LinkedAt(sha256, b, n);
    } else {
      StepBack(sha256, a, b);
      if m > 0 {
        PrefixLinked(sha256, a);
        PrefixLinked(sha256, b);
        EqualHeads(sha256, a[..m], b[..n]);
        if FirstDifference(a[..m], b[..n]).None? {
          assert forall i :: 0 <= i < m ==> a[i] == a[..m][i] && b[i] == b[..n][i];
        }
      }
    }
  }

  /** What the walk back over two chains finds. */
  ghost predicate SameOrCollision(sha256: Text -> Text, a: seq<Node>, b: seq<Node>) {
    match FirstDifference(a, b)
    case None => SamePayloads(a, b)
    case Some((x, y)) => Collides(sha256, x, y) && Occurs(x, a) && Occurs(y, b)
  }

  lemma WalkBack(sha256: Text -> Text, a: seq<Node>, b: seq<Node>)
    requires Digests64(sha256)
    requires Linked(sha256, a) && Linked(sha256, b) && NamesPredecessor(a, b)
    requires a != [] && b != [] && a[|a| - 1].hash == b[|b| - 1].hash
    ensures SameOrCollision(sha256, a, b)
  {
    EqualHeads(sha256, a, b);
    if FirstDifference(a, b).Some? {
      DifferenceOccurs(a, b);
    }
  }
}
