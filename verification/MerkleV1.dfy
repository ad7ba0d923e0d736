/** The legacy Merkle tree over receipts: each level pairs neighbours, and an odd last node is paired with
    itself. Hashes are strings; the pair hash is a parameter, assumed injective where a proof must bind. */
module MerkleV1 {
  import opened Foundations

  datatype Side = Left | Right

  datatype Step = Step(hash: string, side: Side)

  /** The partner of the node at `i`: its neighbour, or itself when it is the odd last one. */
  function Partner(l: seq<string>, i: nat): string
    requires i < |l|
  {
    if i % 2 == 1 then l[i - 1] else if i + 1 < |l| then l[i + 1] else l[i]
  }

  /** The level above: node `k` hashes the pair at `2 * k`. */
  function Level(h: PairHash, l: seq<string>): (r: seq<string>)
    ensures |r| == (|l| + 1) / 2
    ensures forall k :: 0 <= k < |r| ==> r[k] == h(l[2 * k], Partner(l, 2 * k))
  {
    seq((|l| + 1) / 2, k requires 0 <= k < (|l| + 1) / 2 => h(l[2 * k], Partner(l, 2 * k)))
  }

  function Root(h: PairHash, empty: string, l: seq<string>): string
    decreases |l|
  {
    if |l| == 0 then empty else if |l| == 1 then l[0] else Root(h, empty, Level(h, l))
  }

  function Proof(h: PairHash, l: seq<string>, index: nat): seq<Step>
    requires index < |l|
    decreases |l|
  {
    if |l| == 1 then []
    else [Step(Partner(l, index), if index % 2 == 1 then Left else Right)] + Proof(h, Level(h, l), index / 2)
  }

  function Fold(h: PairHash, leaf: string, proof: seq<Step>): string
    decreases proof
  {
    if proof == [] then leaf
    else
      var up := if proof[0].side.Right? then h(leaf, proof[0].hash) else h(proof[0].hash, leaf);
      Fold(h, up, proof[1..])
  }

  function Height(n: nat): nat {
    if n <= 1 then 0 else 1 + Height((n + 1) / 2)
  }

  // ── The code's loops ──

  method MerkleRoot(h: PairHash, empty: string, leaves: seq<string>) returns (root: string)
    ensures root == Root(h, empty, leaves)
  {
    if |leaves| == 0 {
      return empty;
    }
    var level := leaves;
    while |level| > 1
      invariant |level| >= 1 && Root(h, empty, level) == Root(h, empty, leaves)
      decreases |level|
    {
      var next: seq<string>, i := [], 0;
      while i < |level|
        invariant 0 <= i <= |level| + 1 && i % 2 == 0 && |next| == i / 2
        invariant next == Level(h, level)[..i / 2]
      {
        var a := level[i];
        var b := if i + 1 < |level| then level[i + 1] else level[i];
        assert Level(h, level)[i / 2] == h(a, b);
        next := next + [h(a, b)];
        i := i + 2;
      }
      assert next == Level(h, level);
      level := next;
    }
    return level[0];
  }

  /** The inner loop of `merkleProof`: the level above, and the step taken from this one. */
  method ClimbOne(h: PairHash, level: seq<string>, idx: nat) returns (next: seq<string>, taken: seq<Step>)
    requires idx < |level|
    ensures next == Level(h, level)
    ensures taken == [Step(Partner(level, idx), if idx % 2 == 1 then Left else Right)]
  {
    next, taken := [], [];
    var i := 0;
    while i < |level|
      invariant 0 <= i <= |level| + 1 && i % 2 == 0 && |next| == i / 2
      invariant next == Level(h, level)[..i / 2]
      invariant taken == if i <= idx then [] else [Step(Partner(level, idx), if idx % 2 == 1 then Left else Right)]
    {
      var a := level[i];
      var b := if i + 1 < |level| then level[i + 1] else level[i];
      if i == idx {
        taken := taken + [Step(b, Right)];
      } else if i + 1 == idx {
        taken := taken + [Step(a, Left)];
      }
      assert Level(h, level)[i / 2] == h(a, b);
      next := next + [h(a, b)];
      i := i + 2;
    }
  }

  method MerkleProof(h: PairHash, leaves: seq<string>, index: int) returns (proof: seq<Step>)
    ensures proof == if 0 <= index < |leaves| then Proof(h, leaves, index) else []
  {
    proof := [];
    if index < 0 || index >= |leaves| {
      return;
    }
    var idx, level := index, leaves;
    while |level| > 1
      invariant 0 <= idx < |level| && proof + Proof(h, level, idx) == Proof(h, leaves, index)
      decreases |level|
    {
      var next, taken := ClimbOne(h, level, idx);
      proof, idx, level := proof + taken, idx / 2, next;
    }
  }

  method VerifyProof(h: PairHash, leaf: string, proof: seq<Step>, root: string) returns (ok: bool)
    ensures ok <==> Fold(h, leaf, proof) == root
  {
    var v := leaf;
    for i := 0 to |proof|
      invariant Fold(h, v, proof[i..]) == Fold(h, leaf, proof)
    {
      assert proof[i..][1..] == proof[i + 1..];
      v := if proof[i].side.Right? then h(v, proof[i].hash) else h(proof[i].hash, v);
    }
    return v == root;
  }

  // ── What the tree gives ──

  /** The first step of a proof leads to the node above, where the rest is that node's own proof. */
  lemma {:induction false} ProofStartsWith(h: PairHash, l: seq<string>, index: nat)
    requires index < |l| && |l| > 1
    ensures
      var up, rest := Level(h, l), Proof(h, Level(h, l), index / 2);
      |Proof(h, l, index)| == 1 + |rest| && Fold(h, l[index], Proof(h, l, index)) == Fold(h, up[index / 2], rest)
  {
    hide Proof, Fold, Height, Partner;
    var rest := Proof(h, Level(h, l), index / 2);
    var step := Step(Partner(l, index), if index % 2 == 1 then Left else Right);
    ProofIs(h, l, index);
    OneFold(h, l[index], step, rest);
    PairedUp(h, l, index);
  }

  lemma {:induction false} ProofIs(h: PairHash, l: seq<string>, index: nat)
    requires index < |l| && |l| > 1
    ensures
      Proof(h, l, index) == [Step(Partner(l, index), if index % 2 == 1 then Left else Right)] + Proof(h, Level(h, l), index / 2)
  {
    hide Partner;
  }

  lemma {:induction false} OneFold(h: PairHash, leaf: string, step: Step, rest: seq<Step>)
    ensures Fold(h, leaf, [step] + rest) == Fold(h, if step.side.Right? then h(leaf, step.hash) else h(step.hash, leaf), rest)
  {
    assert ([step] + rest)[1..] == rest;
  }

  /** A node above hashes a node and its partner, the left one first. */
  lemma {:induction false} PairedUp(h: PairHash, l: seq<string>, i: nat)
    requires i < |l|
    ensures Level(h, l)[i / 2] == if i % 2 == 1 then h(Partner(l, i), l[i]) else h(l[i], Partner(l, i))
  {
    assert Level(h, l)[i / 2] == h(l[2 * (i / 2)], Partner(l, 2 * (i / 2)));
    if i % 2 == 1 {
      assert 2 * (i / 2) == i - 1;
    } else {
      assert 2 * (i / 2) == i;
    }
  }

  /** Every generated proof verifies, and has one step for each level. */
  lemma {:induction false} EveryProofVerifies(h: PairHash, empty: string, l: seq<string>, index: nat)
    requires index < |l|
    ensures Fold(h, l[index], Proof(h, l, index)) == Root(h, empty, l)
    ensures |Proof(h, l, index)| == Height(|l|)
    decreases |l|
  {
    if |l| > 1 {
      var up := Level(h, l);
      EveryProofVerifies(h, empty, up, index / 2);
      ProofStartsWith(h, l, index);
    }
  }

  /** With an injective hash, a proof of the tree's height that verifies shows its leaf is in the tree. */
  lemma {:induction false} VerifiedLeafIsThere(h: PairHash, empty: string, l: seq<string>, leaf: string, proof: seq<Step>)
    requires Injective(h) && l != []
    requires |proof| == Height(|l|) && Fold(h, leaf, proof) == Root(h, empty, l)
    ensures leaf in l
    decreases |l|
  {
    if |l| > 1 {
      var up := Level(h, l);
      var parent := if proof[0].side.Right? then h(leaf, proof[0].hash) else h(proof[0].hash, leaf);
      VerifiedLeafIsThere(h, empty, up, parent, proof[1..]);
      var k :| 0 <= k < |up| && up[k] == parent;
      assert up[k] == h(l[2 * k], Partner(l, 2 * k));
      assert Partner(l, 2 * k) in l && l[2 * k] in l;
    }
  }

  lemma PairsBelow(h: PairHash, a: seq<string>, b: seq<string>, k: nat)
    requires Injective(h) && |a| == |b| && 2 * k < |a|
    requires h(a[2 * k], Partner(a, 2 * k)) == h(b[2 * k], Partner(b, 2 * k))
    ensures a[2 * k] == b[2 * k] && (2 * k + 1 < |a| ==> a[2 * k + 1] == b[2 * k + 1])
  {}

  /** With an injective hash, two lists of one length with one root are the same list. */
  lemma {:induction false} RootBindsTheList(h: PairHash, empty: string, a: seq<string>, b: seq<string>)
    requires Injective(h) && |a| == |b| && Root(h, empty, a) == Root(h, empty, b)
    ensures a == b
    decreases |a|
  {
    if |a| > 1 {
      var upA, upB := Level(h, a), Level(h, b);
      RootBindsTheList(h, empty, upA, upB);
      forall i | 0 <= i < |a| ensures a[i] == b[i] {
        var k := i / 2;
        assert upA[k] == upB[k];
        PairsBelow(h, a, b, k);
        assert i == 2 * k || i == 2 * k + 1;
      }
    } else if |a| == 1 {
      assert a[0] == b[0];
    }
  }

  /** The length is needed: repeating the last entry of a list of odd length above one keeps the root. */
  lemma RepeatedTailKeepsTheRoot(h: PairHash, empty: string, l: seq<string>)
    requires |l| >= 3 && |l| % 2 == 1
    ensures Root(h, empty, l + [l[|l| - 1]]) == Root(h, empty, l)
  {
    assert Level(h, l + [l[|l| - 1]]) == Level(h, l);
  }

  /** The trees of up to three leaves, written out: the odd last one is paired with itself. */
  lemma {:induction false} SmallTrees(h: PairHash, empty: string, a: string, b: string, c: string)
    ensures Root(h, empty, []) == empty && Root(h, empty, [a]) == a && Root(h, empty, [a, b]) == h(a, b)
    ensures Root(h, empty, [a, b, c]) == h(h(a, b), h(c, c))
  {
    assert Level(h, [a, b]) == [h(a, b)];
    assert Level(h, [a, b, c]) == [h(a, b), h(c, c)];
    assert Level(h, [h(a, b), h(c, c)]) == [h(h(a, b), h(c, c))];
    assert Root(h, empty, [h(a, b), h(c, c)]) == Root(h, empty, [h(h(a, b), h(c, c))]);
  }
}
