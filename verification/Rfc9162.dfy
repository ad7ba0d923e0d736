/** The Merkle tree of section 2.1.1 of RFC 9162 over leaf hashes, its inclusion and consistency proofs
    (sections 2.1.3.1 and 2.1.4.1), and the two verifying loops (sections 2.1.3.2 and 2.1.4.2).
    Digests are strings; the interior hash is a parameter, assumed injective where a proof binds. */
module Rfc9162 {
  import opened Foundations

  // ── The tree ──

  /** Doubling from `k` while twice `k` is still below `n`. */
  function SplitFrom(k: nat, n: nat): (r: nat)
    requires 1 <= k < n
    ensures k <= r < n <= 2 * r
    decreases n - k
  {
    if 2 * k < n then SplitFrom(2 * k, n) else k
  }

  /** The largest power of two below `n`. */
  function SplitPoint(n: nat): (r: nat)
    requires n > 1
    ensures 1 <= r < n <= 2 * r
  {
    SplitFrom(1, n)
  }

  method FindSplitPoint(n: nat) returns (k: nat)
    requires n > 1
    ensures k == SplitPoint(n)
  {
    k := 1;
    while k * 2 < n
      invariant 1 <= k < n && SplitFrom(k, n) == SplitPoint(n)
      decreases n - k
    {
      k := k * 2;
    }
  }

  /** The hash of the leaves from `lo` up to `hi`. */
  function TreeHash(node: PairHash, empty: Digest, d: seq<Digest>, lo: nat, hi: nat): Digest
    requires lo <= hi <= |d|
    decreases hi - lo
  {
    if hi == lo then empty
    else if hi - lo == 1 then d[lo]
    else
      var mid := lo + SplitPoint(hi - lo);
      node(TreeHash(node, empty, d, lo, mid), TreeHash(node, empty, d, mid, hi))
  }

  function Root(node: PairHash, empty: Digest, d: seq<Digest>): Digest {
    TreeHash(node, empty, d, 0, |d|)
  }

  /** The audit path of leaf `i` in the tree over the leaves from `lo` up to `hi`. */
  function Path(node: PairHash, empty: Digest, i: nat, d: seq<Digest>, lo: nat, hi: nat): seq<Digest>
    requires lo <= i < hi <= |d|
    decreases hi - lo
  {
    if hi - lo == 1 then []
    else
      var mid := lo + SplitPoint(hi - lo);
      if i < mid then Path(node, empty, i, d, lo, mid) + [TreeHash(node, empty, d, mid, hi)]
      else Path(node, empty, i, d, mid, hi) + [TreeHash(node, empty, d, lo, mid)]
  }

  /** The nodes that, with those already known, give the tree over the leaves from `lo` up to `hi` from
      the one over its leaves before `end`. */
  function Subproof(node: PairHash, empty: Digest, end: nat, d: seq<Digest>, lo: nat, hi: nat, whole: bool): seq<Digest>
    requires lo < end <= hi <= |d|
    decreases hi - lo
  {
    if end == hi then if whole then [] else [TreeHash(node, empty, d, lo, hi)]
    else
      var mid := lo + SplitPoint(hi - lo);
      if end <= mid then Subproof(node, empty, end, d, lo, mid, whole) + [TreeHash(node, empty, d, mid, hi)]
      else Subproof(node, empty, end, d, mid, hi, false) + [TreeHash(node, empty, d, lo, mid)]
  }

  function InclusionProof(node: PairHash, empty: Digest, d: seq<Digest>, index: nat): seq<Digest>
    requires index < |d|
  {
    Path(node, empty, index, d, 0, |d|)
  }

  /** The proof that the first `first` leaves are a prefix of all of them. */
  function ConsistencyProof(node: PairHash, empty: Digest, d: seq<Digest>, first: nat): seq<Digest>
    requires first <= |d|
  {
    if first == 0 || first == |d| then [] else Subproof(node, empty, first, d, 0, |d|, true)
  }

  // ── The same tree level by level ──

  /** `u` is the level above `d`: neighbours hashed together, an odd last node carried up as it is. */
  ghost predicate Above(node: PairHash, u: seq<Digest>, d: seq<Digest>) {
    && 2 * |u| - 1 <= |d| <= 2 * |u|
    && forall k :: 0 <= k < |u| ==> u[k] == if 2 * k + 1 < |d| then node(d[2 * k], d[2 * k + 1]) else d[2 * k]
  }

  ghost function Up(node: PairHash, d: seq<Digest>): (u: seq<Digest>)
    ensures Above(node, u, d)
  {
    seq((|d| + 1) / 2, k requires 0 <= k < (|d| + 1) / 2 =>
      if 2 * k + 1 < |d| then node(d[2 * k], d[2 * k + 1]) else d[2 * k])
  }

  /** Where the nodes under the first `b` of the level above end. */
  function End(d: seq<Digest>, b: nat): nat {
    Min(2 * b, |d|)
  }

  lemma {:induction false} SplitHalves(j: nat, n: nat)
    requires 1 <= j && 2 * j < n
    ensures j < (n + 1) / 2 && SplitFrom(2 * j, n) == 2 * SplitFrom(j, (n + 1) / 2)
    decreases n - j
  {
    if 4 * j < n {
      SplitHalves(2 * j, n);
    }
  }

  lemma SplitOfLevel(n: nat, above: nat)
    requires n >= 3 && (n == 2 * above || n == 2 * above - 1)
    ensures SplitPoint(n) == 2 * SplitPoint(above)
  {
    assert (n + 1) / 2 == above;
    SplitHalves(1, n);
  }

  lemma {:induction false} OnePair(node: PairHash, empty: Digest, u: seq<Digest>, d: seq<Digest>, a: nat)
    requires Above(node, u, d) && a < |u|
    ensures TreeHash(node, empty, d, 2 * a, End(d, a + 1)) == u[a]
  {
    if 2 * a + 1 < |d| {
      assert SplitPoint(2) == 1;
    }
  }

  lemma {:induction false} Join(node: PairHash, empty: Digest, u: seq<Digest>, a: nat, mid: nat, b: nat, d: seq<Digest>, lo: nat, m: nat, hi: nat)
    requires a < mid < b <= |u| && lo < m < hi <= |d|
    requires mid == a + SplitPoint(b - a) && m == lo + SplitPoint(hi - lo)
    requires TreeHash(node, empty, u, a, mid) == TreeHash(node, empty, d, lo, m)
    requires TreeHash(node, empty, u, mid, b) == TreeHash(node, empty, d, m, hi)
    ensures TreeHash(node, empty, u, a, b) == TreeHash(node, empty, d, lo, hi)
  {}

  lemma {:induction false} TreeHashUp(node: PairHash, empty: Digest, u: seq<Digest>, d: seq<Digest>, a: nat, b: nat)
    requires Above(node, u, d) && a < b <= |u|
    ensures TreeHash(node, empty, u, a, b) == TreeHash(node, empty, d, 2 * a, End(d, b))
    decreases b - a
  {
    if b - a == 1 {
      OnePair(node, empty, u, d, a);
    } else {
      var mid, lo, hi := a + SplitPoint(b - a), 2 * a, End(d, b);
      var m := End(d, mid);
      SplitOfLevel(hi - lo, b - a);
      assert m == 2 * mid == lo + SplitPoint(hi - lo);
      TreeHashUp(node, empty, u, d, a, mid);
      TreeHashUp(node, empty, u, d, mid, b);
      Join(node, empty, u, a, mid, b, d, lo, m, hi);
    }
  }

  /** A tree and the tree over the level above its leaves have one root. */
  lemma RootUp(node: PairHash, empty: Digest, u: seq<Digest>, d: seq<Digest>)
    requires Above(node, u, d) && d != []
    ensures Root(node, empty, u) == Root(node, empty, d)
  {
    TreeHashUp(node, empty, u, d, 0, |u|);
  }

  /** The sibling of node `i` on its level, if it has one. */
  function Sibling(d: seq<Digest>, i: nat): seq<Digest>
    requires i < |d|
  {
    if i % 2 == 1 then [d[i - 1]] else if i + 1 < |d| then [d[i + 1]] else []
  }

  lemma {:induction false} PathOfPair(node: PairHash, empty: Digest, u: seq<Digest>, d: seq<Digest>, i: nat, j: nat)
    requires Above(node, u, d) && j < |u| && i < |d| && 2 * j <= i <= 2 * j + 1
    ensures Path(node, empty, i, d, 2 * j, End(d, j + 1)) == Sibling(d, i)
  {
    if 2 * j + 1 < |d| {
      assert SplitPoint(2) == 1;
      assert Path(node, empty, i, d, 2 * j, 2 * j + 2) == [] + [d[if i == 2 * j then i + 1 else i - 1]];
    }
  }

  lemma {:induction false} PathLeft(node: PairHash, empty: Digest, i: nat, d: seq<Digest>, lo: nat, mid: nat, hi: nat)
    requires lo <= i < mid < hi <= |d| && mid == lo + SplitPoint(hi - lo)
    ensures Path(node, empty, i, d, lo, hi) == Path(node, empty, i, d, lo, mid) + [TreeHash(node, empty, d, mid, hi)]
  {}

  lemma {:induction false} PathRight(node: PairHash, empty: Digest, i: nat, d: seq<Digest>, lo: nat, mid: nat, hi: nat)
    requires lo < mid <= i < hi <= |d| && mid == lo + SplitPoint(hi - lo)
    ensures Path(node, empty, i, d, lo, hi) == Path(node, empty, i, d, mid, hi) + [TreeHash(node, empty, d, lo, mid)]
  {}

  lemma Regroup(a: seq<Digest>, b: seq<Digest>, c: seq<Digest>)
    ensures (a + b) + c == a + (b + c)
  {}

  lemma {:induction false} JoinLeft(
    node: PairHash, empty: Digest, below: seq<Digest>,
    u: seq<Digest>, j: nat, a: nat, mid: nat, b: nat, d: seq<Digest>, i: nat, lo: nat, m: nat, hi: nat)
    requires a <= j < mid < b <= |u| && mid == a + SplitPoint(b - a)
    requires lo <= i < m < hi <= |d| && m == lo + SplitPoint(hi - lo)
    requires TreeHash(node, empty, u, mid, b) == TreeHash(node, empty, d, m, hi)
    requires Path(node, empty, i, d, lo, m) == below + Path(node, empty, j, u, a, mid)
    ensures Path(node, empty, i, d, lo, hi) == below + Path(node, empty, j, u, a, b)
  {
    PathLeft(node, empty, j, u, a, mid, b);
    PathLeft(node, empty, i, d, lo, m, hi);
    Regroup(below, Path(node, empty, j, u, a, mid), [TreeHash(node, empty, u, mid, b)]);
  }

  lemma {:induction false} JoinRight(
    node: PairHash, empty: Digest, below: seq<Digest>,
    u: seq<Digest>, j: nat, a: nat, mid: nat, b: nat, d: seq<Digest>, i: nat, lo: nat, m: nat, hi: nat)
    requires a < mid <= j < b <= |u| && mid == a + SplitPoint(b - a)
    requires lo < m <= i < hi <= |d| && m == lo + SplitPoint(hi - lo)
    requires TreeHash(node, empty, u, a, mid) == TreeHash(node, empty, d, lo, m)
    requires Path(node, empty, i, d, m, hi) == below + Path(node, empty, j, u, mid, b)
    ensures Path(node, empty, i, d, lo, hi) == below + Path(node, empty, j, u, a, b)
  {
    PathRight(node, empty, j, u, a, mid, b);
    PathRight(node, empty, i, d, lo, m, hi);
    Regroup(below, Path(node, empty, j, u, mid, b), [TreeHash(node, empty, u, a, mid)]);
  }

  /** An audit path is the siblings met going up level by level. */
  lemma {:induction false} PathUp(node: PairHash, empty: Digest, u: seq<Digest>, d: seq<Digest>, i: nat, j: nat, a: nat, b: nat)
    requires Above(node, u, d) && a <= j < b <= |u| && 2 * j <= i <= 2 * j + 1 && i < |d|
    ensures Path(node, empty, i, d, 2 * a, End(d, b)) == Sibling(d, i) + Path(node, empty, j, u, a, b)
    decreases b - a
  {
    if b - a == 1 {
      PathOfPair(node, empty, u, d, i, j);
    } else {
      var mid, lo, hi := a + SplitPoint(b - a), 2 * a, End(d, b);
      var m := End(d, mid);
      SplitOfLevel(hi - lo, b - a);
      assert m == 2 * mid == lo + SplitPoint(hi - lo);
      if j < mid {
        TreeHashUp(node, empty, u, d, mid, b);
        PathUp(node, empty, u, d, i, j, a, mid);
        JoinLeft(node, empty, Sibling(d, i), u, j, a, mid, b, d, i, lo, m, hi);
      } else {
        TreeHashUp(node, empty, u, d, a, mid);
        PathUp(node, empty, u, d, i, j, mid, b);
        JoinRight(node, empty, Sibling(d, i), u, j, a, mid, b, d, i, lo, m, hi);
      }
    }
  }

  // ── Inclusion ──

  /** What the verifying loop computes: the root a path leads to from the node `r` at `fn` on a level whose
      last index is `sn`, or None when the path is too short or too long. */
  function Climb(node: PairHash, r: Digest, fn: nat, sn: nat, path: seq<Digest>): Option<Digest>
    requires fn <= sn
    decreases sn
  {
    if sn == 0 then if path == [] then Some(r) else None
    else if fn == sn && fn % 2 == 0 then Climb(node, r, fn / 2, sn / 2, path)
    else if path == [] then None
    else Climb(node, if fn % 2 == 1 then node(path[0], r) else node(r, path[0]), fn / 2, sn / 2, path[1..])
  }

  lemma {:induction false} AnEmptyPathStopsBelowTheRoot(node: PairHash, r: Digest, fn: nat, sn: nat)
    requires fn <= sn && sn > 0
    ensures Climb(node, r, fn, sn, []).None?
    decreases sn
  {
    if fn == sn && fn % 2 == 0 {
      AnEmptyPathStopsBelowTheRoot(node, r, fn / 2, sn / 2);
    }
  }

  method VerifyInclusionProof(node: PairHash, leaf: Digest, index: nat, size: nat, path: seq<Digest>, root: Digest) returns (ok: bool)
    ensures ok <==> index < size && Climb(node, leaf, index, size - 1, path) == Some(root)
  {
    if index >= size {
      return false;
    }
    var fn, sn, r := index, size - 1, leaf;
    for i := 0 to |path|
      invariant 0 <= fn <= sn
      invariant Climb(node, r, fn, sn, path[i..]) == Climb(node, leaf, index, size - 1, path)
    {
      if sn == 0 {
        return false;
      }
      var p := path[i];
      assert path[i..] != [] && path[i..][1..] == path[i + 1..];
      if fn % 2 == 1 || fn == sn {
        ghost var below := r;
        r := node(p, r);
        if fn % 2 == 0 {
          while fn % 2 == 0 && fn != 0
            invariant 0 < fn == sn
            invariant Climb(node, below, fn, sn, path[i..]) == Climb(node, leaf, index, size - 1, path)
          {
            fn, sn := fn / 2, sn / 2;
          }
        }
      } else {
        r := node(r, p);
      }
      fn, sn := fn / 2, sn / 2;
    }
    assert path[|path|..] == [];
    if sn > 0 {
      AnEmptyPathStopsBelowTheRoot(node, r, fn, sn);
    }
    return sn == 0 && r == root;
  }

  lemma InclusionUp(node: PairHash, empty: Digest, u: seq<Digest>, d: seq<Digest>, i: nat, j: nat)
    requires Above(node, u, d) && i < |d| && j < |u| && 2 * j <= i <= 2 * j + 1
    ensures InclusionProof(node, empty, d, i) == Sibling(d, i) + InclusionProof(node, empty, u, j)
  {
    PathUp(node, empty, u, d, i, j, 0, |u|);
  }

  /** One level of climbing: nothing is read where there is no sibling, else one node. */
  lemma {:induction false} ClimbOne(node: PairHash, r: Digest, i: nat, j: nat, last: nat, above: nat, path: seq<Digest>)
    requires i <= last && last > 0 && 2 * j <= i <= 2 * j + 1 && 2 * above <= last <= 2 * above + 1
    ensures j <= above
    ensures Climb(node, r, i, last, path) ==
            if i == last && i == 2 * j then Climb(node, r, j, above, path)
            else if path == [] then None
            else Climb(node, if i == 2 * j + 1 then node(path[0], r) else node(r, path[0]), j, above, path[1..])
  {
    assert i / 2 == j && last / 2 == above;
  }

  lemma Following(x: Digest, rest: seq<Digest>)
    ensures ([x] + rest)[0] == x && ([x] + rest)[1..] == rest
  {}

  lemma {:induction false} ClimbUp(node: PairHash, u: seq<Digest>, d: seq<Digest>, i: nat, j: nat, rest: seq<Digest>)
    requires Above(node, u, d) && |d| > 1 && i < |d| && j < |u| && 2 * j <= i <= 2 * j + 1
    ensures Climb(node, d[i], i, |d| - 1, Sibling(d, i) + rest) == Climb(node, u[j], j, |u| - 1, rest)
  {
    var path := Sibling(d, i) + rest;
    ClimbOne(node, d[i], i, j, |d| - 1, |u| - 1, path);
    if i == 2 * j + 1 {
      Following(d[i - 1], rest);
    } else if i < |d| - 1 {
      Following(d[i + 1], rest);
    } else {
      assert path == rest;
    }
  }

  /** Every inclusion proof verifies. */
  lemma {:induction false} InclusionComplete(node: PairHash, empty: Digest, d: seq<Digest>, i: nat)
    requires i < |d|
    ensures Climb(node, d[i], i, |d| - 1, InclusionProof(node, empty, d, i)) == Some(Root(node, empty, d))
    decreases |d|
  {
    if |d| > 1 {
      var u, j := Up(node, d), i / 2;
      RootUp(node, empty, u, d);
      InclusionComplete(node, empty, u, j);
      InclusionUp(node, empty, u, d, i, j);
      ClimbUp(node, u, d, i, j, InclusionProof(node, empty, u, j));
    }
  }

  /** One level of climbing, backwards: what reached the right node above started from the right one and read
      its sibling. */
  lemma {:induction false} ClimbDown(node: PairHash, u: seq<Digest>, d: seq<Digest>, i: nat, j: nat, leaf: Digest, path: seq<Digest>)
    returns (r: Digest, rest: seq<Digest>)
    requires Above(node, u, d) && |d| > 1 && i < |d| && j < |u| && 2 * j <= i <= 2 * j + 1
    requires Climb(node, leaf, i, |d| - 1, path).Some?
    ensures Climb(node, r, j, |u| - 1, rest) == Climb(node, leaf, i, |d| - 1, path)
    ensures Injective(node) && r == u[j] ==> leaf == d[i] && path == Sibling(d, i) + rest
  {
    ClimbOne(node, leaf, i, j, |d| - 1, |u| - 1, path);
    if i == 2 * j + 1 {
      r, rest := node(path[0], leaf), path[1..];
      assert path == [path[0]] + rest;
    } else if i < |d| - 1 {
      r, rest := node(leaf, path[0]), path[1..];
      assert path == [path[0]] + rest;
    } else {
      r, rest := leaf, path;
      assert path == Sibling(d, i) + rest;
    }
  }

  /** With an injective hash, a path that leads to the root of `d` at index `i` starts from the leaf `d[i]`,
      and is the one proof there is. */
  lemma {:induction false} InclusionSound(node: PairHash, empty: Digest, d: seq<Digest>, i: nat, leaf: Digest, path: seq<Digest>)
    requires Injective(node) && i < |d|
    requires Climb(node, leaf, i, |d| - 1, path) == Some(Root(node, empty, d))
    ensures leaf == d[i] && path == InclusionProof(node, empty, d, i)
    decreases |d|
  {
    if |d| > 1 {
      var u, j := Up(node, d), i / 2;
      RootUp(node, empty, u, d);
      var r, rest := ClimbDown(node, u, d, i, j, leaf, path);
      InclusionSound(node, empty, u, j, r, rest);
      InclusionUp(node, empty, u, d, i, j);
    }
  }

  // ── Consistency ──

  predicate IsPowerOfTwo(n: nat) {
    n == 1 || (n > 1 && n % 2 == 0 && IsPowerOfTwo(n / 2))
  }

  /** What the verifying loop computes: the two roots reached from the nodes `fr` and `sr`, the last one of
      the smaller tree on a level and the one at its place in the larger. */
  function ClimbBoth(node: PairHash, fr: Digest, sr: Digest, fn: nat, sn: nat, path: seq<Digest>): Option<(Digest, Digest)>
    requires fn <= sn
    decreases sn
  {
    if sn == 0 then if path == [] then Some((fr, sr)) else None
    else if fn % 2 == 0 && fn == sn then ClimbBoth(node, fr, sr, fn / 2, sn / 2, path)
    else if path == [] then None
    else if fn % 2 == 1 then ClimbBoth(node, node(path[0], fr), node(path[0], sr), fn / 2, sn / 2, path[1..])
    else ClimbBoth(node, fr, node(sr, path[0]), fn / 2, sn / 2, path[1..])
  }

  /** When the verifier accepts two roots and a proof. */
  predicate Consistent(node: PairHash, first: nat, second: nat, firstRoot: Digest, secondRoot: Digest, proof: seq<Digest>) {
    if first > second then false
    else if first == 0 then proof == []
    else if first == second then proof == [] && firstRoot == secondRoot
    else
      var path := if IsPowerOfTwo(first) then [firstRoot] + proof else proof;
      path != [] && ReachesBoth(node, path[0], first - 1, second - 1, path[1..], firstRoot, secondRoot)
  }

  /** Up past the levels on which the smaller tree ends in a whole pair, and from there to both roots. */
  predicate ReachesBoth(node: PairHash, seed: Digest, fn: nat, sn: nat, path: seq<Digest>, firstRoot: Digest, secondRoot: Digest)
    requires fn <= sn
  {
    if fn % 2 == 1 then ReachesBoth(node, seed, fn / 2, sn / 2, path, firstRoot, secondRoot)
    else ClimbBoth(node, seed, seed, fn, sn, path) == Some((firstRoot, secondRoot))
  }

  lemma {:induction false} AnEmptyPathStopsBoth(node: PairHash, fr: Digest, sr: Digest, fn: nat, sn: nat)
    requires fn <= sn && sn > 0
    ensures ClimbBoth(node, fr, sr, fn, sn, []).None?
    decreases sn
  {
    if fn == sn && fn % 2 == 0 {
      AnEmptyPathStopsBoth(node, fr, sr, fn / 2, sn / 2);
    }
  }

  method VerifyConsistencyProof(
    node: PairHash, first: nat, second: nat, firstRoot: Digest, secondRoot: Digest, proof: seq<Digest>) returns (ok: bool)
    ensures ok <==> Consistent(node, first, second, firstRoot, secondRoot, proof)
  {
    if first > second {
      return false;
    }
    if first == 0 {
      return proof == [];
    }
    if first == second {
      return proof == [] && firstRoot == secondRoot;
    }
    var path := if IsPowerOfTwo(first) then [firstRoot] + proof else proof;
    if path == [] {
      return false;
    }
    var fn, sn := first - 1, second - 1;
    while fn % 2 == 1
      invariant 0 <= fn <= sn
      invariant ReachesBoth(node, path[0], fn, sn, path[1..], firstRoot, secondRoot) <==>
                ReachesBoth(node, path[0], first - 1, second - 1, path[1..], firstRoot, secondRoot)
      decreases fn
    {
      fn, sn := fn / 2, sn / 2;
    }
    ghost var wanted := ClimbBoth(node, path[0], path[0], fn, sn, path[1..]);
    var fr, sr := path[0], path[0];
    for i := 1 to |path|
      invariant 0 <= fn <= sn && ClimbBoth(node, fr, sr, fn, sn, path[i..]) == wanted
    {
      if sn == 0 {
        return false;
      }
      var c := path[i];
      assert path[i..] != [] && path[i..][1..] == path[i + 1..];
      if fn % 2 == 1 || fn == sn {
        ghost var fb, sb := fr, sr;
        fr, sr := node(c, fr), node(c, sr);
        if fn % 2 == 0 {
          while fn % 2 == 0 && fn != 0
            invariant 0 < fn == sn && ClimbBoth(node, fb, sb, fn, sn, path[i..]) == wanted
          {
            fn, sn := fn / 2, sn / 2;
          }
        }
      } else {
        sr := node(sr, c);
      }
      fn, sn := fn / 2, sn / 2;
    }
    assert path[|path|..] == [];
    if sn > 0 {
      AnEmptyPathStopsBoth(node, fr, sr, fn, sn);
    }
    return fr == firstRoot && sr == secondRoot && sn == 0;
  }

  // The proof the tree gives, level by level.

  lemma {:induction false} SubproofSplits(node: PairHash, empty: Digest, e: nat, d: seq<Digest>, lo: nat, mid: nat, hi: nat, whole: bool)
    requires lo < e < hi <= |d| && mid == lo + SplitPoint(hi - lo)
    ensures Subproof(node, empty, e, d, lo, hi, whole) ==
            if e <= mid then Subproof(node, empty, e, d, lo, mid, whole) + [TreeHash(node, empty, d, mid, hi)]
            else Subproof(node, empty, e, d, mid, hi, false) + [TreeHash(node, empty, d, lo, mid)]
  {}

  /** A prefix that ends in a whole pair has the same proof one level up. */
  lemma {:induction false} SubproofUp(node: PairHash, empty: Digest, u: seq<Digest>, d: seq<Digest>, e: nat, f: nat, a: nat, b: nat, whole: bool)
    requires Above(node, u, d) && a < f <= b <= |u| && e == 2 * f && e <= |d|
    ensures Subproof(node, empty, e, d, 2 * a, End(d, b), whole) == Subproof(node, empty, f, u, a, b, whole)
    decreases b - a
  {
    if f == b {
      TreeHashUp(node, empty, u, d, a, b);
    } else {
      var mid, lo, hi := a + SplitPoint(b - a), 2 * a, End(d, b);
      var m := End(d, mid);
      SplitOfLevel(hi - lo, b - a);
      assert m == 2 * mid == lo + SplitPoint(hi - lo);
      SubproofSplits(node, empty, f, u, a, mid, b, whole);
      SubproofSplits(node, empty, e, d, lo, m, hi, whole);
      if f <= mid {
        TreeHashUp(node, empty, u, d, mid, b);
        SubproofUp(node, empty, u, d, e, f, a, mid, whole);
      } else {
        TreeHashUp(node, empty, u, d, a, mid);
        SubproofUp(node, empty, u, d, e, f, mid, b, false);
      }
    }
  }

  lemma {:induction false} JoinPathLeft(
    node: PairHash, empty: Digest, first: seq<Digest>, i: nat, d: seq<Digest>, lo: nat, mid: nat, hi: nat, whole: bool)
    requires lo <= i < mid < hi <= |d| && mid == lo + SplitPoint(hi - lo)
    requires Subproof(node, empty, i + 1, d, lo, mid, whole) == first + Path(node, empty, i, d, lo, mid)
    ensures Subproof(node, empty, i + 1, d, lo, hi, whole) == first + Path(node, empty, i, d, lo, hi)
  {
    SubproofSplits(node, empty, i + 1, d, lo, mid, hi, whole);
    PathLeft(node, empty, i, d, lo, mid, hi);
    Regroup(first, Path(node, empty, i, d, lo, mid), [TreeHash(node, empty, d, mid, hi)]);
  }

  lemma {:induction false} JoinPathRight(
    node: PairHash, empty: Digest, first: seq<Digest>, i: nat, d: seq<Digest>, lo: nat, mid: nat, hi: nat, whole: bool)
    requires lo < mid <= i && i + 1 < hi <= |d| && mid == lo + SplitPoint(hi - lo)
    requires Subproof(node, empty, i + 1, d, mid, hi, false) == first + Path(node, empty, i, d, mid, hi)
    ensures Subproof(node, empty, i + 1, d, lo, hi, whole) == first + Path(node, empty, i, d, lo, hi)
  {
    SubproofSplits(node, empty, i + 1, d, lo, mid, hi, whole);
    PathRight(node, empty, i, d, lo, mid, hi);
    Regroup(first, Path(node, empty, i, d, mid, hi), [TreeHash(node, empty, d, lo, mid)]);
  }

  /** A prefix that ends in a left node is proved by that node (left out when it is the whole of the
      smaller tree) and its audit path. */
  lemma {:induction false} SubproofIsAPath(node: PairHash, empty: Digest, i: nat, h: nat, d: seq<Digest>, lo: nat, hi: nat, whole: bool)
    requires lo <= i < hi <= |d| && i == lo + 2 * h && i + 1 < hi
    ensures Subproof(node, empty, i + 1, d, lo, hi, whole) ==
            (if whole && h == 0 then [] else [d[i]]) + Path(node, empty, i, d, lo, hi)
    decreases hi - lo
  {
    var mid := lo + SplitPoint(hi - lo);
    var first := if whole && h == 0 then [] else [d[i]];
    if hi - lo == 2 {
      OneLeftNode(node, empty, i, d, whole);
      JoinPathLeft(node, empty, first, i, d, lo, mid, hi, whole);
    } else {
      var above := (hi - lo + 1) / 2;
      SplitOfLevel(hi - lo, above);
      var q := SplitPoint(above);
      assert mid == lo + 2 * q;
      if h < q {
        SubproofIsAPath(node, empty, i, h, d, lo, mid, whole);
        JoinPathLeft(node, empty, first, i, d, lo, mid, hi, whole);
      } else {
        SubproofIsAPath(node, empty, i, h - q, d, mid, hi, false);
        JoinPathRight(node, empty, first, i, d, lo, mid, hi, whole);
      }
    }
  }

  lemma {:induction false} OneLeftNode(node: PairHash, empty: Digest, i: nat, d: seq<Digest>, whole: bool)
    requires i + 1 < |d|
    ensures SplitPoint(2) == 1
    ensures Subproof(node, empty, i + 1, d, i, i + 1, whole) == (if whole then [] else [d[i]]) + Path(node, empty, i, d, i, i + 1)
  {
    assert Path(node, empty, i, d, i, i + 1) == [];
    assert TreeHash(node, empty, d, i, i + 1) == d[i];
  }

  // Both trees, level by level.

  /** The first `n` nodes of two levels are the same. */
  ghost predicate Agree(b: seq<Digest>, a: seq<Digest>, n: nat) {
    n <= |b| && n <= |a| && forall k :: 0 <= k < n ==> b[k] == a[k]
  }

  /** The levels `b` and `a` of the smaller and the larger tree, the levels `v` and `u` above them, and the
      last nodes of the smaller tree on each. */
  ghost predicate Levels(node: PairHash, v: seq<Digest>, b: seq<Digest>, u: seq<Digest>, a: seq<Digest>, i: nat, j: nat) {
    && Above(node, v, b) && Above(node, u, a) && |b| == i + 1 <= |a| && |v| == j + 1 <= |u| && |a| > 1
    && 2 * j <= i <= 2 * j + 1
  }

  /** One level of climbing in both trees: a right node, a last node carried up, or a left node. */
  lemma {:induction false} ClimbBothOne(node: PairHash, fr: Digest, sr: Digest, i: nat, j: nat, last: nat, above: nat, path: seq<Digest>)
    requires i <= last && last > 0 && 2 * j <= i <= 2 * j + 1 && 2 * above <= last <= 2 * above + 1
    ensures j <= above
    ensures ClimbBoth(node, fr, sr, i, last, path) ==
            if i == last && i == 2 * j then ClimbBoth(node, fr, sr, j, above, path)
            else if path == [] then None
            else if i == 2 * j + 1 then ClimbBoth(node, node(path[0], fr), node(path[0], sr), j, above, path[1..])
            else ClimbBoth(node, fr, node(sr, path[0]), j, above, path[1..])
  {
    assert i / 2 == j && last / 2 == above;
  }

  lemma {:induction false} BothUp(
    node: PairHash, v: seq<Digest>, b: seq<Digest>, u: seq<Digest>, a: seq<Digest>, i: nat, j: nat, rest: seq<Digest>)
    requires Levels(node, v, b, u, a, i, j) && Agree(b, a, i)
    ensures ClimbBoth(node, b[i], a[i], i, |a| - 1, Sibling(a, i) + rest) == ClimbBoth(node, v[j], u[j], j, |u| - 1, rest)
  {
    var path := Sibling(a, i) + rest;
    ClimbBothOne(node, b[i], a[i], i, j, |a| - 1, |u| - 1, path);
    if i == 2 * j + 1 {
      Following(a[i - 1], rest);
    } else if i < |a| - 1 {
      Following(a[i + 1], rest);
    } else {
      assert path == rest;
    }
  }

  lemma AgreeUp(node: PairHash, v: seq<Digest>, b: seq<Digest>, u: seq<Digest>, a: seq<Digest>, i: nat, j: nat)
    requires Levels(node, v, b, u, a, i, j) && Agree(b, a, i)
    ensures Agree(v, u, j)
  {}

  /** The loop takes a leaf's audit path to both roots, when the smaller tree ends in that leaf. */
  lemma {:induction false} BothComplete(node: PairHash, empty: Digest, b: seq<Digest>, a: seq<Digest>, i: nat)
    requires |b| == i + 1 <= |a| && Agree(b, a, i)
    ensures ClimbBoth(node, b[i], a[i], i, |a| - 1, InclusionProof(node, empty, a, i)) == Some((Root(node, empty, b), Root(node, empty, a)))
    decreases |a|
  {
    if |a| > 1 {
      var v, u, j := Up(node, b), Up(node, a), i / 2;
      RootUp(node, empty, v, b);
      RootUp(node, empty, u, a);
      AgreeUp(node, v, b, u, a, i, j);
      BothComplete(node, empty, v, u, j);
      InclusionUp(node, empty, u, a, i, j);
      BothUp(node, v, b, u, a, i, j, InclusionProof(node, empty, u, j));
    }
  }

  /** One level of climbing, backwards: what reached the right nodes above started from the right ones. */
  lemma {:induction false} BothDown(
    node: PairHash, v: seq<Digest>, b: seq<Digest>, u: seq<Digest>, a: seq<Digest>, i: nat, j: nat, fr: Digest, sr: Digest, path: seq<Digest>)
    returns (f: Digest, s: Digest, rest: seq<Digest>)
    requires Levels(node, v, b, u, a, i, j) && ClimbBoth(node, fr, sr, i, |a| - 1, path).Some?
    ensures ClimbBoth(node, f, s, j, |u| - 1, rest) == ClimbBoth(node, fr, sr, i, |a| - 1, path)
    ensures Injective(node) && f == v[j] && s == u[j] ==>
              fr == b[i] && sr == a[i] && (i == 2 * j + 1 ==> b[2 * j] == a[2 * j])
  {
    ClimbBothOne(node, fr, sr, i, j, |a| - 1, |u| - 1, path);
    if i == 2 * j + 1 {
      f, s, rest := node(path[0], fr), node(path[0], sr), path[1..];
    } else if i < |a| - 1 {
      f, s, rest := fr, node(sr, path[0]), path[1..];
    } else {
      f, s, rest := fr, sr, path;
    }
  }

  lemma OneMore(b: seq<Digest>, a: seq<Digest>, i: nat, j: nat)
    requires 2 * j <= i <= 2 * j + 1 && |b| == i + 1 <= |a| && Agree(b, a, 2 * j)
    requires i == 2 * j + 1 ==> b[2 * j] == a[2 * j]
    ensures Agree(b, a, i)
  {}

  lemma {:induction false} BothSound(node: PairHash, empty: Digest, b: seq<Digest>, a: seq<Digest>, i: nat, fr: Digest, sr: Digest, path: seq<Digest>)
    requires Injective(node) && |b| == i + 1 <= |a|
    requires ClimbBoth(node, fr, sr, i, |a| - 1, path) == Some((Root(node, empty, b), Root(node, empty, a)))
    ensures fr == b[i] && sr == a[i] && Agree(b, a, i)
    decreases |a|
  {
    if |a| > 1 {
      var v, u, j := Up(node, b), Up(node, a), i / 2;
      RootUp(node, empty, v, b);
      RootUp(node, empty, u, a);
      var f, s, rest := BothDown(node, v, b, u, a, i, j, fr, sr, path);
      BothSound(node, empty, v, u, j, f, s, rest);
      PairsAgree(node, v, b, u, a, j);
      OneMore(b, a, i, j);
    }
  }

  /** Equal nodes above come from equal pairs below. */
  lemma {:induction false} PairsAgree(node: PairHash, v: seq<Digest>, b: seq<Digest>, u: seq<Digest>, a: seq<Digest>, n: nat)
    requires Injective(node) && Above(node, v, b) && Above(node, u, a)
    requires 2 * n <= |b| && 2 * n <= |a| && Agree(v, u, n)
    ensures Agree(b, a, 2 * n)
    decreases n
  {
    if n > 0 {
      PairsAgree(node, v, b, u, a, n - 1);
      assert v[n - 1] == node(b[2 * n - 2], b[2 * n - 1]) && u[n - 1] == node(a[2 * n - 2], a[2 * n - 1]) by {
        assert 2 * (n - 1) + 1 == 2 * n - 1;
      }
    }
  }

  /** A smaller tree that ends in a whole pair is compared one level up. */
  lemma {:induction false} ReachesUp(node: PairHash, seed: Digest, m: nat, n: nat, v: nat, u: nat, path: seq<Digest>, r: Digest, s: Digest)
    requires 0 < m <= n && m == 2 * v && 2 * u - 1 <= n <= 2 * u
    ensures ReachesBoth(node, seed, m - 1, n - 1, path, r, s) == ReachesBoth(node, seed, v - 1, u - 1, path, r, s)
  {
    assert (m - 1) / 2 == v - 1 && (n - 1) / 2 == u - 1;
  }

  lemma {:induction false} ReachesAbove(
    node: PairHash, empty: Digest, v: seq<Digest>, b: seq<Digest>, u: seq<Digest>, a: seq<Digest>, seed: Digest, path: seq<Digest>)
    requires Above(node, v, b) && Above(node, u, a) && 0 < |b| == 2 * |v| && |b| <= |a|
    ensures 0 < |v| <= |u| < |a|
    ensures ReachesBoth(node, seed, |b| - 1, |a| - 1, path, Root(node, empty, b), Root(node, empty, a)) ==
            ReachesBoth(node, seed, |v| - 1, |u| - 1, path, Root(node, empty, v), Root(node, empty, u))
  {
    RootUp(node, empty, v, b);
    RootUp(node, empty, u, a);
    ReachesUp(node, seed, |b|, |a|, |v|, |u|, path, Root(node, empty, b), Root(node, empty, a));
  }

  lemma {:induction false} ReachesHere(node: PairHash, seed: Digest, i: nat, h: nat, n: nat, path: seq<Digest>, r: Digest, s: Digest)
    requires i < n && i == 2 * h
    ensures ReachesBoth(node, seed, i, n - 1, path, r, s) <==> ClimbBoth(node, seed, seed, i, n - 1, path) == Some((r, s))
  {}

  /** The path the verifier reads for an honest proof. */
  function FullPath(node: PairHash, empty: Digest, b: seq<Digest>, a: seq<Digest>): seq<Digest>
    requires 0 < |b| <= |a|
  {
    (if IsPowerOfTwo(|b|) then [Root(node, empty, b)] else []) + Subproof(node, empty, |b|, a, 0, |a|, true)
  }

  lemma {:induction false} FullPathUp(node: PairHash, empty: Digest, v: seq<Digest>, b: seq<Digest>, u: seq<Digest>, a: seq<Digest>)
    requires Above(node, v, b) && Above(node, u, a) && 0 < |b| == 2 * |v| && |b| <= |a|
    ensures FullPath(node, empty, b, a) == FullPath(node, empty, v, u)
  {
    RootUp(node, empty, v, b);
    SubproofUp(node, empty, u, a, |b|, |v|, 0, |u|, true);
    assert IsPowerOfTwo(|b|) == IsPowerOfTwo(|v|) by {
      assert |b| / 2 == |v|;
    }
  }

  lemma {:induction false} FullPathOfALeftNode(node: PairHash, empty: Digest, b: seq<Digest>, a: seq<Digest>, i: nat, h: nat)
    requires |b| == i + 1 < |a| && i == 2 * h && Agree(b, a, i + 1)
    ensures FullPath(node, empty, b, a) == [a[i]] + InclusionProof(node, empty, a, i)
  {
    SubproofIsAPath(node, empty, i, h, a, 0, |a|, true);
    assert IsPowerOfTwo(i + 1) <==> h == 0 by {
      assert (i + 1) % 2 == 1;
    }
    assert h == 0 ==> Root(node, empty, b) == a[0];
  }

  lemma AgreementGoesUp(node: PairHash, v: seq<Digest>, b: seq<Digest>, u: seq<Digest>, a: seq<Digest>)
    requires Above(node, v, b) && Above(node, u, a) && |b| == 2 * |v| <= |a| && Agree(b, a, |b|)
    ensures Agree(v, u, |v|)
  {}

  lemma {:induction false} FullPathReachesHere(node: PairHash, empty: Digest, b: seq<Digest>, a: seq<Digest>, i: nat, h: nat)
    requires |b| == i + 1 < |a| && i == 2 * h && Agree(b, a, |b|)
    ensures
      var path := FullPath(node, empty, b, a);
      path != [] && ReachesBoth(node, path[0], i, |a| - 1, path[1..], Root(node, empty, b), Root(node, empty, a))
  {
    var path := FullPath(node, empty, b, a);
    FullPathOfALeftNode(node, empty, b, a, i, h);
    BothComplete(node, empty, b, a, i);
    Following(a[i], InclusionProof(node, empty, a, i));
    ReachesHere(node, path[0], i, h, |a|, path[1..], Root(node, empty, b), Root(node, empty, a));
  }

  /** What the loop is given reaches both roots. */
  lemma {:induction false} FullPathReaches(node: PairHash, empty: Digest, b: seq<Digest>, a: seq<Digest>)
    requires 0 < |b| < |a| && Agree(b, a, |b|)
    ensures
      var path := FullPath(node, empty, b, a);
      path != [] && ReachesBoth(node, path[0], |b| - 1, |a| - 1, path[1..], Root(node, empty, b), Root(node, empty, a))
    decreases |a|
  {
    var path, h := FullPath(node, empty, b, a), |b| / 2;
    if |b| == 2 * h {
      var v, u := Up(node, b), Up(node, a);
      AgreementGoesUp(node, v, b, u, a);
      FullPathUp(node, empty, v, b, u, a);
      FullPathReaches(node, empty, v, u);
      ReachesAbove(node, empty, v, b, u, a, path[0], path[1..]);
    } else {
      FullPathReachesHere(node, empty, b, a, |b| - 1, h);
    }
  }

  /** Every consistency proof verifies against the two roots. */
  lemma ConsistencyComplete(node: PairHash, empty: Digest, d: seq<Digest>, m: nat)
    requires m <= |d|
    ensures Consistent(node, m, |d|, Root(node, empty, d[..m]), Root(node, empty, d), ConsistencyProof(node, empty, d, m))
  {
    if 0 < m < |d| {
      FullPathReaches(node, empty, d[..m], d);
      assert [] + ConsistencyProof(node, empty, d, m) == ConsistencyProof(node, empty, d, m);
    } else {
      assert m == |d| ==> d[..m] == d;
    }
  }

  lemma {:induction false} PrefixFromHere(node: PairHash, empty: Digest, b: seq<Digest>, a: seq<Digest>, i: nat, h: nat, seed: Digest, path: seq<Digest>)
    requires Injective(node) && |b| == i + 1 <= |a| && i == 2 * h
    requires ReachesBoth(node, seed, i, |a| - 1, path, Root(node, empty, b), Root(node, empty, a))
    ensures Agree(b, a, |b|)
  {
    ReachesHere(node, seed, i, h, |a|, path, Root(node, empty, b), Root(node, empty, a));
    BothSound(node, empty, b, a, i, seed, seed, path);
  }

  lemma {:induction false} PrefixFromAbove(node: PairHash, v: seq<Digest>, b: seq<Digest>, u: seq<Digest>, a: seq<Digest>)
    requires Injective(node) && Above(node, v, b) && Above(node, u, a) && |b| == 2 * |v| <= |a| && Agree(v, u, |v|)
    ensures Agree(b, a, |b|)
  {
    PairsAgree(node, v, b, u, a, |v|);
  }

  lemma {:induction false} ReachingBothMeansPrefix(node: PairHash, empty: Digest, b: seq<Digest>, a: seq<Digest>, seed: Digest, path: seq<Digest>)
    requires Injective(node) && 0 < |b| <= |a|
    requires ReachesBoth(node, seed, |b| - 1, |a| - 1, path, Root(node, empty, b), Root(node, empty, a))
    ensures Agree(b, a, |b|)
    decreases |a|
  {
    var v, u, h := Up(node, b), Up(node, a), |b| / 2;
    if |b| == 2 * h {
      ReachesAbove(node, empty, v, b, u, a, seed, path);
      ReachingBothMeansPrefix(node, empty, v, u, seed, path);
      PrefixFromAbove(node, v, b, u, a);
    } else {
      PrefixFromHere(node, empty, b, a, |b| - 1, h, seed, path);
    }
  }

  lemma {:induction false} RootsAgree(node: PairHash, empty: Digest, a: seq<Digest>, b: seq<Digest>)
    requires Injective(node) && 0 < |a| == |b| && Root(node, empty, a) == Root(node, empty, b)
    ensures Agree(a, b, |a|)
    decreases |a|
  {
    if |a| > 1 {
      var u, v := Up(node, a), Up(node, b);
      RootUp(node, empty, u, a);
      RootUp(node, empty, v, b);
      RootsAgree(node, empty, u, v);
      var h := |a| / 2;
      PairsAgree(node, u, a, v, b, h);
      if |a| == 2 * h + 1 {
        assert u[h] == a[2 * h] && v[h] == b[2 * h];
      }
    }
  }

  /** With an injective hash, two lists of one length with one root are one list. */
  lemma RootBindsTheLeaves(node: PairHash, empty: Digest, a: seq<Digest>, b: seq<Digest>)
    requires Injective(node) && |a| == |b| && Root(node, empty, a) == Root(node, empty, b)
    ensures a == b
  {
    if a != [] {
      RootsAgree(node, empty, a, b);
    }
  }

  /** With an injective hash, the verifier accepts some proof for the roots of two leaf lists exactly when
      the first list is a prefix of the second. */
  lemma ConsistencyMeansPrefix(node: PairHash, empty: Digest, b: seq<Digest>, a: seq<Digest>)
    requires Injective(node) && |b| <= |a|
    ensures (exists proof :: Consistent(node, |b|, |a|, Root(node, empty, b), Root(node, empty, a), proof)) <==> b == a[..|b|]
  {
    if b == a[..|b|] {
      ConsistencyComplete(node, empty, a, |b|);
    }
    forall proof | Consistent(node, |b|, |a|, Root(node, empty, b), Root(node, empty, a), proof)
      ensures b == a[..|b|]
    {
      AcceptedMeansPrefix(node, empty, b, a, proof);
    }
  }

  lemma {:induction false} AcceptedMeansPrefix(node: PairHash, empty: Digest, b: seq<Digest>, a: seq<Digest>, proof: seq<Digest>)
    requires Injective(node) && Consistent(node, |b|, |a|, Root(node, empty, b), Root(node, empty, a), proof)
    ensures |b| <= |a| && b == a[..|b|]
  {
    if |b| == |a| {
      if b != [] {
        RootBindsTheLeaves(node, empty, b, a);
      }
      assert a[..|b|] == a;
    } else if b != [] {
      var path := if IsPowerOfTwo(|b|) then [Root(node, empty, b)] + proof else proof;
      ReachingBothMeansPrefix(node, empty, b, a, path[0], path[1..]);
    }
  }

  /** Climbing to one root leaves no choice of the node begun at or of the path. */
  lemma {:induction false} OneWayUp(
    node: PairHash, fr: Digest, sr: Digest, gr: Digest, tr: Digest, fn: nat, sn: nat, path: seq<Digest>, other: seq<Digest>)
    requires Injective(node) && fn <= sn
    requires
      var a, b := ClimbBoth(node, fr, sr, fn, sn, path), ClimbBoth(node, gr, tr, fn, sn, other);
      a.Some? && b.Some? && a.value.1 == b.value.1
    ensures sr == tr && path == other
    decreases sn
  {
    if sn != 0 {
      if fn % 2 == 0 && fn == sn {
        OneWayUp(node, fr, sr, gr, tr, fn / 2, sn / 2, path, other);
      } else if fn % 2 == 1 {
        OneWayUp(node, node(path[0], fr), node(path[0], sr), node(other[0], gr), node(other[0], tr), fn / 2, sn / 2, path[1..], other[1..]);
        assert path == [path[0]] + path[1..] && other == [other[0]] + other[1..];
      } else {
        OneWayUp(node, fr, node(sr, path[0]), gr, node(tr, other[0]), fn / 2, sn / 2, path[1..], other[1..]);
        assert path == [path[0]] + path[1..] && other == [other[0]] + other[1..];
      }
    }
  }

  lemma {:induction false} OneWayToBoth(
    node: PairHash, seed: Digest, other: Digest, fn: nat, sn: nat, path: seq<Digest>, path': seq<Digest>, firstRoot: Digest, secondRoot: Digest)
    requires Injective(node) && fn <= sn
    requires ReachesBoth(node, seed, fn, sn, path, firstRoot, secondRoot) && ReachesBoth(node, other, fn, sn, path', firstRoot, secondRoot)
    ensures seed == other && path == path'
    decreases fn
  {
    if fn % 2 == 1 {
      OneWayToBoth(node, seed, other, fn / 2, sn / 2, path, path', firstRoot, secondRoot);
    } else {
      OneWayUp(node, seed, seed, other, other, fn, sn, path, path');
    }
  }

  /** Two sizes and two roots are proved consistent by one proof at most; for the roots of a log and of its first
      leaves that is the one the tree gives. */
  lemma {:induction false} OneConsistencyProof(
    node: PairHash, empty: Digest, d: seq<Digest>, first: nat, second: nat, firstRoot: Digest, secondRoot: Digest, p: seq<Digest>, q: seq<Digest>)
    requires Injective(node) && Consistent(node, first, second, firstRoot, secondRoot, p)
    ensures Consistent(node, first, second, firstRoot, secondRoot, q) ==> p == q
    ensures second == |d| && firstRoot == Root(node, empty, d[..first]) && secondRoot == Root(node, empty, d) ==> p == ConsistencyProof(node, empty, d, first)
  {
    if second == |d| && firstRoot == Root(node, empty, d[..first]) && secondRoot == Root(node, empty, d) {
      ConsistencyComplete(node, empty, d, first);
      SameProof(node, first, second, firstRoot, secondRoot, p, ConsistencyProof(node, empty, d, first));
    }
    if Consistent(node, first, second, firstRoot, secondRoot, q) {
      SameProof(node, first, second, firstRoot, secondRoot, p, q);
    }
  }

  lemma {:induction false} SameProof(
    node: PairHash, first: nat, second: nat, firstRoot: Digest, secondRoot: Digest, p: seq<Digest>, q: seq<Digest>)
    requires Injective(node)
    requires Consistent(node, first, second, firstRoot, secondRoot, p) && Consistent(node, first, second, firstRoot, secondRoot, q)
    ensures p == q
  {
    if 0 < first < second {
      var a := if IsPowerOfTwo(first) then [firstRoot] + p else p;
      var b := if IsPowerOfTwo(first) then [firstRoot] + q else q;
      OneWayToBoth(node, a[0], b[0], first - 1, second - 1, a[1..], b[1..], firstRoot, secondRoot);
      assert a == [a[0]] + a[1..] && b == [b[0]] + b[1..];
      assert IsPowerOfTwo(first) ==> a[1..] == p && b[1..] == q;
    }
  }

  /** The trees of up to three leaves and of five, written out. */
  lemma {:induction false} SmallTrees(node: PairHash, empty: Digest, a: Digest, b: Digest, c: Digest, d: Digest, e: Digest)
    ensures Root(node, empty, []) == empty && Root(node, empty, [a]) == a && Root(node, empty, [a, b]) == node(a, b)
    ensures Root(node, empty, [a, b, c]) == node(node(a, b), c)
    ensures Root(node, empty, [a, b, c, d, e]) == node(node(node(a, b), node(c, d)), e)
  {
    hide TreeHash;
    FewLeaves(node, empty, [], 0);
    FewLeaves(node, empty, [a], 0);
    FewLeaves(node, empty, [a, b], 0);
    RootUp(node, empty, [node(a, b), c], [a, b, c]);
    FewLeaves(node, empty, [node(a, b), c], 0);
    RootUp(node, empty, [node(a, b), node(c, d), e], [a, b, c, d, e]);
    RootUp(node, empty, [node(node(a, b), node(c, d)), e], [node(a, b), node(c, d), e]);
    FewLeaves(node, empty, [node(node(a, b), node(c, d)), e], 0);
  }

  lemma {:induction false} FewLeaves(node: PairHash, empty: Digest, d: seq<Digest>, lo: nat)
    requires lo <= |d| <= lo + 2
    ensures TreeHash(node, empty, d, lo, |d|)
         == if |d| == lo then empty else if |d| == lo + 1 then d[lo] else node(d[lo], d[lo + 1])
  {
    if |d| == lo + 2 {
      assert SplitPoint(2) == 1;
      assert TreeHash(node, empty, d, lo, lo + 1) == d[lo] && TreeHash(node, empty, d, lo + 1, lo + 2) == d[lo + 1];
    }
  }
}
