/** Small shared vocabulary: an optional value, hashes of pairs, and two facts about the size of a set's image. */
module Foundations {

  datatype Option<+T> = None | Some(value: T)

  /** Milliseconds since the epoch, as `Date.parse` and `Date.now` give them. */
  type Time = int

  type Digest = string

  /** The hash of two digests, as the inner nodes of a tree take it. */
  type PairHash = (Digest, Digest) -> Digest

  ghost predicate Injective(node: PairHash) {
    forall a, b, c, d :: node(a, b) == node(c, d) ==> a == c && b == d
  }

  function Max(a: int, b: int): int {
    if a < b then b else a
  }

  function Min(a: int, b: int): int {
    if a < b then a else b
  }

  predicate Distinct<T(==)>(s: seq<T>) {
    s == [] || (s[0] !in s[1..] && Distinct(s[1..]))
  }

  lemma {:induction false} DistinctByIndex<T>(s: seq<T>)
    ensures Distinct(s) <==> forall i, j :: 0 <= i < j < |s| ==> s[i] != s[j]
    decreases s
  {
    if s != [] {
      var rest := s[1..];
      DistinctByIndex(rest);
      forall i | 1 <= i < |s| ensures s[i] == rest[i - 1] {}
      if s[0] in rest {
        var k :| 0 <= k < |rest| && rest[k] == s[0];
        assert s[k + 1] == s[0];
      }
    }
  }

  /** A set that another maps onto is no larger. */
  lemma {:induction false} OntoAtMost<A, B>(s: set<A>, t: set<B>, f: A -> B)
    requires forall y :: y in t ==> exists x :: x in s && f(x) == y
    ensures |t| <= |s|
    decreases |t|
  {
    if t != {} {
      var y :| y in t;
      var x :| x in s && f(x) == y;
      OntoAtMost(s - {x}, t - {y}, f);
    }
  }

  /** A set mapped into another without collisions is no larger. */
  lemma {:induction false} IntoAtMost<A, B>(s: set<A>, t: set<B>, f: A -> B)
    requires forall x :: x in s ==> f(x) in t
    requires forall x, y :: x in s && y in s && f(x) == f(y) ==> x == y
    ensures |s| <= |t|
    decreases |s|
  {
    if s != {} {
      var x :| x in s;
      IntoAtMost(s - {x}, t - {f(x)}, f);
    }
  }

  /** A subset is never larger. */
  lemma {:induction false} SubsetAtMost<T>(a: set<T>, b: set<T>)
    requires a <= b
    ensures |a| <= |b|
  {
    assert b == a + (b - a);
  }
}
