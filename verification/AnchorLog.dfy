/** `anchor()` of the gateway: one more commitment to the receipt log, refused when the log no longer matches
    the previous one. The store may change in any way between calls, and calls may overlap. Receipts are
    their canonical text; the digests are parameters, collision-free where a proof needs it. */
module AnchorLog {
  import opened Foundations
  import Rfc = Rfc9162
  import V1 = MerkleV1

  /** What an anchor's hash is taken over. `legacy` is a v1 anchor, over the older tree. */
  datatype Body = Body(legacy: bool, sequence: nat, size: nat, root: Digest, prev: Option<Digest>, at: Time)

  datatype Anchor = Anchor(body: Body, hash: Digest)

  datatype Hashes = Hashes(
    leaf: string -> Digest, node: PairHash, empty: Digest,
    legacyLeaf: string -> Digest, legacyPair: PairHash, legacyEmpty: Digest,
    seal: Body -> Digest)

  ghost predicate CollisionFree(h: Hashes) {
    && Injective(h.node) && Injective(h.legacyPair)
    && (forall x, y :: h.leaf(x) == h.leaf(y) ==> x == y)
    && (forall x, y :: h.legacyLeaf(x) == h.legacyLeaf(y) ==> x == y)
    && (forall x, y :: h.seal(x) == h.seal(y) ==> x == y)
  }

  function Leaves(f: string -> Digest, receipts: seq<string>): (r: seq<Digest>)
    ensures |r| == |receipts| && forall i :: 0 <= i < |r| ==> r[i] == f(receipts[i])
  {
    seq(|receipts|, i requires 0 <= i < |receipts| => f(receipts[i]))
  }

  function RootOf(h: Hashes, legacy: bool, receipts: seq<string>): Digest {
    if legacy then V1.Root(h.legacyPair, h.legacyEmpty, Leaves(h.legacyLeaf, receipts))
    else Rfc.Root(h.node, h.empty, Leaves(h.leaf, receipts))
  }

  /** The anchor commits to exactly these receipts. */
  predicate Commits(h: Hashes, a: Anchor, receipts: seq<string>) {
    |receipts| == a.body.size && RootOf(h, a.body.legacy, receipts) == a.body.root
  }

  /** With collision-free digests an anchor commits to one list only, whichever tree it uses. */
  lemma {:induction false} OneListPerAnchor(h: Hashes, a: Anchor, r: seq<string>, s: seq<string>)
    requires CollisionFree(h) && Commits(h, a, r) && Commits(h, a, s)
    ensures r == s
  {
    var f := if a.body.legacy then h.legacyLeaf else h.leaf;
    if a.body.legacy {
      V1.RootBindsTheList(h.legacyPair, h.legacyEmpty, Leaves(f, r), Leaves(f, s));
    } else {
      Rfc.RootBindsTheLeaves(h.node, h.empty, Leaves(f, r), Leaves(f, s));
    }
    forall i | 0 <= i < |r| ensures r[i] == s[i] {
      assert Leaves(f, r)[i] == Leaves(f, s)[i];
    }
  }

  function Last(log: seq<Anchor>): Option<Anchor> {
    if log == [] then None else Some(log[|log| - 1])
  }

  /** The log still begins with what `prev` committed to. */
  predicate StillThere(h: Hashes, prev: Option<Anchor>, receipts: seq<string>) {
    prev.Some? ==> prev.value.body.size <= |receipts| && Commits(h, prev.value, receipts[..prev.value.body.size])
  }

  function Next(h: Hashes, prev: Option<Anchor>, receipts: seq<string>, now: Time): Anchor {
    var b := Body(
               false, (if prev.Some? then prev.value.body.sequence else 0) + 1, |receipts|, RootOf(h, false, receipts),
               if prev.Some? then Some(prev.value.hash) else None, now);
    Anchor(b, h.seal(b))
  }

  /** The anchor a call makes over the receipts it listed and the anchors it read, or None when it refuses. */
  function Anchored(h: Hashes, log: seq<Anchor>, receipts: seq<string>, now: Time): Option<Anchor> {
    if StillThere(h, Last(log), receipts) then Some(Next(h, Last(log), receipts, now)) else None
  }

  // ── The call on a store no one else uses ──

  class Store {
    var receipts: seq<string>
    var anchors: seq<Anchor>

    constructor ()
      ensures receipts == [] && anchors == []
    {
      receipts, anchors := [], [];
    }

    method Put(receipt: string)
      modifies this`receipts
      ensures receipts == old(receipts) + [receipt]
    {
      receipts := receipts + [receipt];
    }

    /** `anchor()`; None stands for the error it throws. */
    method MakeAnchor(h: Hashes, now: Time) returns (made: Option<Anchor>)
      modifies this`anchors
      ensures made == Anchored(h, old(anchors), receipts, now)
      ensures anchors == old(anchors) + if made.Some? then [made.value] else []
    {
      var leaves := [];
      for i := 0 to |receipts|
        invariant leaves == Leaves(h.leaf, receipts)[..i]
        invariant anchors == old(anchors)
      {
        leaves := leaves + [h.leaf(receipts[i])];
      }
      assert leaves == Leaves(h.leaf, receipts);
      var prev := if anchors == [] then None else Some(anchors[|anchors| - 1]);
      if prev.Some? {
        var size := prev.value.body.size;
        if !(size <= |receipts| && Commits(h, prev.value, receipts[..size])) {
          return None;
        }
      }
      var body := Body(
        false, (if prev.Some? then prev.value.body.sequence else 0) + 1, |leaves|, Rfc.Root(h.node, h.empty, leaves),
        if prev.Some? then Some(prev.value.hash) else None, now);
      made := Some(Anchor(body, h.seal(body)));
      anchors := anchors + [made.value];
    }
  }

  // ── Overlapping calls ──

  /** Where a call is: it lists the receipts, then reads the anchors and decides, then puts its anchor. */
  datatype Call = Listed(receipts: seq<string>) | Decided(issue: Issue)

  /** An anchor, what it was made over, and the anchor read as the last one. */
  datatype Issue = Issue(anchor: Anchor, receipts: seq<string>, parent: Option<Anchor>)

  /** A store that appends anchors, with what was put since the start in `issued`. */
  datatype World = World(receipts: seq<string>, log: seq<Anchor>, issued: seq<Issue>, calls: map<nat, Call>)

  /** `Change` is any write to the receipts, by anyone. */
  datatype Event = Change(receipts: seq<string>) | List(call: nat) | Decide(call: nat, now: Time) | Put(call: nat)

  function Apply(h: Hashes, w: World, e: Event): World {
    match e
    case Change(receipts) => w.(receipts := receipts)
    case List(c) => if c in w.calls then w else w.(calls := w.calls[c := Listed(w.receipts)])
    case Decide(c, now) =>
      if c !in w.calls || !w.calls[c].Listed? then w
      else
        var receipts := w.calls[c].receipts;
        var made := Anchored(h, w.log, receipts, now);
        if made.None? then w.(calls := w.calls - {c})
        else w.(calls := w.calls[c := Decided(Issue(made.value, receipts, Last(w.log)))])
    case Put(c) =>
      if c !in w.calls || !w.calls[c].Decided? then w
      else
        var issue := w.calls[c].issue;
        World(w.receipts, w.log + [issue.anchor], w.issued + [issue], w.calls - {c})
  }

  function Run(h: Hashes, w: World, events: seq<Event>): World
    decreases events
  {
    if events == [] then w else Run(h, Apply(h, w, events[0]), events[1..])
  }

  predicate Extends(a: Anchor, parent: Anchor) {
    a.body.prev == Some(parent.hash) && a.body.sequence == parent.body.sequence + 1 && parent.body.size <= a.body.size
  }

  /** The issue commits to its receipts and continues its parent, whose own receipts it begins with. */
  predicate Sound(h: Hashes, i: Issue) {
    && Commits(h, i.anchor, i.receipts) && i.anchor.hash == h.seal(i.anchor.body)
    && StillThere(h, i.parent, i.receipts)
    && (i.parent.Some? ==> Extends(i.anchor, i.parent.value))
    && (i.parent.None? ==> i.anchor.body.prev.None? && i.anchor.body.sequence == 1)
  }

  /** The last anchor once the first `n` issues have been put. */
  function LastAfter(start: seq<Anchor>, issued: seq<Issue>, n: nat): Option<Anchor>
    requires n <= |issued|
  {
    if n == 0 then Last(start) else Some(issued[n - 1].anchor)
  }

  /** The parent was the last anchor once some of the first `n` issues had been put. */
  predicate Known(start: seq<Anchor>, issued: seq<Issue>, n: nat, parent: Option<Anchor>)
    requires n <= |issued|
  {
    exists m | 0 <= m <= n :: parent == LastAfter(start, issued, m)
  }

  ghost predicate Inv(h: Hashes, start: seq<Anchor>, w: World) {
    && Last(w.log) == LastAfter(start, w.issued, |w.issued|)
    && (forall k :: 0 <= k < |w.issued| ==> Sound(h, w.issued[k]) && Known(start, w.issued, k, w.issued[k].parent))
    && (forall c :: c in w.calls && w.calls[c].Decided? ==>
          Sound(h, w.calls[c].issue) && Known(start, w.issued, |w.issued|, w.calls[c].issue.parent))
  }

  /** What an anchor says of its own making, and that it is made unless there is a last one whose receipts the log no
      longer begins with. */
  lemma AnAnchorSays(h: Hashes, log: seq<Anchor>, receipts: seq<string>, now: Time)
    ensures
      var made := Anchored(h, log, receipts, now);
      && (made.None? <==>
            && log != []
            && var last := log[|log| - 1];
               last.body.size > |receipts| || RootOf(h, last.body.legacy, receipts[..last.body.size]) != last.body.root)
      && (made.Some? ==>
            var a := made.value;
            && !a.body.legacy && a.body.size == |receipts| && a.body.root == Rfc.Root(h.node, h.empty, Leaves(h.leaf, receipts))
            && a.body.at == now && a.hash == h.seal(a.body)
            && (log == [] ==> a.body.sequence == 1 && a.body.prev == None)
            && (log != [] ==> a.body.sequence == log[|log| - 1].body.sequence + 1 && a.body.prev == Some(log[|log| - 1].hash)))
  {}

  lemma DecisionIsSound(h: Hashes, log: seq<Anchor>, receipts: seq<string>, now: Time)
    requires Anchored(h, log, receipts, now).Some?
    ensures Sound(h, Issue(Anchored(h, log, receipts, now).value, receipts, Last(log)))
  {}

  lemma {:induction false} StepKeepsInv(h: Hashes, start: seq<Anchor>, w: World, e: Event)
    requires Inv(h, start, w)
    ensures Inv(h, start, Apply(h, w, e))
  {
    match e
    case Change(_) =>
    case List(_) =>
    case Decide(c, now) =>
      if c in w.calls && w.calls[c].Listed? && Anchored(h, w.log, w.calls[c].receipts, now).Some? {
        DecisionIsSound(h, w.log, w.calls[c].receipts, now);
      }
    case Put(c) =>
      if c in w.calls && w.calls[c].Decided? {
        var w' := Apply(h, w, e);
        forall k | 0 <= k < |w'.issued| ensures Sound(h, w'.issued[k]) && Known(start, w'.issued, k, w'.issued[k].parent) {
          KnownLater(start, w.issued, w'.issued, k, w'.issued[k].parent);
        }
        forall d | d in w'.calls && w'.calls[d].Decided?
          ensures Known(start, w'.issued, |w'.issued|, w'.calls[d].issue.parent)
        {
          KnownLater(start, w.issued, w'.issued, |w.issued|, w'.calls[d].issue.parent);
        }
      }
  }

  lemma KnownLater(start: seq<Anchor>, issued: seq<Issue>, later: seq<Issue>, n: nat, parent: Option<Anchor>)
    requires n <= |issued| && issued <= later && Known(start, issued, n, parent)
    ensures Known(start, later, n, parent) && Known(start, later, |later|, parent)
  {
    var m :| 0 <= m <= n && parent == LastAfter(start, issued, m);
    assert parent == LastAfter(start, later, m);
  }

  lemma {:induction false} RunKeepsInv(h: Hashes, start: seq<Anchor>, w: World, events: seq<Event>)
    requires Inv(h, start, w)
    ensures Inv(h, start, Run(h, w, events))
    decreases events
  {
    if events != [] {
      StepKeepsInv(h, start, w, events[0]);
      RunKeepsInv(h, start, Apply(h, w, events[0]), events[1..]);
    }
  }

  function Start(receipts: seq<string>, log: seq<Anchor>): World {
    World(receipts, log, [], map[])
  }

  /** In every interleaving, each anchor put names the anchor that was last when it was decided (none only when
      there was none), is one further in sequence, is never smaller, and any list that one committed
      to is a prefix of its own. */
  lemma {:induction false} EveryAnchorExtendsItsParent(
    h: Hashes, receipts: seq<string>, log: seq<Anchor>, events: seq<Event>, k: nat, list: seq<string>)
    requires CollisionFree(h) && k < |Run(h, Start(receipts, log), events).issued|
    ensures
      var issued := Run(h, Start(receipts, log), events).issued;
      var i := issued[k];
      && Commits(h, i.anchor, i.receipts) && i.anchor.hash == h.seal(i.anchor.body) && Known(log, issued, k, i.parent)
      && (i.parent.Some? ==> Extends(i.anchor, i.parent.value) && (Commits(h, i.parent.value, list) ==> list <= i.receipts))
  {
    RunKeepsInv(h, log, Start(receipts, log), events);
    var i := Run(h, Start(receipts, log), events).issued[k];
    assert Sound(h, i);
    if i.parent.Some? && Commits(h, i.parent.value, list) {
      OneListPerAnchor(h, i.parent.value, list, i.receipts[..i.parent.value.body.size]);
    }
  }

  /** Every anchor put names the one that is last as it is put: no other put came between. Running calls one
      after another gives this, whatever else changes the store. */
  predicate NoneOvertaken(h: Hashes, w: World, events: seq<Event>)
    decreases events
  {
    events == [] ||
    (StillLast(w, events[0]) && NoneOvertaken(h, Apply(h, w, events[0]), events[1..]))
  }

  predicate StillLast(w: World, e: Event) {
    e.Put? && e.call in w.calls && w.calls[e.call].Decided? ==> w.calls[e.call].issue.parent == Last(w.log)
  }

  function SequenceAfter(start: seq<Anchor>, issued: seq<Issue>, n: nat): nat
    requires n <= |issued|
  {
    var last := LastAfter(start, issued, n);
    if last.Some? then last.value.body.sequence else 0
  }

  /** Sequence numbers rise by one, from the last anchor there was at the start. */
  ghost predicate Rising(start: seq<Anchor>, issued: seq<Issue>) {
    forall k :: 0 <= k <= |issued| ==> SequenceAfter(start, issued, k) == SequenceAfter(start, issued, 0) + k
  }

  lemma {:induction false} RisesWhenStillLast(h: Hashes, start: seq<Anchor>, w: World, e: Event)
    requires Inv(h, start, w)
    ensures Rising(start, Apply(h, w, e).issued) <==> Rising(start, w.issued) && (Rising(start, w.issued) ==> StillLast(w, e))
  {
    if e.Put? && e.call in w.calls && w.calls[e.call].Decided? {
      RisesWhenItsParentIsLast(start, w.issued, w.calls[e.call].issue, h);
    }
  }

  lemma {:induction false} RisesWhenItsParentIsLast(start: seq<Anchor>, issued: seq<Issue>, i: Issue, h: Hashes)
    requires Sound(h, i) && Known(start, issued, |issued|, i.parent)
    ensures Rising(start, issued + [i]) <==> Rising(start, issued) && i.parent == LastAfter(start, issued, |issued|)
  {
    var n, later := |issued|, issued + [i];
    forall k | 0 <= k <= n ensures SequenceAfter(start, later, k) == SequenceAfter(start, issued, k) {}
    var m :| 0 <= m <= n && i.parent == LastAfter(start, issued, m);
    assert SequenceAfter(start, later, n + 1) == SequenceAfter(start, issued, m) + 1;
    if Rising(start, later) {
      assert SequenceAfter(start, later, m) == SequenceAfter(start, later, 0) + m;
      assert m == n;
      forall k | 0 <= k <= n ensures SequenceAfter(start, issued, k) == SequenceAfter(start, issued, 0) + k {
        assert SequenceAfter(start, later, k) == SequenceAfter(start, later, 0) + k;
      }
    }
    if Rising(start, issued) && i.parent == LastAfter(start, issued, n) {
      assert SequenceAfter(start, issued, n) == SequenceAfter(start, issued, 0) + n;
      forall k | 0 <= k <= n + 1 ensures SequenceAfter(start, later, k) == SequenceAfter(start, later, 0) + k {
        assert k <= n ==> SequenceAfter(start, issued, k) == SequenceAfter(start, issued, 0) + k;
      }
    }
  }

  lemma {:induction false} RisingRuns(h: Hashes, start: seq<Anchor>, w: World, events: seq<Event>)
    requires Inv(h, start, w)
    ensures Rising(start, Run(h, w, events).issued) <==> Rising(start, w.issued) && NoneOvertaken(h, w, events)
    decreases events
  {
    if events != [] {
      RisesWhenStillLast(h, start, w, events[0]);
      StepKeepsInv(h, start, w, events[0]);
      RisingRuns(h, start, Apply(h, w, events[0]), events[1..]);
    }
  }

  /** Sequence numbers rise by one exactly when no put overtakes another call's. */
  lemma {:induction false} SequenceRisesExactlyWhenNoneOvertaken(h: Hashes, receipts: seq<string>, log: seq<Anchor>, events: seq<Event>)
    ensures Rising(log, Run(h, Start(receipts, log), events).issued) <==> NoneOvertaken(h, Start(receipts, log), events)
  {
    RisingRuns(h, log, Start(receipts, log), events);
  }

  predicate Follows(start: seq<Anchor>, issued: seq<Issue>, k: nat)
    requires k < |issued|
  {
    issued[k].parent == LastAfter(start, issued, k)
  }

  /** What was put since the start is one chain, from the last anchor there was. */
  ghost predicate Chained(start: seq<Anchor>, issued: seq<Issue>) {
    forall k :: 0 <= k < |issued| ==> Follows(start, issued, k)
  }

  lemma {:induction false} StepKeepsChain(h: Hashes, start: seq<Anchor>, w: World, e: Event)
    requires Inv(h, start, w) && Chained(start, w.issued) && StillLast(w, e)
    ensures Chained(start, Apply(h, w, e).issued)
  {
    if e.Put? && e.call in w.calls && w.calls[e.call].Decided? {
      var issued := Apply(h, w, e).issued;
      forall k | 0 <= k < |issued| ensures Follows(start, issued, k) {
        assert k < |w.issued| ==> Follows(start, w.issued, k);
      }
    }
  }

  lemma {:induction false} RunKeepsChain(h: Hashes, start: seq<Anchor>, w: World, events: seq<Event>)
    requires Inv(h, start, w) && Chained(start, w.issued) && NoneOvertaken(h, w, events)
    ensures Inv(h, start, Run(h, w, events)) && Chained(start, Run(h, w, events).issued)
    decreases events
  {
    if events != [] {
      StepKeepsInv(h, start, w, events[0]);
      StepKeepsChain(h, start, w, events[0]);
      RunKeepsChain(h, start, Apply(h, w, events[0]), events[1..]);
    }
  }

  lemma {:induction false} ContinuesItsParent(h: Hashes, before: Issue, last: Issue)
    requires CollisionFree(h) && Sound(h, before) && Sound(h, last) && last.parent == Some(before.anchor)
    ensures last.anchor.body.sequence == before.anchor.body.sequence + 1 && before.receipts <= last.receipts
  {
    OneListPerAnchor(h, before.anchor, before.receipts, last.receipts[..before.anchor.body.size]);
  }

  lemma PrefixOfAPrefix(a: seq<string>, b: seq<string>, c: seq<string>)
    requires a <= b && b <= c
    ensures a <= c
  {}

  lemma {:induction false} ChainGrows(h: Hashes, start: seq<Anchor>, issued: seq<Issue>, i: nat, j: nat)
    requires CollisionFree(h) && Chained(start, issued) && i <= j < |issued|
    requires forall k :: 0 <= k < |issued| ==> Sound(h, issued[k])
    ensures issued[j].anchor.body.sequence == issued[i].anchor.body.sequence + (j - i)
    ensures issued[i].receipts <= issued[j].receipts
    decreases j
  {
    if i < j {
      ChainGrows(h, start, issued, i, j - 1);
      assert Follows(start, issued, j);
      ContinuesItsParent(h, issued[j - 1], issued[j]);
      PrefixOfAPrefix(issued[i].receipts, issued[j - 1].receipts, issued[j].receipts);
    }
  }

  /** The anchors commit to one growing log: when no put overtakes another call's, whatever the store does in
      between, sequence numbers rise by one, sizes never fall, and each anchored list is a
      prefix of every later one. */
  lemma {:induction false} OneGrowingLog(h: Hashes, receipts: seq<string>, log: seq<Anchor>, events: seq<Event>, i: nat, j: nat)
    requires CollisionFree(h) && NoneOvertaken(h, Start(receipts, log), events)
    requires i <= j < |Run(h, Start(receipts, log), events).issued|
    ensures
      var issued := Run(h, Start(receipts, log), events).issued;
      && issued[j].anchor.body.sequence == issued[i].anchor.body.sequence + (j - i)
      && issued[i].anchor.body.size <= issued[j].anchor.body.size
      && Commits(h, issued[i].anchor, issued[i].receipts) && Commits(h, issued[j].anchor, issued[j].receipts)
      && issued[i].receipts <= issued[j].receipts
  {
    var w := Start(receipts, log);
    RunKeepsChain(h, log, w, events);
    var issued := Run(h, w, events).issued;
    assert Sound(h, issued[i]) && Sound(h, issued[j]);
    ChainGrows(h, log, issued, i, j);
  }

  /** Between two anchors over lists of which the shorter comes first, the proof made from the longer list
      verifies; and when any proof verifies between two anchors, the earlier list is a prefix of the later. */
  lemma {:induction false} ConsistencyBetweenAnchors(h: Hashes, a: Anchor, r: seq<string>, b: Anchor, s: seq<string>)
    requires CollisionFree(h) && !a.body.legacy && !b.body.legacy && Commits(h, a, r) && Commits(h, b, s)
    ensures r <= s ==> Rfc.Consistent(h.node, a.body.size, b.body.size, a.body.root, b.body.root,
                                      Rfc.ConsistencyProof(h.node, h.empty, Leaves(h.leaf, s), a.body.size))
    ensures forall proof :: Rfc.Consistent(h.node, a.body.size, b.body.size, a.body.root, b.body.root, proof) ==> r <= s
  {
    var p, q := Leaves(h.leaf, r), Leaves(h.leaf, s);
    if r <= s {
      assert p == q[..|p|];
      Rfc.ConsistencyComplete(h.node, h.empty, q, |p|);
    }
    forall proof | Rfc.Consistent(h.node, |p|, |q|, a.body.root, b.body.root, proof) ensures r <= s {
      Rfc.AcceptedMeansPrefix(h.node, h.empty, p, q, proof);
      forall i | 0 <= i < |r| ensures r[i] == s[i] {
        assert p[i] == q[..|p|][i] == q[i];
      }
    }
  }

  /** The condition is needed: two calls that both decide on an empty log put two anchors with one sequence
      number, and the log of anchors shrinks from two receipts to one. */
  lemma {:induction false} TwoOverlappingCallsForkTheLog(h: Hashes, t: Time)
    ensures
      var events := [List(0), Decide(0, t), Change(["a", "b"]), List(1), Decide(1, t), Put(1), Put(0)];
      var w := Run(h, Start(["a"], []), events);
      && |w.log| == 2 && w.log[0].body.sequence == w.log[1].body.sequence == 1
      && w.log[0].body.size == 2 && w.log[1].body.size == 1
  {
    var a := Issue(Next(h, None, ["a"], t), ["a"], None);
    var rest := [List(1), Decide(1, t), Put(1), Put(0)];
    var w0 := Start(["a"], []);
    var w1 := w0.(calls := map[0 := Listed(["a"])]);
    var w2 := w0.(calls := map[0 := Decided(a)]);
    var w3 := w2.(receipts := ["a", "b"]);
    TheSecondCallOvertakes(h, t, a, w3, rest);
    OneStep(h, w2, Change(["a", "b"]), rest, w3);
    OneStep(h, w1, Decide(0, t), [Change(["a", "b"])] + rest, w2);
    OneStep(h, w0, List(0), [Decide(0, t)] + ([Change(["a", "b"])] + rest), w1);
    assert [List(0), Decide(0, t), Change(["a", "b"]), List(1), Decide(1, t), Put(1), Put(0)] ==
           [List(0)] + ([Decide(0, t)] + ([Change(["a", "b"])] + rest));
  }

  lemma {:induction false} TheSecondCallOvertakes(h: Hashes, t: Time, a: Issue, w: World, rest: seq<Event>)
    requires w == World(["a", "b"], [], [], map[0 := Decided(a)]) && rest == [List(1), Decide(1, t), Put(1), Put(0)]
    ensures Run(h, w, rest).log == [Next(h, None, ["a", "b"], t), a.anchor]
  {
    var b := Issue(Next(h, None, ["a", "b"], t), ["a", "b"], None);
    var w1 := w.(calls := map[0 := Decided(a), 1 := Listed(["a", "b"])]);
    var w2 := w.(calls := map[0 := Decided(a), 1 := Decided(b)]);
    var w3 := World(["a", "b"], [b.anchor], [b], map[0 := Decided(a)]);
    var w4 := World(["a", "b"], [b.anchor, a.anchor], [b, a], map[]);
    assert w2.calls - {1} == w3.calls && w3.calls - {0} == w4.calls;
    OneStep(h, w3, Put(0), [], w4);
    OneStep(h, w2, Put(1), [Put(0)], w3);
    OneStep(h, w1, Decide(1, t), [Put(1)] + [Put(0)], w2);
    OneStep(h, w, List(1), [Decide(1, t)] + ([Put(1)] + [Put(0)]), w1);
    assert rest == [List(1)] + ([Decide(1, t)] + ([Put(1)] + [Put(0)]));
  }

  lemma {:induction false} OneStep(h: Hashes, w: World, e: Event, rest: seq<Event>, next: World)
    requires Apply(h, w, e) == next
    ensures Run(h, w, [e] + rest) == Run(h, next, rest)
    ensures rest == [] ==> Run(h, w, [e]) == next
  {
    assert ([e] + rest)[1..] == rest;
    assert rest == [] ==> [e] + rest == [e];
  }

  // ── The chain of hashes ──

  predicate Names(log: seq<Anchor>, k: nat)
    requires k < |log|
  {
    log[k].body.prev == if k == 0 then None else Some(log[k - 1].hash)
  }

  /** Every anchor hashes its own body and names the one before; the first names none. */
  ghost predicate HashChain(h: Hashes, log: seq<Anchor>) {
    && (forall k :: 0 <= k < |log| ==> log[k].hash == h.seal(log[k].body))
    && (forall k :: 0 <= k < |log| ==> Names(log, k))
  }

  /** The last anchor's hash fixes every anchor before it. */
  lemma {:induction false} LastHashBindsTheLog(h: Hashes, a: seq<Anchor>, b: seq<Anchor>)
    requires CollisionFree(h) && HashChain(h, a) && HashChain(h, b) && a != [] && b != []
    requires a[|a| - 1].hash == b[|b| - 1].hash
    ensures a == b
    decreases |a|
  {
    var m, n := |a| - 1, |b| - 1;
    SealedAlike(h, a[m], b[n]);
    assert Names(a, m) && Names(b, n);
    if m > 0 {
      forall k | 0 <= k < m ensures Names(a[..m], k) {
        assert Names(a, k);
      }
      forall k | 0 <= k < n ensures Names(b[..n], k) {
        assert Names(b, k);
      }
      LastHashBindsTheLog(h, a[..m], b[..n]);
    }
    assert a == a[..m] + [a[m]] && b == b[..n] + [b[n]];
  }

  lemma SealedAlike(h: Hashes, a: Anchor, b: Anchor)
    requires CollisionFree(h) && a.hash == h.seal(a.body) && b.hash == h.seal(b.body) && a.hash == b.hash
    ensures a == b
  {}
}
