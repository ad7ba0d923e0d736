/** The cache behind the public proof routes: leaf hashes of a prefix of the receipt log and each leaf's first
    position, extended by one shared pass at a time while any number of callers wait for it. The store only
    appends. */
module LeafCache {
  import opened Foundations
  import Log = AnchorLog
  import Rfc = Rfc9162

  datatype Entries = Entries(leaves: seq<Digest>, index: map<Digest, nat>)

  /** The cache holds the hashes of a prefix of the log, and for each the first place it stands at. */
  ghost predicate Faithful(f: string -> Digest, log: seq<string>, c: Entries) {
    && |c.leaves| <= |log|
    && (forall i :: 0 <= i < |c.leaves| ==> c.leaves[i] == f(log[i]))
    && (forall i :: 0 <= i < |c.leaves| ==> c.leaves[i] in c.index && c.index[c.leaves[i]] <= i)
    && (forall l :: l in c.index ==> c.index[l] < |c.leaves| && c.leaves[c.index[l]] == l)
  }

  function Pushed(f: string -> Digest, c: Entries, receipt: string): Entries {
    var leaf := f(receipt);
    Entries(c.leaves + [leaf], if leaf in c.index then c.index else c.index[leaf := |c.leaves|])
  }

  lemma PushKeepsFaithful(f: string -> Digest, log: seq<string>, c: Entries)
    requires Faithful(f, log, c) && |c.leaves| < |log|
    ensures Faithful(f, log, Pushed(f, c, log[|c.leaves|]))
  {}

  lemma GrowthKeepsFaithful(f: string -> Digest, log: seq<string>, longer: seq<string>, c: Entries)
    requires Faithful(f, log, c) && log <= longer
    ensures Faithful(f, longer, c)
  {}

  /** The whole pass at once. */
  function Extended(f: string -> Digest, c: Entries, receipts: seq<string>, end: nat): Entries
    requires end <= |receipts|
    decreases end - |c.leaves|
  {
    if |c.leaves| >= end then c else Extended(f, Pushed(f, c, receipts[|c.leaves|]), receipts, end)
  }

  lemma {:induction false} ExtendedReaches(f: string -> Digest, c: Entries, receipts: seq<string>, end: nat)
    requires Faithful(f, receipts, c) && end <= |receipts|
    ensures Faithful(f, receipts, Extended(f, c, receipts, end))
    ensures |Extended(f, c, receipts, end).leaves| == Max(|c.leaves|, end)
    decreases end - |c.leaves|
  {
    if |c.leaves| < end {
      PushKeepsFaithful(f, receipts, c);
      ExtendedReaches(f, Pushed(f, c, receipts[|c.leaves|]), receipts, end);
    }
  }

  // ── One caller at a time ──

  class Cache {
    var leaves: seq<Digest>
    var index: map<Digest, nat>

    constructor ()
      ensures leaves == [] && index == map[]
    {
      leaves, index := [], map[];
    }

    function Value(): Entries
      reads this
    {
      Entries(leaves, index)
    }

    method Extend(f: string -> Digest, receipts: seq<string>, size: nat)
      requires Faithful(f, receipts, Value())
      modifies this
      ensures Value() == Extended(f, old(Value()), receipts, Min(size, |receipts|))
      ensures Faithful(f, receipts, Value())
    {
      var end := Min(size, |receipts|);
      ExtendedReaches(f, Value(), receipts, end);
      for i := |leaves| to Max(|leaves|, end)
        invariant i == |leaves| && Faithful(f, receipts, Value())
        invariant Extended(f, Value(), receipts, end) == Extended(f, old(Value()), receipts, end)
      {
        PushKeepsFaithful(f, receipts, Value());
        var leaf := f(receipts[i]);
        if leaf !in index {
          index := index[leaf := i];
        }
        leaves := leaves + [leaf];
      }
    }

    /** The first `size` leaves, or None exactly when the log is shorter. */
    method AnchoredLeaves(f: string -> Digest, log: seq<string>, size: nat) returns (r: Option<seq<Digest>>)
      requires Faithful(f, log, Value())
      modifies this
      ensures Faithful(f, log, Value())
      ensures r == if size <= |log| then Some(Log.Leaves(f, log[..size])) else None
    {
      while |leaves| < size
        invariant Faithful(f, log, Value())
        decreases size - |leaves|
      {
        var before := |leaves|;
        ExtendedReaches(f, Value(), log, Min(size, |log|));
        Extend(f, log, size);
        if |leaves| == before {
          return None;
        }
      }
      assert leaves[..size] == Log.Leaves(f, log[..size]);
      return Some(leaves[..size]);
    }
  }

  // ── Many callers ──

  /** The shared pass: reading the log, hashing receipts up to `end`, or settled but not yet cleared. */
  datatype Pass = Listing(size: nat) | Hashing(receipts: seq<string>, end: nat) | Settled(failed: bool)

  /** A call waits for pass number `pass`, which had no leaf left to add when it was `late`; `rounds` counts its
      waits, and `entered` is how long the log was when it began. */
  datatype Call =
    | Waiting(size: nat, before: nat, pass: nat, late: bool, rounds: nat, entered: nat)
    | Answered(size: nat, answer: Option<seq<Digest>>, late: bool, rounds: nat, entered: nat)
    | Threw

  /** `cleared` counts the passes whose end has been noticed, `failed` those that ended in an error. */
  datatype World = World(
    log: seq<string>, cache: Entries, pass: Option<Pass>, cleared: nat, failed: set<nat>, calls: map<nat, Call>)

  datatype Event =
    | Append(receipt: string)
    | Ask(call: nat, size: nat)
    | List | Fail | HashOne | Clear
    | Resume(call: nat)

  /** The head of the loop: answer, or wait for the pass there is, or begin one. */
  function Head(w: World, c: nat, size: nat, rounds: nat, entered: nat, late: bool): World {
    if |w.cache.leaves| >= size then
      w.(calls := w.calls[c := Answered(size, Some(w.cache.leaves[..size]), late, rounds, entered)])
    else
      var waiting := Waiting(size, |w.cache.leaves|, w.cleared, w.pass == Some(Settled(false)), rounds, entered);
      w.(pass := if w.pass.None? then Some(Listing(size)) else w.pass, calls := w.calls[c := waiting])
  }

  function Apply(f: string -> Digest, w: World, e: Event): World {
    match e
    case Append(receipt) => w.(log := w.log + [receipt])
    case Ask(c, size) => if c in w.calls then w else Head(w, c, size, 0, |w.log|, false)
    case List =>
      if w.pass.Some? && w.pass.value.Listing? then w.(pass := Some(Entering(w.cache, w.log, Min(w.pass.value.size, |w.log|)))) else w
    case Fail =>
      if w.pass.Some? && !w.pass.value.Settled? then w.(pass := Some(Settled(true))) else w
    case HashOne =>
      if w.pass.Some? && w.pass.value.Hashing? && |w.cache.leaves| < w.pass.value.end <= |w.pass.value.receipts| then
        var cache := Pushed(f, w.cache, w.pass.value.receipts[|w.cache.leaves|]);
        w.(cache := cache, pass := Some(Entering(cache, w.pass.value.receipts, w.pass.value.end)))
      else w
    case Clear =>
      if w.pass.Some? && w.pass.value.Settled? then
        w.(pass := None, cleared := w.cleared + 1, failed := if w.pass.value.failed then w.failed + {w.cleared} else w.failed)
      else w
    case Resume(c) =>
      if c !in w.calls || !w.calls[c].Waiting? || w.calls[c].pass >= w.cleared then w
      else
        var call := w.calls[c];
        if call.pass in w.failed then w.(calls := w.calls[c := Threw])
        else if |w.cache.leaves| == call.before then
          w.(calls := w.calls[c := Answered(call.size, None, call.late, call.rounds + 1, call.entered)])
        else Head(w, c, call.size, call.rounds + 1, call.entered, call.late)
  }

  /** The head of the pass's own loop. */
  function Entering(c: Entries, receipts: seq<string>, end: nat): Pass {
    if |c.leaves| < end then Hashing(receipts, end) else Settled(false)
  }

  function Run(f: string -> Digest, w: World, events: seq<Event>): World
    decreases events
  {
    if events == [] then w else Run(f, Apply(f, w, events[0]), events[1..])
  }

  function Start(log: seq<string>): World {
    World(log, Entries([], map[]), None, 0, {}, map[])
  }

  predicate PassOk(w: World) {
    match w.pass
    case Some(Listing(size)) => |w.cache.leaves| < size
    case Some(Hashing(receipts, end)) => receipts <= w.log && |w.cache.leaves| < end <= |receipts|
    case _ => true
  }

  predicate CallOk(f: string -> Digest, w: World, call: Call) {
    match call
    case Waiting(size, before, pass, late, rounds, entered) =>
      && rounds <= before < size && before <= |w.cache.leaves| && entered <= |w.log|
      && (pass < w.cleared || (pass == w.cleared && w.pass.Some?))
      && (!late ==> WillGrow(w, call))
    case Answered(size, Some(ls), late, rounds, _) =>
      rounds <= size <= |w.log| && ls == Log.Leaves(f, w.log[..size])
    case Answered(size, None, late, rounds, entered) => rounds <= size && (!late ==> entered < size)
    case Threw => true
  }

  /** A pass that was not over when the call joined it grows the cache, unless it fails or the log it lists is
      too short. */
  predicate WillGrow(w: World, call: Call)
    requires call.Waiting?
  {
    if call.pass < w.cleared then
      call.pass in w.failed || |w.cache.leaves| > call.before || call.entered < call.size
    else
      w.pass.Some? &&
      match w.pass.value
      case Listing(_) => |w.cache.leaves| == call.before
      case Hashing(_, _) => true
      case Settled(failed) => failed || |w.cache.leaves| > call.before || call.entered < call.size
  }

  ghost predicate Inv(f: string -> Digest, w: World) {
    && Faithful(f, w.log, w.cache) && PassOk(w)
    && (forall n :: n in w.failed ==> n < w.cleared)
    && (forall c :: c in w.calls ==> CallOk(f, w, w.calls[c]))
  }

  lemma HeadKeepsInv(f: string -> Digest, w: World, c: nat, size: nat, rounds: nat, entered: nat, late: bool)
    requires Inv(f, w) && rounds <= |w.cache.leaves| && rounds <= size && entered <= |w.log|
    ensures Inv(f, Head(w, c, size, rounds, entered, late))
  {
    var w' := Head(w, c, size, rounds, entered, late);
    if |w.cache.leaves| >= size {
      assert w.cache.leaves[..size] == Log.Leaves(f, w.log[..size]);
    }
    forall d | d in w'.calls ensures CallOk(f, w', w'.calls[d]) {
      if d != c {
        assert CallOk(f, w, w.calls[d]);
      }
    }
  }

  lemma AppendKeepsCall(f: string -> Digest, w: World, receipt: string, call: Call)
    requires CallOk(f, w, call)
    ensures CallOk(f, Apply(f, w, Append(receipt)), call)
  {
    if call.Answered? && call.answer.Some? {
      assert (w.log + [receipt])[..call.size] == w.log[..call.size];
    }
  }

  lemma PassKeepsCall(f: string -> Digest, w: World, e: Event, call: Call)
    requires e.List? || e.Fail? || e.HashOne? || e.Clear?
    requires PassOk(w) && CallOk(f, w, call) && forall n :: n in w.failed ==> n < w.cleared
    ensures CallOk(f, Apply(f, w, e), call)
  {}

  lemma StepKeepsInv(f: string -> Digest, w: World, e: Event)
    requires Inv(f, w)
    ensures Inv(f, Apply(f, w, e))
  {
    var w' := Apply(f, w, e);
    match e
    case Append(receipt) =>
      forall c | c in w'.calls ensures CallOk(f, w', w'.calls[c]) {
        AppendKeepsCall(f, w, receipt, w.calls[c]);
      }
    case Ask(c, size) =>
      if c !in w.calls {
        HeadKeepsInv(f, w, c, size, 0, |w.log|, false);
      }
    case Resume(c) =>
      ResumeKeepsInv(f, w, c);
    case _ =>
      PassStepKeepsInv(f, w, e);
  }

  lemma PassStepKeepsInv(f: string -> Digest, w: World, e: Event)
    requires Inv(f, w) && (e.List? || e.Fail? || e.HashOne? || e.Clear?)
    ensures Inv(f, Apply(f, w, e))
  {
    hide CallOk, Faithful;
    var w' := Apply(f, w, e);
    if e.HashOne? && w.pass.Some? && w.pass.value.Hashing? {
      PushKeepsFaithful(f, w.log, w.cache);
      assert w.pass.value.receipts[|w.cache.leaves|] == w.log[|w.cache.leaves|];
    }
    forall c | c in w'.calls ensures CallOk(f, w', w'.calls[c]) {
      PassKeepsCall(f, w, e, w.calls[c]);
    }
  }

  lemma OverKeepsInv(f: string -> Digest, w: World, c: nat, over: Call)
    requires Inv(f, w) && c in w.calls && CallOk(f, w, over) && !over.Waiting?
    ensures Inv(f, w.(calls := w.calls[c := over]))
  {
    var w' := w.(calls := w.calls[c := over]);
    forall d | d in w'.calls ensures CallOk(f, w', w'.calls[d]) {
      assert d != c ==> CallOk(f, w, w.calls[d]);
    }
  }

  lemma ResumeKeepsInv(f: string -> Digest, w: World, c: nat)
    requires Inv(f, w)
    ensures Inv(f, Apply(f, w, Resume(c)))
  {
    hide Inv, Head;
    if c in w.calls && w.calls[c].Waiting? && w.calls[c].pass < w.cleared {
      var call, w' := w.calls[c], Apply(f, w, Resume(c));
      CallsAreOk(f, w, c);
      if call.pass !in w.failed && |w.cache.leaves| > call.before {
        HeadKeepsInv(f, w, c, call.size, call.rounds + 1, call.entered, call.late);
      } else {
        OverKeepsInv(f, w, c, w'.calls[c]);
      }
    }
  }

  lemma {:induction false} RunKeepsInv(f: string -> Digest, w: World, events: seq<Event>)
    requires Inv(f, w)
    ensures Inv(f, Run(f, w, events))
    decreases events
  {
    hide Inv, Apply;
    if events != [] {
      StepKeepsInv(f, w, events[0]);
      RunKeepsInv(f, Apply(f, w, events[0]), events[1..]);
    }
  }

  lemma StartsWell(f: string -> Digest, log: seq<string>)
    ensures Inv(f, Start(log))
  {}

  /** In every interleaving: the cache stays a faithful prefix, an answer is the hashes of the first `size`
      receipts of the log, no call waits more than `size` times, and a call that did not join its last pass too
      late is told the log is too short only when it was too short as the call began. */
  lemma {:induction false} AnswersAgreeWithTheLog(f: string -> Digest, log: seq<string>, events: seq<Event>, c: nat)
    ensures
      var w := Run(f, Start(log), events);
      && Faithful(f, w.log, w.cache)
      && (c in w.calls && w.calls[c].Answered? ==>
            var a := w.calls[c];
            && a.rounds <= a.size
            && (a.answer.Some? ==> a.size <= |w.log| && a.answer.value == Log.Leaves(f, w.log[..a.size]))
            && (a.answer.None? && !a.late ==> a.entered < a.size))
  {
    hide Run;
    StartsWell(f, log);
    RunKeepsInv(f, Start(log), events);
    var w := Run(f, Start(log), events);
    if c in w.calls {
      assert CallOk(f, w, w.calls[c]);
    }
  }

  // ── When a too-short answer is wrong ──

  predicate ToldTooShortAfter(w: World, c: nat, rounds: nat) {
    c in w.calls && w.calls[c].Answered? && w.calls[c].answer.None? && w.calls[c].rounds == rounds
  }

  /** Nothing was added since the call began to wait, and its pass is over, or settled and not cleared, without an
      error. */
  predicate TooLate(w: World, call: Call)
    requires call.Waiting?
  {
    && |w.cache.leaves| == call.before
    && (if call.pass < w.cleared then call.pass !in w.failed else w.pass == Some(Settled(false)))
  }

  /** Wait number `k` of call `c` is over without that answer, or is going to be. */
  predicate InTime(w: World, c: nat, k: nat) {
    && c in w.calls
    && match w.calls[c]
       case Waiting(size, before, pass, _, rounds, _) =>
         rounds > k || (rounds == k && before < size <= |w.log| && !TooLate(w, w.calls[c]))
       case Answered(_, answer, _, rounds, _) => answer.Some? || rounds > k + 1
       case Threw => true
  }

  lemma PassKeepsInTime(f: string -> Digest, w: World, e: Event, c: nat, k: nat)
    requires e.List? || e.Fail? || e.HashOne? || e.Clear?
    requires InTime(w, c, k) && PassOk(w) && CallOk(f, w, w.calls[c]) && forall n :: n in w.failed ==> n < w.cleared
    ensures InTime(Apply(f, w, e), c, k)
  {
    hide Faithful, WillGrow;
  }

  lemma StepKeepsInTime(f: string -> Digest, w: World, e: Event, c: nat, k: nat)
    requires Inv(f, w) && InTime(w, c, k)
    ensures InTime(Apply(f, w, e), c, k)
  {
    hide Faithful, WillGrow;
    CallsAreOk(f, w, c);
    if e.List? || e.Fail? || e.HashOne? || e.Clear? {
      PassKeepsInTime(f, w, e, c, k);
    }
  }

  lemma {:induction false} RunKeepsInTime(f: string -> Digest, w: World, events: seq<Event>, c: nat, k: nat)
    requires Inv(f, w) && InTime(w, c, k)
    ensures InTime(Run(f, w, events), c, k)
    decreases events
  {
    hide InTime, Inv, Apply;
    if events != [] {
      StepKeepsInv(f, w, events[0]);
      StepKeepsInTime(f, w, events[0], c, k);
      RunKeepsInTime(f, Apply(f, w, events[0]), events[1..], c, k);
    }
  }

  lemma CallsAreOk(f: string -> Digest, w: World, c: nat)
    requires Inv(f, w)
    ensures c in w.calls ==> CallOk(f, w, w.calls[c])
  {}

  lemma FailedAreCleared(f: string -> Digest, w: World)
    requires Inv(f, w)
    ensures w.cleared !in w.failed
  {}

  lemma {:induction false} LateIsToldTooShort(f: string -> Digest, w: World, c: nat)
    requires Inv(f, w) && c in w.calls && w.calls[c].Waiting? && TooLate(w, w.calls[c])
    ensures exists more :: ToldTooShortAfter(Run(f, w, more), c, w.calls[c].rounds + 1)
  {
    hide Inv, Faithful, CallOk;
    FailedAreCleared(f, w);
    var w1 := if w.calls[c].pass < w.cleared then w else w.(pass := None, cleared := w.cleared + 1);
    var w2 := Apply(f, w1, Resume(c));
    WaitsForThis(f, w, c);
    OneStep(f, w1, Resume(c), [], w2);
    if w.calls[c].pass < w.cleared {
      assert ToldTooShortAfter(Run(f, w, [Resume(c)]), c, w.calls[c].rounds + 1);
    } else {
      OneStep(f, w, Clear, [Resume(c)], w1);
      assert ToldTooShortAfter(Run(f, w, [Clear] + [Resume(c)]), c, w.calls[c].rounds + 1);
    }
  }

  lemma WaitsForThis(f: string -> Digest, w: World, c: nat)
    requires Inv(f, w) && c in w.calls && w.calls[c].Waiting?
    ensures w.calls[c].pass <= w.cleared
  {
    CallsAreOk(f, w, c);
  }

  lemma {:induction false} WaitEndsExactlyWhenLate(f: string -> Digest, w: World, c: nat)
    requires Inv(f, w) && c in w.calls && w.calls[c].Waiting? && w.calls[c].size <= |w.log|
    ensures (exists more :: ToldTooShortAfter(Run(f, w, more), c, w.calls[c].rounds + 1)) <==> TooLate(w, w.calls[c])
  {
    hide Run, Inv, WillGrow;
    if TooLate(w, w.calls[c]) {
      LateIsToldTooShort(f, w, c);
    } else {
      CallsAreOk(f, w, c);
      assert InTime(w, c, w.calls[c].rounds);
      forall more ensures !ToldTooShortAfter(Run(f, w, more), c, w.calls[c].rounds + 1) {
        RunKeepsInTime(f, w, more, c, w.calls[c].rounds);
      }
    }
  }

  /** In every run, a call that waits for leaves the log has, in whichever round, can be told at the end of this
      wait that the log is too short exactly when nothing was added since it began to wait and the pass it waits
      for is over, or settled and not cleared yet, without an error. */
  lemma {:induction false} ToldTooShortExactlyWhenLate(f: string -> Digest, log: seq<string>, events: seq<Event>, c: nat)
    requires
      var w := Run(f, Start(log), events);
      c in w.calls && w.calls[c].Waiting? && w.calls[c].size <= |w.log|
    ensures
      var w := Run(f, Start(log), events);
      (exists more :: ToldTooShortAfter(Run(f, w, more), c, w.calls[c].rounds + 1)) <==> TooLate(w, w.calls[c])
  {
    StartsWell(f, log);
    RunKeepsInv(f, Start(log), events);
    WaitEndsExactlyWhenLate(f, Run(f, Start(log), events), c);
  }

  /** So a new call for leaves the log has but the cache does not can be told after its first wait that the log
      is too short exactly when the pass it joins has settled and is not cleared yet. */
  lemma {:induction false} JoinerToldTooShortExactlyWhenLate(f: string -> Digest, log: seq<string>, events: seq<Event>, c: nat, size: nat)
    requires
      var w := Run(f, Start(log), events);
      c !in w.calls && |w.cache.leaves| < size <= |w.log|
    ensures
      var w := Run(f, Start(log), events);
      (exists more :: ToldTooShortAfter(Run(f, Apply(f, w, Ask(c, size)), more), c, 1)) <==> w.pass == Some(Settled(false))
  {
    hide Run, Inv;
    StartsWell(f, log);
    RunKeepsInv(f, Start(log), events);
    var w := Run(f, Start(log), events);
    StepKeepsInv(f, w, Ask(c, size));
    WaitEndsExactlyWhenLate(f, Apply(f, w, Ask(c, size)), c);
  }

  /** Two receipts were there from the start, and a call for both is told the log is too short. */
  lemma {:induction false} AJoinerMayBeToldTooShort(f: string -> Digest)
    ensures
      var w := Run(f, Start(["a", "b"]), [Ask(0, 1), List, HashOne, Ask(1, 2), Clear, Resume(1)]);
      && |w.log| == 2
      && 1 in w.calls && w.calls[1] == Answered(2, None, true, 1, 2)
  {
    var w0 := Start(["a", "b"]);
    var first := Waiting(1, 0, 0, false, 0, 2);
    var one := Entries([f("a")], map[f("a") := 0]);
    var joined := map[0 := first, 1 := Waiting(2, 1, 0, true, 0, 2)];
    var w1 := w0.(pass := Some(Listing(1)), calls := map[0 := first]);
    var w2 := w1.(pass := Some(Hashing(["a", "b"], 1)));
    var w3 := w1.(pass := Some(Settled(false)), cache := one);
    var w4 := w3.(calls := joined);
    var w5 := w4.(pass := None, cleared := 1);
    var w6 := w5.(calls := joined[1 := Answered(2, None, true, 1, 2)]);
    OneStep(f, w5, Resume(1), [], w6);
    OneStep(f, w4, Clear, [Resume(1)], w5);
    OneStep(f, w3, Ask(1, 2), [Clear] + [Resume(1)], w4);
    OneStep(f, w2, HashOne, [Ask(1, 2)] + ([Clear] + [Resume(1)]), w3);
    OneStep(f, w1, List, [HashOne] + ([Ask(1, 2)] + ([Clear] + [Resume(1)])), w2);
    OneStep(f, w0, Ask(0, 1), [List] + ([HashOne] + ([Ask(1, 2)] + ([Clear] + [Resume(1)]))), w1);
    assert [Ask(0, 1), List, HashOne, Ask(1, 2), Clear, Resume(1)] ==
           [Ask(0, 1)] + ([List] + ([HashOne] + ([Ask(1, 2)] + ([Clear] + [Resume(1)]))));
  }

  lemma {:induction false} OneStep(f: string -> Digest, w: World, e: Event, rest: seq<Event>, next: World)
    requires Apply(f, w, e) == next
    ensures Run(f, w, [e] + rest) == Run(f, next, rest)
    ensures rest == [] ==> Run(f, w, [e]) == next
  {
    assert ([e] + rest)[1..] == rest;
    assert rest == [] ==> [e] + rest == [e];
  }

  // ── The public proof ──

  /** Where the index says a leaf is, or None when it is not among the first `size`. */
  function Position(c: Entries, leaf: Digest, size: nat): Option<nat> {
    if leaf in c.index && c.index[leaf] < size then Some(c.index[leaf]) else None
  }

  /** From a faithful cache, the position found for a leaf is the first place it stands at in the anchored part
      of the log, there is one exactly when it stands there at all, and the proof made for it verifies against
      the anchor's root. */
  lemma {:induction false} PublicProofVerifies(h: Log.Hashes, log: seq<string>, c: Entries, a: Log.Anchor, leaf: Digest)
    requires Faithful(h.leaf, log, c) && a.body.size <= |c.leaves|
    requires !a.body.legacy && Log.Commits(h, a, log[..a.body.size])
    ensures
      var leaves := c.leaves[..a.body.size];
      match Position(c, leaf, a.body.size)
      case None => leaf !in leaves
      case Some(i) =>
        && i < |leaves| && leaves[i] == leaf && leaf !in leaves[..i]
        && Rfc.Climb(h.node, leaf, i, a.body.size - 1, Rfc.InclusionProof(h.node, h.empty, leaves, i)) == Some(a.body.root)
  {
    var leaves := c.leaves[..a.body.size];
    assert leaves == Log.Leaves(h.leaf, log[..a.body.size]);
    var found := Position(c, leaf, a.body.size);
    if found.Some? {
      Rfc.InclusionComplete(h.node, h.empty, leaves, found.value);
      forall k | 0 <= k < found.value ensures leaves[k] != leaf {
        assert c.index[c.leaves[k]] <= k;
      }
    } else {
      forall k | 0 <= k < |leaves| ensures leaves[k] != leaf {
        assert c.index[c.leaves[k]] <= k;
      }
    }
  }
}
