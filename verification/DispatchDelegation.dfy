/** Delegation chains in every reachable store: what the walk to the root checks, when it comes down to a
    check of the leaf, and that a revocation or an expiry shuts off every descendant for good. */
module DispatchDelegation {
  import opened Foundations
  import opened DispatchRules
  import opened DispatchStore
  import opened DispatchGuard
  import opened DispatchRuns
  import opened DispatchAtomicity
  import opened DispatchSingleUse

  /** The records from a delegation up to its root, or None when the root is not reached within `fuel`. */
  ghost function Chain(db: Db, cursor: Option<string>, fuel: nat): Option<seq<Delegation>>
    decreases fuel
  {
    if cursor.None? then Some([])
    else if fuel == 0 || cursor.value !in db.delegations then None
    else
      var d := db.delegations[cursor.value];
      var rest := Chain(db, d.parent, fuel - 1);
      if rest.None? then None else Some([d] + rest.value)
  }

  /** Records never outlive or exceed the parent they name, which is registered. */
  ghost predicate Forest(db: Db) {
    forall id :: id in db.delegations ==>
      var d := db.delegations[id];
      && d.id == id
      && (d.parent.Some? ==>
            && d.parent.value in db.delegations
            && d.expiresAt <= db.delegations[d.parent.value].expiresAt
            && IsSubScope(d.scope, db.delegations[d.parent.value].scope))
  }

  lemma {:induction false} ReachableIsForest(w: World, events: seq<Event>)
    requires Forest(w.db)
    ensures Forest(RunFrom(w, events).db)
    decreases events
  {
    if events != [] {
      var e := events[0];
      if e.Finish? && MayFinish(w, e.p) {
        AllOrNothing(w.db, w.procs[e.p].call, e.wall);
      } else if e.ImportMany? {
        ImportTouchesRevocationsOnly(w.db, e.ids);
      }
      ReachableIsForest(Apply(w, e), events[1..]);
    }
  }

  /** Every record's ancestry ends: none is its own ancestor, however the registrations were interleaved. */
  ghost predicate Rooted(db: Db) {
    forall id :: id in db.delegations ==> exists n: nat :: Chain(db, Some(id), n).Some?
  }

  lemma {:induction false} ChainSurvives(a: Db, b: Db, cursor: Option<string>, fuel: nat)
    requires forall id :: id in a.delegations ==> id in b.delegations && b.delegations[id] == a.delegations[id]
    requires Chain(a, cursor, fuel).Some?
    ensures Chain(b, cursor, fuel) == Chain(a, cursor, fuel)
    decreases fuel
  {
    if cursor.Some? {
      ChainSurvives(a, b, a.delegations[cursor.value].parent, fuel - 1);
    }
  }

  lemma StepKeepsRoots(w: World, e: Event)
    requires Rooted(w.db)
    ensures Rooted(Apply(w, e).db)
  {
    var after := Apply(w, e).db;
    StepGrows(w, e);
    forall id | id in after.delegations ensures exists n: nat :: Chain(after, Some(id), n).Some? {
      if id in w.db.delegations {
        var n: nat :| Chain(w.db, Some(id), n).Some?;
        ChainSurvives(w.db, after, Some(id), n);
      } else {
        OnlyRegisteringAdds(w, e, id);
        var up := e.d.parent;
        var n: nat := 0;
        if up.Some? {
          n :| Chain(w.db, up, n).Some?;
        }
        ChainSurvives(w.db, after, up, n);
        assert Chain(after, Some(id), n + 1).Some?;
      }
    }
  }

  lemma OnlyRegisteringAdds(w: World, e: Event, id: string)
    requires id in Apply(w, e).db.delegations && id !in w.db.delegations
    ensures e.Register? && e.d.id == id && Apply(w, e).db.delegations == w.db.delegations[id := e.d]
    ensures e.d.parent.Some? ==> e.d.parent.value in w.db.delegations
  {
    if e.Finish? && MayFinish(w, e.p) {
      AllOrNothing(w.db, w.procs[e.p].call, e.wall);
    } else if e.ImportMany? {
      ImportTouchesRevocationsOnly(w.db, e.ids);
    }
  }

  lemma {:induction false} ReachableIsRooted(w: World, events: seq<Event>)
    requires Rooted(w.db)
    ensures Rooted(RunFrom(w, events).db)
    decreases events
  {
    if events != [] {
      StepKeepsRoots(w, events[0]);
      ReachableIsRooted(Apply(w, events[0]), events[1..]);
    }
  }

  // ── What the walk answers ──

  ghost predicate InScope(d: Delegation, intents: seq<Intent>) {
    forall i :: i in intents ==> ActionInScope(d.scope, i.actionType, i.target)
  }

  ghost predicate Passes(db: Db, d: Delegation, now: Time, intents: seq<Intent>) {
    d.id !in db.revocations && d.expiresAt > now && InScope(d, intents)
  }

  lemma {:induction false} WalkChecksEveryRecord(db: Db, cursor: Option<string>, depth: nat, actor: string, now: Time, intents: seq<Intent>)
    requires Forest(db) && depth <= MAX_DELEGATION_DEPTH + 1
    ensures Walk(db, cursor, depth, actor, now, intents) == Ok <==>
              var chain := Chain(db, cursor, MAX_DELEGATION_DEPTH + 1 - depth);
              && chain.Some?
              && (depth == 0 && chain.value != [] ==> chain.value[0].actor == actor)
              && (forall d :: d in chain.value ==> Passes(db, d, now, intents))
    decreases MAX_DELEGATION_DEPTH + 1 - depth
  {
    hide ActionInScope, IsSubScope;
    if cursor.Some? && depth <= MAX_DELEGATION_DEPTH && cursor.value in db.delegations {
      var d := db.delegations[cursor.value];
      WalkChecksEveryRecord(db, d.parent, depth + 1, actor, now, intents);
      var rest := Chain(db, d.parent, MAX_DELEGATION_DEPTH - depth);
      if rest.Some? {
        var chain := [d] + rest.value;
        assert Chain(db, cursor, MAX_DELEGATION_DEPTH + 1 - depth) == Some(chain) && chain[0] == d;
        assert forall x :: x in chain <==> x == d || x in rest.value;
        assert (exists i :: i in intents && !ActionInScope(d.scope, i.actionType, i.target)) <==> !InScope(d, intents);
        assert Walk(db, cursor, depth, actor, now, intents) == Ok ==> Passes(db, d, now, intents);
        assert d in chain;
      }
    }
  }

  /** Up the chain, no record expires before the leaf, and none whose doubled stars are covered permits less. */
  lemma {:induction false} AncestorsPermitTheLeaf(db: Db, id: string, fuel: nat, now: Time, intents: seq<Intent>)
    requires Forest(db) && Chain(db, Some(id), fuel).Some?
    requires
      var chain := Chain(db, Some(id), fuel).value;
      chain[0].expiresAt > now && InScope(chain[0], intents) && forall d :: d in chain[1..] ==> DoubleStarsAreCovered(d.scope)
    ensures forall d :: d in Chain(db, Some(id), fuel).value ==> d.expiresAt > now && InScope(d, intents)
    decreases fuel
  {
    var d := db.delegations[id];
    var rest := Chain(db, d.parent, fuel - 1).value;
    assert Chain(db, Some(id), fuel).value == [d] + rest;
    assert ([d] + rest)[1..] == rest;
    if d.parent.Some? {
      var p := db.delegations[d.parent.value];
      assert rest[0] == p && p in rest;
      forall i | i in intents ensures ActionInScope(p.scope, i.actionType, i.target) {
        SubScopeStaysWithin(d.scope, p.scope, i.actionType, i.target);
      }
      assert forall x :: x in rest[1..] ==> x in rest;
      AncestorsPermitTheLeaf(db, d.parent.value, fuel - 1, now, intents);
    }
  }

  /** In every reachable store, a delegation permits a call exactly when its chain reaches a root within the
      depth limit, it is for this actor, and every record on the chain is unrevoked, unexpired and covers
      every intent. */
  lemma WalkInEveryRun(events: seq<Event>, id: string, actor: string, now: Time, intents: seq<Intent>)
    ensures
      var db := Run(events).db;
      var chain := Chain(db, Some(id), MAX_DELEGATION_DEPTH + 1);
      Walk(db, Some(id), 0, actor, now, intents) == Ok <==>
        && chain.Some? && chain.value[0].actor == actor
        && (forall d :: d in chain.value ==> d.id !in db.revocations && d.expiresAt > now && InScope(d, intents))
  {
    ReachableIsForest(INITIAL, events);
    WalkChecksEveryRecord(Run(events).db, Some(id), 0, actor, now, intents);
  }

  /** When every ancestor's doubled stars are covered, as when it has none, that comes down to the leaf and the revocations: the
      registration checks already made every ancestor live longer and cover more. */
  lemma WalkIsALeafCheck(events: seq<Event>, id: string, actor: string, now: Time, intents: seq<Intent>)
    requires
      var chain := Chain(Run(events).db, Some(id), MAX_DELEGATION_DEPTH + 1);
      chain.Some? && forall d :: d in chain.value[1..] ==> DoubleStarsAreCovered(d.scope)
    ensures
      var db := Run(events).db;
      var chain := Chain(db, Some(id), MAX_DELEGATION_DEPTH + 1).value;
      var leaf := chain[0];
      Walk(db, Some(id), 0, actor, now, intents) == Ok <==>
        && leaf.actor == actor && leaf.expiresAt > now && InScope(leaf, intents)
        && (forall d :: d in chain ==> d.id !in db.revocations)
  {
    ReachableIsForest(INITIAL, events);
    var db := Run(events).db;
    WalkInEveryRun(events, id, actor, now, intents);
    var chain := Chain(db, Some(id), MAX_DELEGATION_DEPTH + 1).value;
    assert chain[0] in chain;
    if chain[0].expiresAt > now && InScope(chain[0], intents) {
      AncestorsPermitTheLeaf(db, id, MAX_DELEGATION_DEPTH + 1, now, intents);
    }
  }

  /** Without that the leaf is not enough: a run registers a leaf that has the intent in scope, unrevoked and
      unexpired like its parent, and the walk refuses it. */
  lemma ADoubledStarDefeatsTheLeafCheck() returns (events: seq<Event>, intents: seq<Intent>)
    ensures
      var db := Run(events).db;
      var leaf := "delegate-leaf";
      && leaf in db.delegations && db.delegations[leaf].actor == "agent" && db.delegations[leaf].expiresAt > 0
      && InScope(db.delegations[leaf], intents) && db.revocations == map[]
      && Walk(db, Some(leaf), 0, "agent", 0, intents) == DelegationOutOfScope
  {
    var wide, narrow := Scope(["git.push"], Some(["ab**"])), Scope(["git.push"], Some(["ab*"]));
    var root := Delegation("delegate-root", None, "agent", wide, "w", 0, 100);
    var leaf := Delegation("delegate-leaf", Some("delegate-root"), "agent", narrow, "n", 0, 100);
    intents := [Intent("git.push", "abz", "h")];
    hide Added;
    StarsApart(wide, narrow);
    events := [Register(root, "w", 0), Register(leaf, "n", 0)];
    var db1 := EMPTY_DB.(delegations := map[root.id := root]);
    var db2 := EMPTY_DB.(delegations := map[root.id := root, leaf.id := leaf]);
    BothRegister(root, leaf, db1, db2);
    assert events[1..] == [Register(leaf, "n", 0)] && events[1..][1..] == [];
    assert RunFrom(INITIAL.(db := db1), events[1..]) == RunFrom(INITIAL.(db := db2), []);
    assert intents[0] in intents;
    assert Walk(db2, leaf.parent, 1, "agent", 0, intents) == DelegationOutOfScope;
  }

  lemma BothRegister(root: Delegation, leaf: Delegation, db1: Db, db2: Db)
    requires root == Delegation("delegate-root", None, "agent", Scope(["git.push"], Some(["ab**"])), "w", 0, 100)
    requires leaf == Delegation("delegate-leaf", Some("delegate-root"), "agent", Scope(["git.push"], Some(["ab*"])), "n", 0, 100)
    requires db1 == EMPTY_DB.(delegations := map[root.id := root])
    requires db2 == EMPTY_DB.(delegations := map[root.id := root, leaf.id := leaf])
    ensures Added(EMPTY_DB, root, "w", 0) == db1 && Added(db1, leaf, "n", 0) == db2
  {
    StarsApart(root.scope, leaf.scope);
  }

  lemma StarsApart(wide: Scope, narrow: Scope)
    requires wide == Scope(["git.push"], Some(["ab**"])) && narrow == Scope(["git.push"], Some(["ab*"]))
    ensures IsSubScope(narrow, wide) && ActionInScope(narrow, "git.push", "abz") && !ActionInScope(wide, "git.push", "abz")
  {
    assert "ab**"[..3] == "ab*" && "ab*"[..2] == "ab" && "abz"[..2] == "ab";
    assert "ab**" in wide.targets.value && Covers("ab**", "ab*");
    assert "ab*" in narrow.targets.value && Covers("ab*", "abz");
    assert "abz"[2] != "ab*"[2];
    assert !Covers("ab**", "abz");
  }

  ghost predicate AllValid(db: Db) {
    forall id :: id in db.delegations ==> ValidDelegation(db.delegations[id])
  }

  lemma {:induction false} ReachableIsValid(w: World, events: seq<Event>)
    requires AllValid(w.db)
    ensures AllValid(RunFrom(w, events).db)
    decreases events
  {
    hide ValidDelegation, Apply;
    if events != [] {
      StepGrows(w, events[0]);
      var after := Apply(w, events[0]).db;
      forall id | id in after.delegations ensures ValidDelegation(after.delegations[id]) {
        if id !in w.db.delegations {
          NewIsValid(w, events[0], id);
        }
      }
      ReachableIsValid(Apply(w, events[0]), events[1..]);
    }
  }

  lemma NewIsValid(w: World, e: Event, id: string)
    requires id in Apply(w, e).db.delegations && id !in w.db.delegations
    ensures ValidDelegation(Apply(w, e).db.delegations[id])
  {
    hide ValidDelegation, Transact, Began;
    OnlyRegisteringAdds(w, e, id);
  }

  /** The condition is needed everywhere: in every run, below any record that is current and not revoked and whose
      doubled stars are not covered, a leaf can be registered that has an action in scope and is current and not
      revoked itself, and that the walk refuses. */
  lemma UncoveredStarsDefeatTheLeafCheck(events: seq<Event>, id: string, leafId: string, wall: Time) returns (leaf: Delegation, intents: seq<Intent>)
    requires
      var db := Run(events).db;
      && id in db.delegations && id !in db.revocations && db.delegations[id].expiresAt > EffectiveNow(db, wall)
      && !DoubleStarsAreCovered(db.delegations[id].scope)
      && ValidId(leafId) && leafId !in db.delegations && leafId !in db.revocations
    ensures
      var after := Run(events + [Register(leaf, leaf.scopeDigest, wall)]).db;
      && leaf.id == leafId && leaf.parent == Some(id) && leafId in after.delegations && after.delegations[leafId] == leaf
      && leafId !in after.revocations && leaf.expiresAt > after.highWater && InScope(leaf, intents)
      && Walk(after, Some(leafId), 0, leaf.actor, after.highWater, intents) == DelegationOutOfScope
  {
    hide ValidId, IsSubScope, Walk, DoubleStarsAreCovered;
    ReachableIsForest(INITIAL, events);
    ReachableIsValid(INITIAL, events);
    var w := Run(events);
    var d := w.db.delegations[id];
    var c, x := WiderBelow(d.scope);
    leaf := Delegation(leafId, Some(id), d.actor, Scope(d.scope.actionTypes, Some([c])), "digest", d.expiresAt - 1, d.expiresAt);
    intents := [Intent(d.scope.actionTypes[0], x, "hash")];
    RunConcat(INITIAL, events, [Register(leaf, "digest", wall)]);
    assert [Register(leaf, "digest", wall)][1..] == [];
    assert RunFrom(w, [Register(leaf, "digest", wall)]) == RunFrom(Apply(w, Register(leaf, "digest", wall)), []);
    LeafRegisters(w.db, d, leaf, wall);
    WalkRefuses(Added(w.db, leaf, "digest", wall), d, leaf, intents);
  }

  lemma LeafRegisters(db: Db, d: Delegation, leaf: Delegation, wall: Time)
    requires d.id in db.delegations && db.delegations[d.id] == d && ValidDelegation(d)
    requires d.id !in db.revocations && d.expiresAt > EffectiveNow(db, wall)
    requires ValidId(leaf.id) && leaf.id !in db.delegations && leaf.parent == Some(d.id) && leaf.actor == d.actor
    requires leaf.scope.actionTypes == d.scope.actionTypes && leaf.scope.targets.Some? && "" !in leaf.scope.targets.value
    requires IsSubScope(leaf.scope, d.scope) && leaf.issuedAt == d.expiresAt - 1 && leaf.expiresAt == d.expiresAt
    ensures Added(db, leaf, leaf.scopeDigest, wall) == Mark(db, wall).(delegations := db.delegations[leaf.id := leaf])
  {
    hide ValidId, IsSubScope;
  }

  lemma WalkRefuses(db: Db, d: Delegation, leaf: Delegation, intents: seq<Intent>)
    requires leaf.id in db.delegations && db.delegations[leaf.id] == leaf && leaf.parent == Some(d.id)
    requires d.id in db.delegations && db.delegations[d.id] == d && d.expiresAt > db.highWater && leaf.expiresAt > db.highWater
    requires leaf.id !in db.revocations && d.id !in db.revocations && InScope(leaf, intents)
    requires exists i :: i in intents && !ActionInScope(d.scope, i.actionType, i.target)
    ensures Walk(db, Some(leaf.id), 0, leaf.actor, db.highWater, intents) == DelegationOutOfScope
  {
    hide ActionInScope;
    assert Walk(db, Some(d.id), 1, leaf.actor, db.highWater, intents) == DelegationOutOfScope;
    assert !(exists i :: i in intents && !ActionInScope(leaf.scope, i.actionType, i.target));
  }

  /** A delegation in every reachable store has a root above it. */
  lemma EveryRecordHasARoot(events: seq<Event>, id: string)
    requires id in Run(events).db.delegations
    ensures exists n: nat :: Chain(Run(events).db, Some(id), n).Some?
  {
    ReachableIsRooted(INITIAL, events);
  }

  // ── Shut off for good ──

  /** Once a record was revoked, or the store's clock mark reached its expiry, every later call under any
      delegation below it is denied by its last transaction, in any run, whatever the wall clock reads. */
  lemma ShutOffForGood(before: seq<Event>, after: seq<Event>, d: Delegation, p: nat, wall: Time)
    requires d.id in Run(before).db.revocations || d.expiresAt <= Run(before).db.highWater
    requires
      var w := Run(before + after);
      && MayFinish(w, p) && w.procs[p].call.checkDelegation && w.procs[p].call.req.delegation.Some?
      && var chain := Chain(w.db, w.procs[p].call.req.delegation, MAX_DELEGATION_DEPTH + 1);
         chain.Some? ==> d in chain.value
    ensures
      var w, end := Run(before + after), Run(before + after + [Finish(p, wall)]);
      && p in end.procs && end.procs[p].Done? && !end.procs[p].decision.allow
      && end.db == w.db
  {
    hide Apply, Decide, Chain, Forest;
    var w := Run(before + after);
    RunConcat(INITIAL, before, after);
    RunConcat(INITIAL, before + after, [Finish(p, wall)]);
    assert [Finish(p, wall)][1..] == [];
    assert RunFrom(w, [Finish(p, wall)]) == RunFrom(Apply(w, Finish(p, wall)), []);
    RunGrows(Run(before), after);
    StartIsForest();
    ReachableIsForest(INITIAL, before + after);
    BelowIsRefused(w.db, w.procs[p].call, d, wall);
    RefusalEnds(w, p, wall);
  }

  lemma StartIsForest()
    ensures Forest(INITIAL.db)
  {}

  lemma RefusalEnds(w: World, p: nat, wall: Time)
    requires MayFinish(w, p) && Decide(w.db, w.procs[p].call, wall).Rollback? && !Decide(w.db, w.procs[p].call, wall).decision.allow
    ensures
      var end := Apply(w, Finish(p, wall));
      p in end.procs && end.procs[p].Done? && !end.procs[p].decision.allow && end.db == w.db
  {
    hide Decide;
  }

  /** The last transaction of a call refuses it when a record on its chain is revoked or expired. */
  lemma BelowIsRefused(db: Db, call: Call, d: Delegation, wall: Time)
    requires Forest(db) && (d.id in db.revocations || d.expiresAt <= db.highWater)
    requires call.checkDelegation && call.req.delegation.Some?
    requires var chain := Chain(db, call.req.delegation, MAX_DELEGATION_DEPTH + 1); chain.Some? ==> d in chain.value
    ensures Decide(db, call, wall).Rollback? && !Decide(db, call, wall).decision.allow
  {
    hide Chain, InScope, Walk;
    var marked := Mark(db, wall);
    WalkChecksEveryRecord(marked, call.req.delegation, 0, call.req.actor, EffectiveNow(db, wall), call.req.intents);
    SameChain(marked, db, call.req.delegation, MAX_DELEGATION_DEPTH + 1);
  }

  lemma {:induction false} SameChain(a: Db, b: Db, cursor: Option<string>, fuel: nat)
    requires a.delegations == b.delegations
    ensures Chain(a, cursor, fuel) == Chain(b, cursor, fuel)
    decreases fuel
  {
    if cursor.Some? && fuel > 0 && cursor.value in a.delegations {
      SameChain(a, b, a.delegations[cursor.value].parent, fuel - 1);
    }
  }

  /** That holds of calls whose delegation is checked here. One the local store does not know is asked of the
      workspace when there is one, and what was revoked here is not looked at: its call can end allowed. */
  lemma RevokedButUnknownIsAskedElsewhere() returns (events: seq<Event>, p: nat)
    ensures
      var w := Run(events);
      && "delegate-elsewhere" in w.db.revocations && "delegate-elsewhere" !in w.db.delegations
      && p in w.procs && w.procs[p].Done? && w.procs[p].decision.allow
  {
    hide Decide, Choose;
    var id, cfg, inp := "delegate-elsewhere", Config(false, [], None, false, true), Inputs([], [], map[], []);
    var req := Request("agent", "g", "d", [Intent("git.push", "a", "h")], Some(id));
    p := 0;
    events := [RevokeOne(id, 0), Begin(0, cfg, req, inp, 0), Resolve(0, None), Finish(0, 0)];
    var db := EMPTY_DB.(revocations := map[id := 0]);
    var call := Call(cfg, req, [], [], [], true);
    var unchecked := call.(checkDelegation := false);
    var w1 := INITIAL.(db := db);
    var w2 := w1.(procs := map[0 := Picked(call)]);
    var w3 := w1.(procs := map[0 := Ready(unchecked)]);
    var w4 := Apply(w3, events[3]);
    AskedElsewhere(db, cfg, req, inp, call);
    UncheckedCommits(db, unchecked);
    assert w4.procs[0].Done? && w4.procs[0].decision.allow && w4.db.revocations == db.revocations;
    RunFour(events, w1, w2, w3, w4);
  }

  lemma AskedElsewhere(db: Db, cfg: Config, req: Request, inp: Inputs, call: Call)
    requires cfg == Config(false, [], None, false, true) && inp == Inputs([], [], map[], [])
    requires req == Request("agent", "g", "d", [Intent("git.push", "a", "h")], Some("delegate-elsewhere"))
    requires call == Call(cfg, req, [], [], [], true)
    requires db == EMPTY_DB.(revocations := map["delegate-elsewhere" := 0])
    ensures
      var w1 := INITIAL.(db := db);
      var w2 := w1.(procs := map[0 := Picked(call)]);
      && Apply(INITIAL, RevokeOne("delegate-elsewhere", 0)) == w1 && Apply(w1, Begin(0, cfg, req, inp, 0)) == w2
      && Apply(w2, Resolve(0, None)) == w1.(procs := map[0 := Ready(call.(checkDelegation := false))])
  {
    hide Decide;
    assert Choose(cfg, inp, req, 0) == Chosen([], []);
  }

  lemma UncheckedCommits(db: Db, call: Call)
    requires call.policies == [] && call.local == [] && !call.checkDelegation && db.highWater == 0
    ensures Decide(db, call, 0).Commit? && Decide(db, call, 0).decision.allow && Decide(db, call, 0).db == db
  {
    assert Ids([]) == [];
  }

  lemma RunFour(events: seq<Event>, w1: World, w2: World, w3: World, w4: World)
    requires |events| == 4 && w1 == Apply(INITIAL, events[0]) && w2 == Apply(w1, events[1])
    requires w3 == Apply(w2, events[2]) && w4 == Apply(w3, events[3])
    ensures Run(events) == w4
  {
    hide Apply;
    assert events[1..][1..] == events[2..] && events[2..][1..] == events[3..] && events[3..][1..] == [];
    assert RunFrom(w3, events[3..]) == RunFrom(w4, []);
    assert RunFrom(w2, events[2..]) == RunFrom(w3, events[3..]);
    assert RunFrom(w1, events[1..]) == RunFrom(w2, events[2..]);
  }
}
