/** Which calls a revocation stops, and when a call under a revoked delegation still ends allowed. */
module DispatchRevoked {
  import opened Foundations
  import opened DispatchRules
  import opened DispatchStore
  import opened DispatchGuard
  import opened DispatchRuns
  import opened DispatchSingleUse
  import opened DispatchDelegation

  // ── The rest of a call on its own ──

  function Spends(p: nat, n: nat): seq<Event> {
    if n == 0 then [] else [Spend(p, None)] + Spends(p, n - 1)
  }

  /** From a call that is ready to its end, every workspace approval spent, at one reading of the clock. */
  function ToTheEnd(call: Call, p: nat, wall: Time): seq<Event> {
    if call.cloud == [] then [Finish(p, wall)] else [Preview(p, wall)] + (Spends(p, |call.cloud|) + [Finish(p, wall)])
  }

  lemma {:induction false} Step(w: World, e: Event, rest: seq<Event>)
    ensures RunFrom(w, [e] + rest) == RunFrom(Apply(w, e), rest)
    ensures rest == [] ==> RunFrom(w, [e]) == Apply(w, e)
  {
    assert ([e] + rest)[1..] == rest;
    assert rest == [] ==> [e] + rest == [e];
  }

  lemma {:induction false} AllSpent(w: World, p: nat, call: Call, spent: nat, rest: seq<Event>)
    requires p in w.procs && w.procs[p] == Spending(call, spent) && spent <= |call.cloud|
    ensures RunFrom(w, Spends(p, |call.cloud| - spent) + rest) == RunFrom(w.(procs := w.procs[p := Spending(call, |call.cloud|)]), rest)
    decreases |call.cloud| - spent
  {
    hide Transact, Began, Resolved, Finished;
    var n := |call.cloud| - spent;
    if n == 0 {
      assert Spends(p, 0) + rest == rest;
      assert w.procs[p := Spending(call, |call.cloud|)] == w.procs;
    } else {
      var w' := Apply(w, Spend(p, None));
      assert w' == w.(procs := w.procs[p := Spending(call, spent + 1)]);
      AllSpent(w', p, call, spent + 1, rest);
      assert Spends(p, n) + rest == [Spend(p, None)] + (Spends(p, n - 1) + rest);
      Step(w, Spend(p, None), Spends(p, n - 1) + rest);
      assert w'.procs[p := Spending(call, |call.cloud|)] == w.procs[p := Spending(call, |call.cloud|)];
    }
  }

  predicate EndsAllowed(w: World, p: nat) {
    p in w.procs && w.procs[p].Done? && w.procs[p].decision.allow
  }

  /** A ready call taken to its end is allowed exactly when its transaction allows it. */
  lemma {:induction false} ReadyEnds(w: World, p: nat, call: Call, wall: Time)
    requires p in w.procs && w.procs[p] == Ready(call)
    ensures EndsAllowed(RunFrom(w, ToTheEnd(call, p, wall)), p) <==> Transact(w.db, call, wall, false).1.allow
  {
    hide Decide, Began, Resolved;
    var last := [Finish(p, wall)];
    if call.cloud == [] {
      Step(w, Finish(p, wall), []);
    } else {
      var w1 := Apply(w, Preview(p, wall));
      Step(w, Preview(p, wall), Spends(p, |call.cloud|) + last);
      if Transact(w.db, call, wall, true).1.allow {
        AllSpent(w1, p, call, 0, last);
        Step(w1.(procs := w1.procs[p := Spending(call, |call.cloud|)]), Finish(p, wall), []);
      } else {
        DoneStays(w1, p, |call.cloud|, wall);
      }
    }
  }

  lemma {:induction false} DoneStays(w: World, p: nat, n: nat, wall: Time)
    requires p in w.procs && w.procs[p].Done?
    ensures RunFrom(w, Spends(p, n) + [Finish(p, wall)]) == w
    decreases n
  {
    hide Transact, Began, Resolved, Finished;
    if n == 0 {
      assert Spends(p, 0) + [Finish(p, wall)] == [Finish(p, wall)];
      Step(w, Finish(p, wall), []);
    } else {
      assert Spends(p, n) + [Finish(p, wall)] == [Spend(p, None)] + (Spends(p, n - 1) + [Finish(p, wall)]);
      Step(w, Spend(p, None), Spends(p, n - 1) + [Finish(p, wall)]);
      DoneStays(w, p, n - 1, wall);
    }
  }

  // ── Under a revoked delegation ──

  ghost predicate PickedAreChecked(w: World) {
    forall p :: p in w.procs && w.procs[p].Picked? ==> w.procs[p].call.checkDelegation
  }

  lemma {:induction false} RunKeepsPicked(w: World, events: seq<Event>)
    requires PickedAreChecked(w)
    ensures PickedAreChecked(RunFrom(w, events))
    decreases events
  {
    hide Transact, Decide, Choose;
    if events != [] {
      RunKeepsPicked(Apply(w, events[0]), events[1..]);
    }
  }

  /** The call takes the workspace's answer about its delegation, where it asks for one, and goes on to its end. */
  predicate AllowedAfter(w: World, p: nat, verdict: Option<Reason>, wall: Time)
    requires p in w.procs && w.procs[p].Picked?
  {
    EndsAllowed(RunFrom(w, [Resolve(p, verdict)] + ToTheEnd(w.procs[p].call, p, wall)), p)
  }

  /** The delegation is revoked here, or a record on its chain is, or is past the clock mark. */
  ghost predicate ShutOff(db: Db, id: string) {
    || id in db.revocations
    || (var chain := Chain(db, Some(id), MAX_DELEGATION_DEPTH + 1);
        chain.Some? && exists d :: d in chain.value && (d.id in db.revocations || d.expiresAt <= db.highWater))
  }

  lemma ShutOffIsRefused(db: Db, call: Call, id: string, wall: Time)
    requires Forest(db) && call.checkDelegation && call.req.delegation == Some(id) && ShutOff(db, id)
    ensures !Transact(db, call, wall, false).1.allow
  {
    hide Decide, Forest;
    var chain := Chain(db, Some(id), MAX_DELEGATION_DEPTH + 1);
    if id in db.revocations {
      var unknown := Delegation(id, None, "", Scope([], None), "", 0, 0);
      var d := if id in db.delegations then db.delegations[id] else unknown;
      assert d.id == id by { IdsAgree(db, id); }
      BelowIsRefused(db, call, d, wall);
    } else {
      var d :| d in chain.value && (d.id in db.revocations || d.expiresAt <= db.highWater);
      BelowIsRefused(db, call, d, wall);
    }
  }

  lemma IdsAgree(db: Db, id: string)
    requires Forest(db)
    ensures id in db.delegations ==> db.delegations[id].id == id
  {}

  /** In every run, for a call that has picked its approvals and names a delegation that is shut off here, at any
      reading of the clock: some answer of the workspace takes it to an allowing end exactly when a workspace is configured,
      the delegation is not registered here, and everything else about the call is in order. */
  lemma {:induction false} RevokedEndsAllowedExactlyWhen(events: seq<Event>, p: nat, wall: Time)
    requires
      var w := Run(events);
      && p in w.procs && w.procs[p].Picked? && w.procs[p].call.req.delegation.Some?
      && ShutOff(w.db, w.procs[p].call.req.delegation.value)
    ensures
      var w := Run(events);
      var call := w.procs[p].call;
      (exists verdict :: AllowedAfter(w, p, verdict, wall)) <==>
        && call.cfg.cloud && call.req.delegation.value !in w.db.delegations
        && Transact(w.db, call.(checkDelegation := false), wall, false).1.allow
  {
    var w := Run(events);
    var call := w.procs[p].call;
    ReachableIsForest(INITIAL, events);
    RunKeepsPicked(INITIAL, events);
    forall verdict ensures AllowedAfter(w, p, verdict, wall) <==>
        && verdict.None? && call.cfg.cloud && call.req.delegation.value !in w.db.delegations
        && Transact(w.db, call.(checkDelegation := false), wall, false).1.allow
    {
      AnswerEnds(w, p, verdict, wall);
    }
    if call.cfg.cloud && call.req.delegation.value !in w.db.delegations && Transact(w.db, call.(checkDelegation := false), wall, false).1.allow {
      assert AllowedAfter(w, p, None, wall);
    }
  }

  lemma {:induction false} AnswerEnds(w: World, p: nat, verdict: Option<Reason>, wall: Time)
    requires Forest(w.db) && p in w.procs && w.procs[p].Picked? && w.procs[p].call.checkDelegation
    requires w.procs[p].call.req.delegation.Some? && ShutOff(w.db, w.procs[p].call.req.delegation.value)
    ensures
      var call := w.procs[p].call;
      AllowedAfter(w, p, verdict, wall) <==>
        && (call.cfg.cloud && call.req.delegation.value !in w.db.delegations && verdict.None?)
        && Transact(w.db, call.(checkDelegation := false), wall, false).1.allow
  {
    hide Decide, Forest, Transact, ToTheEnd;
    var call := w.procs[p].call;
    var w1 := Apply(w, Resolve(p, verdict));
    Step(w, Resolve(p, verdict), ToTheEnd(call, p, wall));
    if call.cfg.cloud && call.req.delegation.value !in w.db.delegations {
      if verdict.None? {
        ReadyEnds(w1, p, call.(checkDelegation := false), wall);
        SameEnd(call, p, wall);
      } else {
        RefusedStays(w1, p, call, wall);
      }
    } else {
      ReadyEnds(w1, p, call, wall);
      ShutOffIsRefused(w.db, call, call.req.delegation.value, wall);
    }
  }

  lemma SameEnd(call: Call, p: nat, wall: Time)
    ensures ToTheEnd(call.(checkDelegation := false), p, wall) == ToTheEnd(call, p, wall)
  {}

  lemma {:induction false} RefusedStays(w: World, p: nat, call: Call, wall: Time)
    requires p in w.procs && w.procs[p].Done?
    ensures RunFrom(w, ToTheEnd(call, p, wall)) == w
  {
    hide Transact, Began;
    if call.cloud == [] {
      Step(w, Finish(p, wall), []);
    } else {
      Step(w, Preview(p, wall), Spends(p, |call.cloud|) + [Finish(p, wall)]);
      DoneStays(w, p, |call.cloud|, wall);
    }
  }
}
