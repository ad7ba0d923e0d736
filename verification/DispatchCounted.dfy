/** That nothing goes uncounted: which calls `authorize` lets through at once, and what a call that is allowed
    under a budget has met and has left in the table. The conditions are those of the request and the policies. */
module DispatchCounted {
  import opened Foundations
  import opened DispatchRules
  import opened DispatchStore
  import opened DispatchGuard
  import opened DispatchRuns
  import opened DispatchAtomicity
  import opened DispatchSingleUse

  /** The policy is this actor's and names an operation of some intent. */
  predicate Under(b: BudgetPolicy, req: Request) {
    b.actor == req.actor && exists i | 0 <= i < |req.intents| :: req.intents[i].actionType in b.operations
  }

  lemma UnderApplies(b: BudgetPolicy, req: Request)
    ensures Under(b, req) <==> Applies(b, req)
  {
    forall i | 0 <= i < |req.intents| ensures req.intents[i] in req.intents {}
  }

  /** Beginning a call answers it allowed exactly when no budget policy covers it, none of its actions needs an
      approval, and it names no delegation; such a call leaves the store as it was. */
  lemma AllowedAtOnceExactlyWhen(w: World, p: nat, cfg: Config, req: Request, inp: Inputs, wall: Time)
    requires Free(w, p)
    ensures
      var w' := Apply(w, Begin(p, cfg, req, inp, wall));
      && p in w'.procs
      && ((w'.procs[p].Done? && w'.procs[p].decision.allow) <==>
            && (forall b :: b in inp.budgets ==> !Under(b, req))
            && !(exists i :: i in req.intents && ("*" in cfg.requireApproval || i.actionType in cfg.requireApproval))
            && req.delegation.None?)
      && (w'.procs[p].Done? && w'.procs[p].decision.allow ==> w'.db == w.db)
  {
    hide Choose, NeedsApproval, Applicable, Under;
    NoPolicyIs(inp.budgets, req);
    NoApprovalIs(cfg, req);
    var needs := NeedsState(cfg, req, Applicable(inp.budgets, req));
    var w' := Apply(w, Begin(p, cfg, req, inp, wall));
    assert w'.procs[p].Done? && w'.procs[p].decision.allow <==> !needs;
  }

  lemma NoPolicyIs(budgets: seq<BudgetPolicy>, req: Request)
    ensures Applicable(budgets, req) == [] <==> forall b :: b in budgets ==> !Under(b, req)
  {
    hide Applies, Under, Applicable;
    var policies := Applicable(budgets, req);
    forall b ensures Under(b, req) <==> Applies(b, req) {
      UnderApplies(b, req);
    }
    forall b ensures b in policies <==> b in budgets && Applies(b, req) {}
    if policies != [] {
      assert policies[0] in policies;
    }
  }

  lemma NoApprovalIs(cfg: Config, req: Request)
    ensures NeedsApproval(cfg, req) <==> exists i :: i in req.intents && ("*" in cfg.requireApproval || i.actionType in cfg.requireApproval)
  {}

  // ── The call is the one that was begun ──

  /** The beginning of the call process `p` is in, or was last in. */
  function LastBegin(w: World, events: seq<Event>, p: nat, last: Option<Event>): Option<Event>
    decreases events
  {
    if events == [] then last
    else LastBegin(Apply(w, events[0]), events[1..], p, if events[0].Begin? && events[0].p == p && Free(w, p) then Some(events[0]) else last)
  }

  /** The call carries its configuration, its request, and just the policies it is under. */
  ghost predicate Carries(phase: Phase, last: Option<Event>) {
    !phase.Done? ==>
      && last.Some? && last.value.Begin?
      && phase.call.cfg == last.value.cfg && phase.call.req == last.value.req
      && forall b :: b in phase.call.policies <==> b in last.value.inp.budgets && Under(b, last.value.req)
  }

  lemma BeginCarries(w: World, e: Event)
    requires e.Begin? && Free(w, e.p)
    ensures Carries(Apply(w, e).procs[e.p], Some(e))
  {
    hide Choose;
    forall b ensures Under(b, e.req) <==> Applies(b, e.req) {
      UnderApplies(b, e.req);
    }
  }

  lemma StepCarries(w: World, e: Event, p: nat, last: Option<Event>)
    requires p in w.procs ==> Carries(w.procs[p], last)
    requires !(e.Begin? && e.p == p && Free(w, p))
    ensures p in Apply(w, e).procs ==> Carries(Apply(w, e).procs[p], last)
  {
    hide Choose, Transact, Under;
  }

  lemma {:induction false} RunCarries(w: World, events: seq<Event>, p: nat, last: Option<Event>)
    requires p in w.procs ==> Carries(w.procs[p], last)
    ensures
      var v := RunFrom(w, events);
      p in v.procs ==> Carries(v.procs[p], LastBegin(w, events, p, last))
    decreases events
  {
    hide Carries, Apply;
    if events != [] {
      var e := events[0];
      if e.Begin? && e.p == p && Free(w, p) {
        BeginCarries(w, e);
        RunCarries(Apply(w, e), events[1..], p, Some(e));
      } else {
        StepCarries(w, e, p, last);
        RunCarries(Apply(w, e), events[1..], p, last);
      }
    }
  }

  /** A call about to run its last transaction has begun. */
  lemma {:induction false} HasBegun(events: seq<Event>, p: nat)
    requires MayFinish(Run(events), p)
    ensures LastBegin(INITIAL, events, p, None).Some? && LastBegin(INITIAL, events, p, None).value.Begin?
  {
    RunCarries(INITIAL, events, p, None);
  }

  // ── What an allowed call has met ──

  /** How many rows of the budget were reserved in the policy's window. */
  function CountedIn(db: Db, b: BudgetPolicy, now: Time): nat {
    |set k | k in db.reservations && k.0 == b.budgetId && db.reservations[k].at > now - b.windowSeconds * 1000|
  }

  /** The policy is in force: not withdrawn, not run out, acknowledged, its authority there, the clock in order. */
  predicate InForce(b: BudgetPolicy, cfg: Config, before: Db, wall: Time) {
    && !b.revoked && b.acknowledged && (b.shared ==> cfg.sharedGateway)
    && wall < b.expiresAt && before.highWater < b.expiresAt
    && before.highWater - wall <= 2_000
  }

  lemma InForceIs(b: BudgetPolicy, cfg: Config, before: Db, wall: Time)
    ensures InForce(b, cfg, before, wall) <==> Enforceable(b, cfg, EffectiveNow(before, wall), RolledBack(before, wall))
  {}

  lemma CountedIs(db: Db, b: BudgetPolicy, now: Time)
    ensures CountedIn(db, b, now) == |RowsAfter(db, b.budgetId, WindowStart(b, now))|
  {
    assert RowsAfter(db, b.budgetId, WindowStart(b, now))
        == set k | k in db.reservations && k.0 == b.budgetId && db.reservations[k].at > now - b.windowSeconds * 1000;
  }

  /** After a commit there is a row for each policy in force, of this call's action group: the one there was, or one
      stamped now. */
  lemma CommittedIsCounted(before: Db, call: Call, wall: Time, b: BudgetPolicy)
    requires Decide(before, call, wall).Commit? && b in call.policies && InForce(b, call.cfg, before, wall)
    ensures
      var after, key := Transact(before, call, wall, false).0, (b.budgetId, call.req.actionGroup);
      && key in after.reservations
      && after.reservations[key].at == if key in before.reservations then before.reservations[key].at else Max(wall, before.highWater)
  {
    hide Decide, Walk;
    InForceIs(b, call.cfg, before, wall);
    AllOrNothing(before, call, wall);
    var key := (b.budgetId, call.req.actionGroup);
    if key in before.reservations {
      RepeatedStays(before, call, wall, key);
    } else {
      assert NewSlot(before, call, wall, key);
    }
  }

  lemma RepeatedStays(before: Db, call: Call, wall: Time, key: (string, string))
    requires Decide(before, call, wall).Commit? && key in before.reservations && key.1 == call.req.actionGroup
    ensures
      var after := Transact(before, call, wall, false).0;
      key in after.reservations && after.reservations[key] == before.reservations[key]
  {
    var now, group, db := EffectiveNow(before, wall), call.req.actionGroup, Mark(before, wall);
    var charges := ChargedBy(before, call, wall);
    WhatReservingDeletes(db, charges, group, now);
    var reserved := ReserveAll(db, charges, group, now).value;
    WhatConsumingWrites(reserved, call.local, group, now);
    forall p | p in charges ensures p.budgetId != key.0 {
      WhatACallCharges(before, call, wall, p);
    }
  }

  /** A committed call was admitted by every enforcing policy it is under: in force, and counted before under this
      action group or with a slot free in the window. */
  lemma CommittedWasAdmitted(before: Db, call: Call, wall: Time, b: BudgetPolicy)
    requires Decide(before, call, wall).Commit? && b in call.policies && b.enforce
    ensures InForce(b, call.cfg, before, wall)
    ensures (b.budgetId, call.req.actionGroup) in before.reservations || CountedIn(before, b, Max(wall, before.highWater)) < b.max
  {
    hide Decide, Walk, Rule;
    InForceIs(b, call.cfg, before, wall);
    CountedIs(before, b, EffectiveNow(before, wall));
    WhenATransactionCommits(before, call, wall);
    assert Admits(before, b, call, wall);
  }

  lemma AllowedUnderEnforcingCommits(before: Db, call: Call, wall: Time, b: BudgetPolicy)
    requires b in call.policies && b.enforce && Transact(before, call, wall, false).1.allow
    ensures Decide(before, call, wall).Commit?
  {
    hide Walk, Judge, ReserveAll, ConsumeAll, ApprovalProblem;
  }

  /** In every run, when a call's last transaction ends it allowed: each enforcing policy the request was under when
      the call began is in force, counted the call's action group before or had a slot free in its window, and has
      that group's row in the table now; and so has every monitoring one that is in force, if the transaction
      committed. Nothing goes uncounted. */
  lemma {:induction false} NothingGoesUncounted(events: seq<Event>, p: nat, wall: Time, b: BudgetPolicy)
    requires MayFinish(Run(events), p) && LastBegin(INITIAL, events, p, None).Some? && LastBegin(INITIAL, events, p, None).value.Begin?
    requires
      var begin := LastBegin(INITIAL, events, p, None).value;
      b in begin.inp.budgets && Under(b, begin.req)
    ensures
      var w, w' := Run(events), Run(events + [Finish(p, wall)]);
      var begin := LastBegin(INITIAL, events, p, None).value;
      var key := (b.budgetId, begin.req.actionGroup);
      && p in w'.procs && w'.procs[p].Done?
      && (w'.procs[p].decision.allow && b.enforce ==>
            && InForce(b, begin.cfg, w.db, wall)
            && (key in w.db.reservations || CountedIn(w.db, b, Max(wall, w.db.highWater)) < b.max)
            && key in w'.db.reservations)
      && (|w'.grants| > |w.grants| && InForce(b, begin.cfg, w.db, wall) ==> key in w'.db.reservations)
  {
    hide Decide, Transact, Under, RunFrom;
    RunCarries(INITIAL, events, p, None);
    var w := Run(events);
    var call := w.procs[p].call;
    RunConcat(INITIAL, events, [Finish(p, wall)]);
    LastStepIs(w, p, wall);
    if Transact(w.db, call, wall, false).1.allow && b.enforce {
      AllowedUnderEnforcingCommits(w.db, call, wall, b);
      CommittedWasAdmitted(w.db, call, wall, b);
    }
    if Decide(w.db, call, wall).Commit? && InForce(b, call.cfg, w.db, wall) {
      CommittedIsCounted(w.db, call, wall, b);
    }
  }

  lemma {:induction false} LastStepIs(w: World, p: nat, wall: Time)
    requires MayFinish(w, p)
    ensures
      var w' := RunFrom(w, [Finish(p, wall)]);
      var call := w.procs[p].call;
      && w'.db == Transact(w.db, call, wall, false).0
      && p in w'.procs && w'.procs[p].Done? && (w'.procs[p].decision.allow <==> Transact(w.db, call, wall, false).1.allow)
      && (|w'.grants| > |w.grants| <==> Decide(w.db, call, wall).Commit?)
  {
    hide Decide, Transact;
    assert [Finish(p, wall)][1..] == [];
    assert RunFrom(w, [Finish(p, wall)]) == RunFrom(Apply(w, Finish(p, wall)), []);
  }
}
