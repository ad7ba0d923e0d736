/** What a call is told: what each answer says of the request, the policies and the tables is so; the counts it
    reports are those of the table; and what it is said to have used is what it used. */
module DispatchAnswers {
  import opened Foundations
  import opened DispatchRules
  import opened DispatchStore
  import opened DispatchGuard
  import opened DispatchRuns
  import opened DispatchApprovals
  import opened DispatchAtomicity
  import opened DispatchCounted

  // ── What is told of each policy ──

  /** The group has its row under the policy's budget already. */
  predicate CountedBefore(before: Db, b: BudgetPolicy, group: string) {
    (b.budgetId, group) in before.reservations
  }

  /** What is told of a policy: one that is not in force is not counted; else the count with this call, or without
      it when the policy refuses it, and whether that is within the limit, at it, or over. */
  predicate Told(o: Observation, b: BudgetPolicy, cfg: Config, group: string, before: Db, wall: Time) {
    var counted := CountedIn(before, b, Max(wall, before.highWater));
    && o.budgetId == b.budgetId
    && if !InForce(b, cfg, before, wall) then o.count == 0 && o.state == Unenforceable && !o.repeated
       else if CountedBefore(before, b, group) then
         o.repeated && o.count == counted && o.state == (if counted == b.max then AtLimit else Within)
       else if counted >= b.max then !o.repeated && o.state == Over && o.count == (if b.enforce then counted else counted + 1)
       else !o.repeated && o.count == counted + 1 && o.state == (if counted + 1 == b.max then AtLimit else Within)
  }

  /** The policy refuses the call: it enforces, and is not in force, or has no slot for a group it has not counted. */
  predicate Refuses(b: BudgetPolicy, cfg: Config, group: string, before: Db, wall: Time) {
    && b.enforce
    && (!InForce(b, cfg, before, wall)
        || (!CountedBefore(before, b, group) && CountedIn(before, b, Max(wall, before.highWater)) >= b.max))
  }

  /** The reason given for a policy's refusal. */
  predicate BudgetReason(r: Reason, b: BudgetPolicy, cfg: Config, before: Db, wall: Time) {
    match r
    case BudgetCapabilityUnsupported => b.shared && !cfg.sharedGateway
    case BudgetRevoked => b.revoked
    case BudgetExpired => b.expiresAt <= wall || b.expiresAt <= before.highWater
    case BudgetUnacknowledged => !b.acknowledged
    case ClockRollback => before.highWater - wall > 2_000
    case BudgetExceeded => InForce(b, cfg, before, wall) && CountedIn(before, b, Max(wall, before.highWater)) >= b.max
    case _ => false
  }

  lemma RuleTells(before: Db, b: BudgetPolicy, cfg: Config, group: string, wall: Time)
    ensures
      var r := Rule(Mark(before, wall), b, group, EffectiveNow(before, wall), RolledBack(before, wall), cfg.sharedGateway);
      && Told(r.seen, b, cfg, group, before, wall)
      && (r.Stop? <==> Refuses(b, cfg, group, before, wall))
      && (r.Stop? ==> BudgetReason(r.reason, b, cfg, before, wall))
  {
    InForceIs(b, cfg, before, wall);
    CountedIs(before, b, EffectiveNow(before, wall));
    assert RowsAfter(before, b.budgetId, WindowStart(b, EffectiveNow(before, wall)))
        == RowsAfter(Mark(before, wall), b.budgetId, WindowStart(b, EffectiveNow(before, wall)));
  }

  ghost predicate AllTold(seen: seq<Observation>, policies: seq<BudgetPolicy>, cfg: Config, group: string, before: Db, wall: Time) {
    |seen| <= |policies| && forall k | 0 <= k < |seen| :: Told(seen[k], policies[k], cfg, group, before, wall)
  }

  ghost predicate FirstRefuses(seen: seq<Observation>, policies: seq<BudgetPolicy>, cfg: Config, group: string, before: Db, wall: Time) {
    && 0 < |seen| <= |policies| && Refuses(policies[|seen| - 1], cfg, group, before, wall)
    && forall k | 0 <= k < |seen| - 1 :: !Refuses(policies[k], cfg, group, before, wall)
  }

  /** Judging tells of each policy in turn, as far as the first that refuses. */
  lemma {:induction false} JudgeTells(
    before: Db, policies: seq<BudgetPolicy>, cfg: Config, group: string, wall: Time, done: nat, seen: seq<Observation>, charges: seq<BudgetPolicy>)
    requires done == |seen| <= |policies| && AllTold(seen, policies, cfg, group, before, wall)
    requires forall k | 0 <= k < done :: !Refuses(policies[k], cfg, group, before, wall)
    ensures
      var v := Judge(Mark(before, wall), policies[done..], group, EffectiveNow(before, wall), RolledBack(before, wall),
                     cfg.sharedGateway, seen, charges);
      && AllTold(v.seen, policies, cfg, group, before, wall)
      && (v.Granted? ==> |v.seen| == |policies| && forall k | 0 <= k < |policies| :: !Refuses(policies[k], cfg, group, before, wall))
      && (v.Refused? ==>
            && FirstRefuses(v.seen, policies, cfg, group, before, wall)
            && BudgetReason(v.reason, policies[|v.seen| - 1], cfg, before, wall))
    decreases |policies| - done
  {
    hide Rule, Told, Refuses, BudgetReason;
    if done < |policies| {
      var b := policies[done];
      assert policies[done..][0] == b && policies[done..][1..] == policies[done + 1..];
      RuleTells(before, b, cfg, group, wall);
      var r := Rule(Mark(before, wall), b, group, EffectiveNow(before, wall), RolledBack(before, wall), cfg.sharedGateway);
      if r.Pass? {
        JudgeTells(before, policies, cfg, group, wall, done + 1, seen + [r.seen], if r.charge then charges + [b] else charges);
      }
    } else {
      assert policies[done..] == [];
    }
  }

  lemma {:induction false} VerdictTells(before: Db, call: Call, wall: Time)
    ensures
      var v := VerdictOn(Mark(before, wall), call, EffectiveNow(before, wall), RolledBack(before, wall));
      var group := call.req.actionGroup;
      && AllTold(v.seen, call.policies, call.cfg, group, before, wall)
      && (v.Granted? ==> |v.seen| == |call.policies|)
      && (v.Refused? ==>
            && FirstRefuses(v.seen, call.policies, call.cfg, group, before, wall)
            && BudgetReason(v.reason, call.policies[|v.seen| - 1], call.cfg, before, wall))
  {
    hide Judge, Told, Refuses, BudgetReason;
    JudgeTells(before, call.policies, call.cfg, call.req.actionGroup, wall, 0, [], []);
    assert call.policies[0..] == call.policies;
  }

  // ── What a transaction answers ──

  /** Something is being enforced: a policy, an approval or a delegation. */
  predicate Enforced(call: Call) {
    || (exists b :: b in call.policies && b.enforce)
    || (exists i :: i in call.req.intents && ("*" in call.cfg.requireApproval || i.actionType in call.cfg.requireApproval))
    || call.req.delegation.Some?
  }

  lemma EnforcedMustDeny(call: Call)
    ensures MustDeny(call.cfg, call.req, call.policies) <==> Enforced(call)
  {}

  predicate IsDelegationReason(r: Reason) {
    r.DelegationUnknown? || r.DelegationRevoked? || r.DelegationExpired? || r.DelegationOutOfScope? || r.DelegationWrongActor?
  }

  ghost predicate SomeExpired(local: seq<(nat, Approval)>, now: Time) {
    exists c :: c in local && c.1.expiresAt <= now
  }

  ghost predicate SomeUsed(local: seq<(nat, Approval)>, before: Db) {
    exists c :: c in local && c.1.id in before.consumptions
  }

  predicate NotCounted(seen: seq<Observation>, policies: seq<BudgetPolicy>) {
    |seen| == |policies| && forall k | 0 <= k < |seen| :: seen[k] == Observation(policies[k].budgetId, 0, Unavailable, false)
  }

  lemma {:induction false} ApprovalProblemTells(db: Db, local: seq<(nat, Approval)>, now: Time)
    ensures
      var problem := ApprovalProblem(db, local, now);
      && (problem.None? <==> !SomeExpired(local, now) && !SomeUsed(local, db))
      && (problem.Some? ==>
            || (problem.value.ApprovalRejected? && SomeExpired(local, now))
            || (problem.value.ApprovalReplayed? && SomeUsed(local, db)))
    decreases local
  {
    if local != [] {
      ApprovalProblemTells(db, local[1..], now);
      assert forall c :: c in local <==> c == local[0] || c in local[1..];
    }
  }

  lemma {:induction false} WalkSaysDelegation(db: Db, cursor: Option<string>, depth: nat, actor: string, now: Time, intents: seq<Intent>)
    ensures
      var r := Walk(db, cursor, depth, actor, now, intents);
      r == Ok || IsDelegationReason(r)
    decreases MAX_DELEGATION_DEPTH + 1 - depth
  {
    if cursor.Some? && depth <= MAX_DELEGATION_DEPTH && cursor.value in db.delegations {
      WalkSaysDelegation(db, db.delegations[cursor.value].parent, depth + 1, actor, now, intents);
    }
  }

  /** What the answer of a transaction that does not commit says is so: of the delegation first, then of the
      approvals, then of the first policy that refuses; and when the counter could not be used, the call is let
      through exactly when nothing is enforced. One that commits tells of every policy, and names the approvals it
      used. */
  lemma {:induction false} WhatACallIsTold(before: Db, call: Call, wall: Time)
    ensures
      var d, group := Transact(before, call, wall, false).1, call.req.actionGroup;
      var now := Max(wall, before.highWater);
      var permitted := DelegationAnswer(Mark(before, wall), call, now) == Ok;
      var usable := permitted && !SomeExpired(call.local, now) && !SomeUsed(call.local, before);
      if Decide(before, call, wall).Commit? then
        && d.allow && d.reason == Ok && |d.budgets| == |call.policies| && AllTold(d.budgets, call.policies, call.cfg, group, before, wall)
        && |d.consumed| == |call.local| && forall k | 0 <= k < |d.consumed| :: d.consumed[k] == call.local[k].1.id
      else
        && d.consumed == [] && (d.allow <==> d.reason == Ok)
        && match d.reason
           case Ok => usable && !Enforced(call) && NotCounted(d.budgets, call.policies)
           case CounterUnavailable => usable && Enforced(call) && NotCounted(d.budgets, call.policies)
           case ApprovalRejected => permitted && SomeExpired(call.local, now) && d.budgets == []
           case ApprovalReplayed => permitted && SomeUsed(call.local, before) && d.budgets == []
           case r =>
             if IsDelegationReason(r) then
               && call.checkDelegation && call.req.delegation.Some? && d.budgets == []
               && r == Walk(Mark(before, wall), call.req.delegation, 0, call.req.actor, now, call.req.intents)
             else
               && usable && AllTold(d.budgets, call.policies, call.cfg, group, before, wall)
               && FirstRefuses(d.budgets, call.policies, call.cfg, group, before, wall)
               && BudgetReason(r, call.policies[|d.budgets| - 1], call.cfg, before, wall)
  {
    hide Walk, Judge, Told, Refuses, ReserveAll, ConsumeAll, ApprovalProblem, MustDeny, SomeExpired, SomeUsed, Enforced;
    var now, db := EffectiveNow(before, wall), Mark(before, wall);
    EnforcedMustDeny(call);
    ApprovalProblemTells(db, call.local, now);
    SameUsed(call.local, before, wall);
    WalkSaysDelegation(db, call.req.delegation, 0, call.req.actor, now, call.req.intents);
    VerdictTells(before, call, wall);
  }

  lemma SameUsed(local: seq<(nat, Approval)>, before: Db, wall: Time)
    ensures SomeUsed(local, Mark(before, wall)) <==> SomeUsed(local, before)
  {}

  // ── What is told and what is in the tables ──

  /** The rows of a policy's budget in its window, at the time the mark allows. */
  function RowsOf(db: Db, b: BudgetPolicy, now: Time): set<(string, string)> {
    set k | k in db.reservations && k.0 == b.budgetId && db.reservations[k].at > now - b.windowSeconds * 1000
  }

  lemma {:induction false} OnePolicyPerBudget(charges: seq<BudgetPolicy>, p: BudgetPolicy, b: BudgetPolicy)
    requires Distinct(BudgetIds(charges)) && p in charges && b in charges && p.budgetId == b.budgetId
    ensures p == b
    decreases |charges|
  {
    var rest := BudgetIds(charges[1..]);
    assert BudgetIds(charges)[1..] == rest;
    AmongTheIds(charges[1..], p);
    AmongTheIds(charges[1..], b);
    if p in charges[1..] && b in charges[1..] {
      OnePolicyPerBudget(charges[1..], p, b);
    }
  }

  lemma {:induction false} AmongTheIds(charges: seq<BudgetPolicy>, p: BudgetPolicy)
    ensures p in charges ==> p.budgetId in BudgetIds(charges)
    decreases |charges|
  {
    if charges != [] {
      AmongTheIds(charges[1..], p);
    }
  }

  lemma {:induction false} ReservedRows(before: Db, call: Call, wall: Time) returns (reserved: Db)
    requires Decide(before, call, wall).Commit?
    ensures
      var now, charges := EffectiveNow(before, wall), ChargedBy(before, call, wall);
      && ReserveAll(Mark(before, wall), charges, call.req.actionGroup, now) == Some(reserved)
      && Transact(before, call, wall, false).0.reservations == reserved.reservations
      && Distinct(BudgetIds(charges))
  {
    hide Walk, Judge;
    var now, group, db := EffectiveNow(before, wall), call.req.actionGroup, Mark(before, wall);
    var charges := ChargedBy(before, call, wall);
    reserved := ReserveAll(db, charges, group, now).value;
    WhenReservingSucceeds(db, charges, group, now);
    WhatConsumingWrites(reserved, call.local, group, now);
  }

  /** A commit adds this call's row to a budget counting it, unless it is there, and deletes none still in the window. */
  lemma {:induction false} RowsAreKept(before: Db, call: Call, wall: Time, b: BudgetPolicy)
    requires Decide(before, call, wall).Commit? && b in call.policies && InForce(b, call.cfg, before, wall) && b.windowSeconds > 0
    ensures
      var after, now, key := Transact(before, call, wall, false).0, Max(wall, before.highWater), (b.budgetId, call.req.actionGroup);
      RowsOf(after, b, now) == if CountedBefore(before, b, call.req.actionGroup) then RowsOf(before, b, now) else RowsOf(before, b, now) + {key}
  {
    hide Decide, Walk, ReserveAll, Transact, ChargedBy, BudgetIds, Distinct;
    var now, group, db := EffectiveNow(before, wall), call.req.actionGroup, Mark(before, wall);
    var charges, after := ChargedBy(before, call, wall), Transact(before, call, wall, false).0;
    var reserved := ReservedRows(before, call, wall);
    WhatReservingInserts(db, charges, group, now);
    WhatReservingDeletes(db, charges, group, now);
    InForceIs(b, call.cfg, before, wall);
    WhatACallCharges(before, call, wall, b);
    forall p | p in charges && p.budgetId == b.budgetId ensures p == b && b in charges {
      WhatACallCharges(before, call, wall, p);
      OnePolicyPerBudget(charges, p, b);
    }
    forall k | k in before.reservations && k.0 == b.budgetId && before.reservations[k].at > now - b.windowSeconds * 1000
      ensures k in after.reservations && after.reservations[k] == before.reservations[k]
    {}
  }

  /** After a commit, each policy in force whose window is not empty is told the number of rows its budget now has in
      the window: those there were, and this call's. */
  lemma {:induction false} TheCountIsTheTables(before: Db, call: Call, wall: Time, k: nat)
    requires Decide(before, call, wall).Commit? && k < |call.policies|
    requires InForce(call.policies[k], call.cfg, before, wall) && call.policies[k].windowSeconds > 0
    ensures
      var (after, d) := Transact(before, call, wall, false);
      var b, now := call.policies[k], Max(wall, before.highWater);
      && k < |d.budgets| && d.budgets[k].count == |RowsOf(after, b, now)|
      && (forall row :: row in RowsOf(before, b, now) ==> row in RowsOf(after, b, now))
      && (b.budgetId, call.req.actionGroup) in after.reservations
  {
    hide Decide, Walk, InForce, RowsOf, Transact, AllTold;
    var (after, d) := Transact(before, call, wall, false);
    var b, now, group := call.policies[k], Max(wall, before.highWater), call.req.actionGroup;
    WhatACallIsTold(before, call, wall);
    ToldAt(d.budgets, call, before, wall, k);
    RowsAreKept(before, call, wall, b);
    CommittedIsCounted(before, call, wall, b);
    if b.enforce {
      CommittedWasAdmitted(before, call, wall, b);
    }
    RowsAreCounted(before, b, now);
    NotARow(before, b, now, (b.budgetId, group));
  }

  lemma ToldAt(seen: seq<Observation>, call: Call, before: Db, wall: Time, k: nat)
    requires AllTold(seen, call.policies, call.cfg, call.req.actionGroup, before, wall) && k < |seen|
    ensures Told(seen[k], call.policies[k], call.cfg, call.req.actionGroup, before, wall)
  {}

  lemma RowsAreCounted(db: Db, b: BudgetPolicy, now: Time)
    ensures |RowsOf(db, b, now)| == CountedIn(db, b, now)
  {
    assert RowsOf(db, b, now) == set k | k in db.reservations && k.0 == b.budgetId && db.reservations[k].at > now - b.windowSeconds * 1000;
  }

  lemma NotARow(db: Db, b: BudgetPolicy, now: Time, key: (string, string))
    ensures key !in db.reservations ==> key !in RowsOf(db, b, now)
  {}

  // ── What is spent ──

  /** After a commit each approval the call chose has its row, with its actor, action, request and this call's group,
      at the time the mark allows. */
  lemma {:induction false} CommittedIsSpent(before: Db, call: Call, wall: Time, k: nat)
    requires Decide(before, call, wall).Commit? && k < |call.local|
    ensures
      var after, a := Transact(before, call, wall, false).0, call.local[k].1;
      && a.id in after.consumptions
      && after.consumptions[a.id].actor == a.subject.actor && after.consumptions[a.id].actionType == a.subject.actionType
      && after.consumptions[a.id].requestHash == a.subject.requestHash
      && after.consumptions[a.id].actionGroup == call.req.actionGroup && after.consumptions[a.id].at == Max(wall, before.highWater)
  {
    hide Walk, Judge, ReserveAll, ConsumeAll, Consumed;
    var now, group := EffectiveNow(before, wall), call.req.actionGroup;
    var reserved := ReserveAll(Mark(before, wall), ChargedBy(before, call, wall), group, now).value;
    ConsumedRow(reserved, call.local, group, now, k);
  }

  lemma {:induction false} ConsumedRow(db: Db, local: seq<(nat, Approval)>, group: string, now: Time, k: nat)
    requires ConsumeAll(db, local, group, now).Some? && k < |local|
    ensures
      var after, a := ConsumeAll(db, local, group, now).value, local[k].1;
      && a.id in after.consumptions
      && after.consumptions[a.id] == Consumption(a.subject.actor, a.subject.actionType, a.subject.requestHash, group, now)
    decreases |local|
  {
    var next := Consumed(db, local[0].1, group, now).value;
    WhatConsumingWrites(next, local[1..], group, now);
    if k > 0 {
      ConsumedRow(next, local[1..], group, now, k - 1);
    }
  }

  /** In every run, a call that ends with a grant is told it used its own approvals in order, then the workspace's. */
  lemma {:induction false} AnswerNamesWhatItUsed(events: seq<Event>, p: nat, wall: Time)
    requires MayFinish(Run(events), p) && Decide(Run(events).db, Run(events).procs[p].call, wall).Commit?
    ensures
      var call, w' := Run(events).procs[p].call, Apply(Run(events), Finish(p, wall));
      && p in w'.procs && w'.procs[p].Done? && w'.procs[p].decision.allow
      && |w'.procs[p].decision.consumed| == |call.local| + |call.cloud|
      && (forall k | 0 <= k < |call.local| :: w'.procs[p].decision.consumed[k] == call.local[k].1.id)
      && (forall k | 0 <= k < |call.cloud| :: w'.procs[p].decision.consumed[|call.local| + k] == call.cloud[k].1)
  {
    hide Decide, Transact, RunFrom;
    WhatACallIsTold(Run(events).db, Run(events).procs[p].call, wall);
  }

  // ── The workspace's approvals ──

  predicate Named(cloud: seq<(nat, string)>, id: string) {
    exists k | 0 <= k < |cloud| :: cloud[k].1 == id
  }

  /** A workspace approval is chosen for an intent that needs one, where there is a workspace: a presented reference
      not chosen before, or, when all of those are, the one the workspace says is active for the intent. */
  predicate MayBeChosen(cfg: Config, inp: Inputs, req: Request, before: seq<(nat, string)>, i: nat, id: string) {
    && cfg.cloud && i < |req.intents| && ("*" in cfg.requireApproval || req.intents[i].actionType in cfg.requireApproval)
    && !Named(before, id)
    && (id in inp.refs
        || (i in inp.active && inp.active[i] == id && forall k | 0 <= k < |inp.refs| :: Named(before, inp.refs[k])))
  }

  ghost predicate WellChosen(cfg: Config, inp: Inputs, req: Request, cloud: seq<(nat, string)>) {
    forall k | 0 <= k < |cloud| :: MayBeChosen(cfg, inp, req, cloud[..k], cloud[k].0, cloud[k].1)
  }

  lemma {:induction false} FirstUnusedIs(refs: seq<string>, cloud: seq<(nat, string)>)
    ensures
      match FirstUnused(refs, cloud)
      case Some(id) => id in refs && !Named(cloud, id)
      case None => forall k | 0 <= k < |refs| :: Named(cloud, refs[k])
    decreases |refs|
  {
    if refs != [] {
      FirstUnusedIs(refs[1..], cloud);
      forall k | 1 <= k < |refs| ensures refs[k] == refs[1..][k - 1] {}
    }
  }

  lemma OneMoreWellChosen(cfg: Config, inp: Inputs, req: Request, cloud: seq<(nat, string)>, i: nat, id: string)
    requires WellChosen(cfg, inp, req, cloud) && MayBeChosen(cfg, inp, req, cloud, i, id)
    ensures WellChosen(cfg, inp, req, cloud + [(i, id)])
  {
    hide MayBeChosen;
    var more := cloud + [(i, id)];
    assert more[..|cloud|] == cloud;
    forall k | 0 <= k < |more| ensures MayBeChosen(cfg, inp, req, more[..k], more[k].0, more[k].1) {
      if k < |cloud| {
        assert more[..k] == cloud[..k] && more[k] == cloud[k];
      }
    }
  }

  lemma CloudChoiceIs(cfg: Config, inp: Inputs, req: Request, cloud: seq<(nat, string)>, i: nat)
    requires i < |req.intents| && Requires(cfg, req.intents[i].actionType)
    ensures
      match CloudChoice(cfg, inp, cloud, i)
      case Some(id) => MayBeChosen(cfg, inp, req, cloud, i, id)
      case None => forall id :: !MayBeChosen(cfg, inp, req, cloud, i, id)
  {
    FirstUnusedIs(inp.refs, cloud);
    forall id | id in inp.refs ensures FirstUnused(inp.refs, cloud).None? ==> Named(cloud, id) {
      var k :| 0 <= k < |inp.refs| && inp.refs[k] == id;
    }
  }

  /** The loop stops for want of an approval: some intent needs one, no presented one is left for it, and nothing of
      the workspace's may be chosen. */
  ghost predicate Stuck(cfg: Config, inp: Inputs, req: Request, now: Time, i: nat, taken: seq<string>, cloud: seq<(nat, string)>) {
    && i < |req.intents| && ("*" in cfg.requireApproval || req.intents[i].actionType in cfg.requireApproval)
    && (forall c :: c in inp.candidates && cfg.hasKeys && CheckApproval(c, SubjectOf(req, i), now, cfg.maxLifetime).Valid? ==>
          c.approval.id in taken)
    && (forall id :: !MayBeChosen(cfg, inp, req, cloud, i, id))
  }

  /** Each workspace approval the loop chooses may be chosen, none twice; and when it stops it says that an approval
      is required where none was presented or there are no keys, else that those presented were rejected. */
  lemma {:induction false} TheWorkspaceIsAskedLast(
    cfg: Config, inp: Inputs, req: Request, now: Time, i: nat, local: seq<(nat, Approval)>, cloud: seq<(nat, string)>)
    returns (at: nat, taken: seq<string>, had: seq<(nat, string)>)
    requires i <= |req.intents| && WellChosen(cfg, inp, req, cloud)
    ensures
      match ChooseFrom(cfg, inp, req, now, i, local, cloud)
      case Chosen(_, all) => WellChosen(cfg, inp, req, all)
      case Missing(reason) =>
        && Stuck(cfg, inp, req, now, at, taken, had) && WellChosen(cfg, inp, req, had)
        && reason == if inp.candidates == [] || !cfg.hasKeys then ApprovalRequired else ApprovalRejected
    decreases |req.intents| - i
  {
    hide CheckApproval, MayBeChosen, WellChosen, CloudChoice, FirstFree;
    at, taken, had := i, Ids(local), cloud;
    if i < |req.intents| {
      if !Requires(cfg, req.intents[i].actionType) {
        at, taken, had := TheWorkspaceIsAskedLast(cfg, inp, req, now, i + 1, local, cloud);
      } else {
        var mine, theirs := LocalChoice(cfg, inp, req, now, Ids(local), i), CloudChoice(cfg, inp, cloud, i);
        FirstFreeIsFree(inp.candidates, SubjectOf(req, i), now, cfg.maxLifetime, Ids(local));
        CloudChoiceIs(cfg, inp, req, cloud, i);
        if mine.Some? {
          at, taken, had := TheWorkspaceIsAskedLast(cfg, inp, req, now, i + 1, local + [(i, mine.value)], cloud);
        } else if theirs.Some? {
          OneMoreWellChosen(cfg, inp, req, cloud, i, theirs.value);
          at, taken, had := TheWorkspaceIsAskedLast(cfg, inp, req, now, i + 1, local, cloud + [(i, theirs.value)]);
        }
      }
    }
  }

  // ── Every step ──

  /** A denial that names nothing as used and tells of no policy. */
  predicate PlainlyDenied(phase: Phase, reason: Reason) {
    phase == Done(Decision(false, reason, [], []))
  }

  /** What a call is told when it ends before its last transaction: for want of an approval, with an intent nothing was
      left for; as the workspace answers of its delegation or of an approval; or as the preview decides, which is what
      the same transaction would answer. */
  lemma {:induction false} EachStepAnswers(w: World, e: Event, p: nat) returns (at: nat, taken: seq<string>, had: seq<(nat, string)>)
    requires p in Apply(w, e).procs && Apply(w, e).procs[p].Done? && !(p in w.procs && w.procs[p] == Apply(w, e).procs[p])
    ensures
      var phase := Apply(w, e).procs[p];
      match e
      case Begin(n, cfg, req, inp, wall) =>
        && n == p
        && (!phase.decision.allow ==>
              && Stuck(cfg, inp, req, Max(wall, w.db.highWater), at, taken, had)
              && PlainlyDenied(phase, if inp.candidates == [] || !cfg.hasKeys then ApprovalRequired else ApprovalRejected))
        && (phase.decision.allow ==> phase.decision == Decision(true, Ok, [], []))
      case Resolve(n, verdict) => n == p && verdict.Some? && PlainlyDenied(phase, verdict.value)
      case Preview(n, wall) =>
        n == p && p in w.procs && w.procs[p].Ready? && !phase.decision.allow && phase.decision == Transact(w.db, w.procs[p].call, wall, false).1
      case Spend(n, refusal) => n == p && refusal.Some? && PlainlyDenied(phase, refusal.value)
      case Finish(n, wall) => n == p && MayFinish(w, p)
      case _ => false
  {
    hide Decide, Stuck, Choose, NeedsApproval, Applicable;
    at, taken, had := 0, [], [];
    if e.Begin? && e.p == p {
      at, taken, had := ChoosingTells(e.cfg, e.inp, e.req, Max(e.wall, w.db.highWater));
    }
  }

  lemma {:induction false} ChoosingTells(cfg: Config, inp: Inputs, req: Request, now: Time)
    returns (at: nat, taken: seq<string>, had: seq<(nat, string)>)
    ensures
      match Choose(cfg, inp, req, now)
      case Chosen(_, _) => true
      case Missing(reason) =>
        && Stuck(cfg, inp, req, now, at, taken, had)
        && reason == if inp.candidates == [] || !cfg.hasKeys then ApprovalRequired else ApprovalRejected
  {
    hide ChooseFrom, Stuck;
    at, taken, had := TheWorkspaceIsAskedLast(cfg, inp, req, now, 0, [], []);
  }
}
