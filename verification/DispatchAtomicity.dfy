/** What one call can write: an allowing decision spends exactly what it says, a denial nothing. */
module DispatchAtomicity {
  import opened Foundations
  import opened DispatchRules
  import opened DispatchStore
  import opened DispatchGuard
  import opened DispatchRuns

  // ── What one transaction writes ──

  lemma {:induction false} JudgeKeepsEarlier(
    db: Db, policies: seq<BudgetPolicy>, group: string, now: Time, rb: bool, sg: bool, seen: seq<Observation>, charges: seq<BudgetPolicy>)
    ensures
      var v := Judge(db, policies, group, now, rb, sg, seen, charges);
      v.Granted? ==> forall p :: p in v.charges <==>
        p in charges || (p in policies && Rule(db, p, group, now, rb, sg).Pass? && Rule(db, p, group, now, rb, sg).charge)
    decreases policies
  {
    if policies != [] {
      var r := Rule(db, policies[0], group, now, rb, sg);
      if r.Pass? {
        JudgeKeepsEarlier(db, policies[1..], group, now, rb, sg, seen + [r.seen],
                          if r.charge then charges + [policies[0]] else charges);
      }
    }
  }

  /** A policy that can be counted at all here and now. */
  predicate Enforceable(p: BudgetPolicy, cfg: Config, now: Time, rolledBack: bool) {
    (p.shared ==> cfg.sharedGateway) && PolicyProblem(p, now, rolledBack).None?
  }

  /** A committed call charges exactly its enforceable policies that have not counted this action group
      yet; an enforcing one among them still had a slot free. */
  lemma WhatACallCharges(before: Db, call: Call, wall: Time, p: BudgetPolicy)
    requires Decide(before, call, wall).Commit?
    ensures p in ChargedBy(before, call, wall) <==>
              && p in call.policies
              && Enforceable(p, call.cfg, EffectiveNow(before, wall), RolledBack(before, wall))
              && (p.budgetId, call.req.actionGroup) !in before.reservations
    ensures p in ChargedBy(before, call, wall) && p.enforce ==>
              |RowsAfter(before, p.budgetId, WindowStart(p, EffectiveNow(before, wall)))| < p.max
  {
    var now, rb, db := EffectiveNow(before, wall), RolledBack(before, wall), Mark(before, wall);
    JudgeKeepsEarlier(db, call.policies, call.req.actionGroup, now, rb, call.cfg.sharedGateway, [], []);
    PassedPoliciesPass(db, call.policies, call.req.actionGroup, now, rb, call.cfg.sharedGateway, [], []);
    assert RowsAfter(before, p.budgetId, WindowStart(p, now)) == RowsAfter(db, p.budgetId, WindowStart(p, now));
  }

  lemma {:induction false} PassedPoliciesPass(
    db: Db, policies: seq<BudgetPolicy>, group: string, now: Time, rb: bool, sg: bool, seen: seq<Observation>, charges: seq<BudgetPolicy>)
    requires Judge(db, policies, group, now, rb, sg, seen, charges).Granted?
    ensures forall p :: p in policies ==> Rule(db, p, group, now, rb, sg).Pass?
    decreases policies
  {
    if policies != [] {
      var r := Rule(db, policies[0], group, now, rb, sg);
      PassedPoliciesPass(db, policies[1..], group, now, rb, sg, seen + [r.seen],
                         if r.charge then charges + [policies[0]] else charges);
    }
  }

  predicate Names(charges: seq<BudgetPolicy>, budget: string) {
    exists p :: p in charges && p.budgetId == budget
  }

  function BudgetIds(charges: seq<BudgetPolicy>): seq<string> {
    if charges == [] then [] else [charges[0].budgetId] + BudgetIds(charges[1..])
  }

  /** Reserving fails exactly when a slot it needs is taken, by the table or by the call itself. */
  lemma {:induction false} WhenReservingSucceeds(db: Db, charges: seq<BudgetPolicy>, group: string, now: Time)
    ensures ReserveAll(db, charges, group, now).Some? <==>
              && (forall b :: b in BudgetIds(charges) ==> (b, group) !in db.reservations)
              && Distinct(BudgetIds(charges))
    decreases charges
  {
    if charges != [] {
      var b, rest := charges[0].budgetId, BudgetIds(charges[1..]);
      assert BudgetIds(charges)[1..] == rest;
      var next := Reserved(db, charges[0], group, now);
      if next.Some? {
        WhenReservingSucceeds(next.value, charges[1..], group, now);
        forall q | q in rest
          ensures (q, group) in next.value.reservations <==> (q, group) in db.reservations || q == b
        {}
      }
    }
  }

  /** Each charged policy gets one row, stamped now, with its version; no other row is new, and no other table changes. */
  lemma {:induction false} WhatReservingInserts(db: Db, charges: seq<BudgetPolicy>, group: string, now: Time)
    requires ReserveAll(db, charges, group, now).Some?
    ensures
      var after := ReserveAll(db, charges, group, now).value;
      && after == db.(reservations := after.reservations)
      && (forall p :: p in charges ==>
            (p.budgetId, group) in after.reservations && after.reservations[(p.budgetId, group)] == Reservation(now, p.version))
      && (forall k :: k in after.reservations && k !in db.reservations ==> k.1 == group && Names(charges, k.0))
    decreases charges
  {
    if charges != [] {
      var next := Reserved(db, charges[0], group, now).value;
      WhatReservingInserts(next, charges[1..], group, now);
      WhatReservingDeletes(next, charges[1..], group, now);
      assert (charges[0].budgetId, group) in next.reservations;
    }
  }

  /** A row stays as it was, unless it is an old row of a budget being charged. */
  lemma {:induction false} WhatReservingDeletes(db: Db, charges: seq<BudgetPolicy>, group: string, now: Time)
    requires ReserveAll(db, charges, group, now).Some?
    ensures
      var after := ReserveAll(db, charges, group, now).value;
      forall k :: k in db.reservations ==>
        || (k in after.reservations && after.reservations[k] == db.reservations[k])
        || (k !in after.reservations && exists p :: p in charges && p.budgetId == k.0 && db.reservations[k].at <= Cutoff(p, now))
    decreases charges
  {
    if charges != [] {
      var next := Reserved(db, charges[0], group, now).value;
      WhatReservingInserts(next, charges[1..], group, now);
      WhatReservingDeletes(next, charges[1..], group, now);
      assert charges[0] in charges;
    }
  }

  // ── Approvals ──

  /** Consuming fails exactly when an approval was used before, or is named twice. */
  lemma {:induction false} WhatConsumingWrites(db: Db, local: seq<(nat, Approval)>, group: string, now: Time)
    ensures ConsumeAll(db, local, group, now).Some? <==>
              (forall id :: id in Ids(local) ==> id !in db.consumptions) && Distinct(Ids(local))
    ensures ConsumeAll(db, local, group, now).Some? ==>
              var after := ConsumeAll(db, local, group, now).value;
              && after == db.(consumptions := after.consumptions)
              && (forall id :: id in after.consumptions <==> id in db.consumptions || id in Ids(local))
              && (forall id :: id in db.consumptions ==> after.consumptions[id] == db.consumptions[id])
    decreases local
  {
    if local == [] {
      assert Ids(local) == [];
    } else {
      assert Ids(local) == [local[0].1.id] + Ids(local[1..]);
      var next := Consumed(db, local[0].1, group, now);
      if next.Some? {
        WhatConsumingWrites(next.value, local[1..], group, now);
      }
    }
  }

  lemma {:induction false} NoApprovalProblem(db: Db, local: seq<(nat, Approval)>, now: Time)
    ensures ApprovalProblem(db, local, now).None? <==>
              forall c :: c in local ==> now < c.1.expiresAt && c.1.id !in db.consumptions
    decreases local
  {
    if local != [] {
      NoApprovalProblem(db, local[1..], now);
      assert forall c :: c in local <==> c == local[0] || c in local[1..];
    }
  }

  lemma IdsAreTheirs(local: seq<(nat, Approval)>)
    ensures forall id :: id in Ids(local) <==> exists c :: c in local && c.1.id == id
  {
    forall c | c in local ensures c.1.id in Ids(local) {
      var k :| 0 <= k < |local| && local[k] == c;
      assert Ids(local)[k] == c.1.id;
    }
  }

  // ── The transaction as a whole ──

  /** One slot of this call's: an enforceable policy of the call counts it and has not counted it yet. */
  predicate NewSlot(before: Db, call: Call, wall: Time, key: (string, string)) {
    && key.1 == call.req.actionGroup
    && key !in before.reservations
    && exists p :: p in call.policies && p.budgetId == key.0
         && Enforceable(p, call.cfg, EffectiveNow(before, wall), RolledBack(before, wall))
  }

  /** A row that no longer matters to any count of its budget: two windows old under a policy of the call. */
  predicate Prunable(before: Db, call: Call, wall: Time, key: (string, string))
    requires key in before.reservations
  {
    exists p :: p in call.policies && p.budgetId == key.0 && before.reservations[key].at <= Cutoff(p, EffectiveNow(before, wall))
  }

  /** A transaction that does not commit leaves every table as it was, the clock mark included. One that
      commits allows the call, raises the mark, consumes exactly the chosen approvals, and adds exactly one
      row for each of the call's new slots; apart from prunable rows, everything else stays. */
  lemma AllOrNothing(before: Db, call: Call, wall: Time)
    ensures
      var (after, decision) := Transact(before, call, wall, false);
      if !Decide(before, call, wall).Commit? then after == before && decision.consumed == []
      else
        && decision.allow && decision.reason == Ok && decision.consumed == Ids(call.local)
        && after.highWater == EffectiveNow(before, wall)
        && after.delegations == before.delegations && after.revocations == before.revocations
        && (forall id :: id in after.consumptions <==> id in before.consumptions || id in Ids(call.local))
        && (forall id :: id in Ids(call.local) ==> id !in before.consumptions)
        && (forall id :: id in before.consumptions ==> after.consumptions[id] == before.consumptions[id])
        && (forall k :: NewSlot(before, call, wall, k) ==> k in after.reservations && after.reservations[k].at == after.highWater)
        && (forall k :: k in after.reservations ==> k in before.reservations || NewSlot(before, call, wall, k))
        && (forall k :: k in before.reservations ==>
              if k in after.reservations then after.reservations[k] == before.reservations[k]
              else Prunable(before, call, wall, k))
  {
    if Decide(before, call, wall).Commit? {
      var now, group, db := EffectiveNow(before, wall), call.req.actionGroup, Mark(before, wall);
      var charges := ChargedBy(before, call, wall);
      WhatReservingInserts(db, charges, group, now);
      WhatReservingDeletes(db, charges, group, now);
      var reserved := ReserveAll(db, charges, group, now).value;
      WhatConsumingWrites(reserved, call.local, group, now);
      NoApprovalProblem(db, call.local, now);
      forall k | NewSlot(before, call, wall, k)
        ensures k in reserved.reservations && reserved.reservations[k].at == now
      {
        var p :| p in call.policies && p.budgetId == k.0 && Enforceable(p, call.cfg, now, RolledBack(before, wall));
        WhatACallCharges(before, call, wall, p);
      }
      forall k | k in reserved.reservations && k !in before.reservations
        ensures NewSlot(before, call, wall, k)
      {
        var p :| p in charges && p.budgetId == k.0;
        WhatACallCharges(before, call, wall, p);
      }
      forall k | k in before.reservations && k !in reserved.reservations
        ensures Prunable(before, call, wall, k)
      {
        var p :| p in charges && p.budgetId == k.0 && before.reservations[k].at <= Cutoff(p, now);
        WhatACallCharges(before, call, wall, p);
      }
    }
  }

  /** The policies of a call that would count it, in order. */
  function Countable(before: Db, policies: seq<BudgetPolicy>, call: Call, wall: Time): seq<BudgetPolicy>
    decreases policies
  {
    if policies == [] then []
    else
      var p := policies[0];
      var rest := Countable(before, policies[1..], call, wall);
      if Enforceable(p, call.cfg, EffectiveNow(before, wall), RolledBack(before, wall)) && (p.budgetId, call.req.actionGroup) !in before.reservations
      then [p] + rest else rest
  }

  /** An enforcing policy lets the call pass: it can be enforced, and counted the call before or has room. */
  predicate Admits(before: Db, p: BudgetPolicy, call: Call, wall: Time) {
    && Enforceable(p, call.cfg, EffectiveNow(before, wall), RolledBack(before, wall))
    && ((p.budgetId, call.req.actionGroup) in before.reservations
        || |RowsAfter(before, p.budgetId, WindowStart(p, EffectiveNow(before, wall)))| < p.max)
  }

  /** Exactly when a transaction commits: the delegation permits the call, every chosen approval is
      distinct, unexpired and unused, every enforcing policy admits it, and no two policies would count it
      on the same budget (whose second row the primary key refuses). */
  lemma WhenATransactionCommits(before: Db, call: Call, wall: Time)
    ensures
      var now := EffectiveNow(before, wall);
      Decide(before, call, wall).Commit? <==>
        && DelegationAnswer(Mark(before, wall), call, now) == Ok
        && Distinct(Ids(call.local))
        && (forall c :: c in call.local ==> now < c.1.expiresAt && c.1.id !in before.consumptions)
        && (forall p :: p in call.policies && p.enforce ==> Admits(before, p, call, wall))
        && Distinct(BudgetIds(Countable(before, call.policies, call, wall)))
  {
    hide Rule, Admits, Walk, Judge, ReserveAll, ConsumeAll, ApprovalProblem, Countable, Distinct;
    var now, rb, sg := EffectiveNow(before, wall), RolledBack(before, wall), call.cfg.sharedGateway;
    var group, db := call.req.actionGroup, Mark(before, wall);
    NoApprovalProblem(db, call.local, now);
    IdsAreTheirs(call.local);
    WhenJudgingGrants(db, call.policies, group, now, rb, sg, [], []);
    forall p | p in call.policies
      ensures Rule(db, p, group, now, rb, sg).Pass? <==> (p.enforce ==> Admits(before, p, call, wall))
    {
      WhenARulePasses(before, p, call, wall);
    }
    var v := VerdictOn(db, call, now, rb);
    if v.Granted? && ApprovalProblem(db, call.local, now).None? {
      ChargesAreTheCountable(before, call.policies, call, wall, [], []);
      WhenWritingCommits(before, call, wall, v.charges);
    }
  }

  lemma WhenARulePasses(before: Db, p: BudgetPolicy, call: Call, wall: Time)
    ensures
      var now, rb := EffectiveNow(before, wall), RolledBack(before, wall);
      Rule(Mark(before, wall), p, call.req.actionGroup, now, rb, call.cfg.sharedGateway).Pass?
      <==> (p.enforce ==> Admits(before, p, call, wall))
  {
    var since := WindowStart(p, EffectiveNow(before, wall));
    assert RowsAfter(before, p.budgetId, since) == RowsAfter(Mark(before, wall), p.budgetId, since);
  }

  lemma WhenWritingCommits(before: Db, call: Call, wall: Time, charges: seq<BudgetPolicy>)
    requires charges == Countable(before, call.policies, call, wall)
    requires forall id :: id in Ids(call.local) ==> id !in before.consumptions
    ensures
      var now, group := EffectiveNow(before, wall), call.req.actionGroup;
      var reserved := ReserveAll(Mark(before, wall), charges, group, now);
      (reserved.Some? && ConsumeAll(reserved.value, call.local, group, now).Some?) <==>
        Distinct(BudgetIds(charges)) && Distinct(Ids(call.local))
  {
    var now, group, db := EffectiveNow(before, wall), call.req.actionGroup, Mark(before, wall);
    WhenReservingSucceeds(db, charges, group, now);
    CountableSlotsAreFree(before, call.policies, call, wall);
    var reserved := ReserveAll(db, charges, group, now);
    if reserved.Some? {
      WhatReservingInserts(db, charges, group, now);
      WhatConsumingWrites(reserved.value, call.local, group, now);
    }
  }

  lemma {:induction false} CountableSlotsAreFree(before: Db, policies: seq<BudgetPolicy>, call: Call, wall: Time)
    ensures forall b :: b in BudgetIds(Countable(before, policies, call, wall)) ==> (b, call.req.actionGroup) !in before.reservations
    decreases policies
  {
    if policies != [] {
      CountableSlotsAreFree(before, policies[1..], call, wall);
    }
  }

  lemma {:induction false} WhenJudgingGrants(
    db: Db, policies: seq<BudgetPolicy>, group: string, now: Time, rb: bool, sg: bool, seen: seq<Observation>, charges: seq<BudgetPolicy>)
    ensures Judge(db, policies, group, now, rb, sg, seen, charges).Granted? <==>
              forall p :: p in policies ==> Rule(db, p, group, now, rb, sg).Pass?
    decreases policies
  {
    if policies != [] {
      var r := Rule(db, policies[0], group, now, rb, sg);
      assert policies[0] in policies;
      if r.Pass? {
        WhenJudgingGrants(db, policies[1..], group, now, rb, sg, seen + [r.seen], if r.charge then charges + [policies[0]] else charges);
        assert forall p :: p in policies <==> p == policies[0] || p in policies[1..];
      }
    }
  }

  lemma {:induction false} ChargesAreTheCountable(
    before: Db, policies: seq<BudgetPolicy>, call: Call, wall: Time, seen: seq<Observation>, charges: seq<BudgetPolicy>)
    requires Judge(Mark(before, wall), policies, call.req.actionGroup, EffectiveNow(before, wall), RolledBack(before, wall),
                   call.cfg.sharedGateway, seen, charges).Granted?
    ensures Judge(Mark(before, wall), policies, call.req.actionGroup, EffectiveNow(before, wall), RolledBack(before, wall),
                  call.cfg.sharedGateway, seen, charges).charges
         == charges + Countable(before, policies, call, wall)
    decreases policies
  {
    if policies != [] {
      var r := Rule(Mark(before, wall), policies[0], call.req.actionGroup, EffectiveNow(before, wall), RolledBack(before, wall),
                    call.cfg.sharedGateway);
      ChargesAreTheCountable(before, policies[1..], call, wall, seen + [r.seen], if r.charge then charges + [policies[0]] else charges);
    }
  }

  // ── Whole calls ──

  /** Only the last step of a call that ends allowed writes to the approval and reservation tables, so a
      call that ends denied has spent nothing there at any of its steps. */
  lemma DenialSpendsNothing(w: World, e: Event)
    ensures Apply(w, e).db.consumptions != w.db.consumptions || Apply(w, e).db.reservations != w.db.reservations ==>
              && e.Finish?
              && Apply(w, e).procs[e.p].Done?
              && Apply(w, e).procs[e.p].decision.allow
  {
    if e.ImportMany? {
      ImportTouchesRevocationsOnly(w.db, e.ids);
    }
  }

  predicate Listed(ids: seq<(string, Time)>, id: string) {
    exists x | x in ids :: x.0 == id
  }

  lemma ListedFirst(ids: seq<(string, Time)>, id: string)
    requires ids != []
    ensures Listed(ids, id) <==> ids[0].0 == id || Listed(ids[1..], id)
  {
    assert forall x :: x in ids <==> x == ids[0] || x in ids[1..];
  }

  lemma {:induction false} ImportTouchesRevocationsOnly(db: Db, ids: seq<(string, Time)>)
    ensures Imported(db, ids) == db.(revocations := Imported(db, ids).revocations)
    ensures forall id :: id in db.revocations ==> id in Imported(db, ids).revocations && Imported(db, ids).revocations[id] == db.revocations[id]
    ensures forall id :: id in Imported(db, ids).revocations <==> id in db.revocations || (Listed(ids, id) && id != "")
    ensures forall id :: id in Imported(db, ids).revocations && id !in db.revocations ==> (id, Imported(db, ids).revocations[id]) in ids
    decreases ids
  {
    if ids != [] {
      ImportTouchesRevocationsOnly(if ids[0].0 == "" then db else Revoked(db, ids[0].0, ids[0].1), ids[1..]);
      assert forall id :: Listed(ids, id) <==> ids[0].0 == id || Listed(ids[1..], id) by {
        forall id ensures Listed(ids, id) <==> ids[0].0 == id || Listed(ids[1..], id) {
          ListedFirst(ids, id);
        }
      }
    }
  }
}
