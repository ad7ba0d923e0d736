/** The guard: which approvals a call presents, and the one transaction that decides and spends. */
module DispatchGuard {
  import opened Foundations
  import opened DispatchRules
  import opened DispatchStore

  /** One guard's configuration. `cloud` is whether a workspace is configured as a second source. */
  datatype Config = Config(
    hasKeys: bool, requireApproval: seq<string>, maxLifetime: Option<int>, sharedGateway: bool, cloud: bool)

  /** What a call reads from outside: the presented approvals, the references to workspace approvals, the
      workspace's answer to each intent's lookup (absent: none active, or it could not be asked), and the
      budget policies in force. */
  datatype Inputs = Inputs(
    candidates: seq<Candidate>, refs: seq<string>, active: map<nat, string>, budgets: seq<BudgetPolicy>)

  predicate Requires(cfg: Config, actionType: string) {
    "*" in cfg.requireApproval || actionType in cfg.requireApproval
  }

  predicate NeedsApproval(cfg: Config, req: Request) {
    exists i :: i in req.intents && Requires(cfg, i.actionType)
  }

  predicate Applies(p: BudgetPolicy, req: Request) {
    p.actor == req.actor && exists i :: i in req.intents && i.actionType in p.operations
  }

  function Applicable(budgets: seq<BudgetPolicy>, req: Request): (r: seq<BudgetPolicy>)
    ensures forall p :: p in r <==> p in budgets && Applies(p, req)
  {
    if budgets == [] then []
    else (if Applies(budgets[0], req) then [budgets[0]] else []) + Applicable(budgets[1..], req)
  }

  /** Filtered in order, repeats and all: a policy in the list is kept where it stands, or dropped. */
  lemma {:induction false} FilteredInPlace(a: seq<BudgetPolicy>, p: BudgetPolicy, b: seq<BudgetPolicy>, req: Request)
    ensures Applicable(a + [p] + b, req) == Applicable(a, req) + (if Applies(p, req) then [p] else []) + Applicable(b, req)
    decreases a
  {
    hide Applies;
    var s := a + [p] + b;
    if a == [] {
      assert s[0] == p && s[1..] == b;
    } else {
      assert s[0] == a[0] && s[1..] == a[1..] + [p] + b;
      FilteredInPlace(a[1..], p, b, req);
    }
  }

  predicate Enforcing(policies: seq<BudgetPolicy>) {
    exists p :: p in policies && p.enforce
  }

  /** Whether a failure of the counter must deny. */
  predicate MustDeny(cfg: Config, req: Request, policies: seq<BudgetPolicy>) {
    Enforcing(policies) || NeedsApproval(cfg, req) || req.delegation.Some?
  }

  // ── Choosing approvals ──

  datatype Choice = Chosen(local: seq<(nat, Approval)>, cloud: seq<(nat, string)>) | Missing(reason: Reason)

  function Ids(local: seq<(nat, Approval)>): (r: seq<string>)
    ensures |r| == |local| && forall k :: 0 <= k < |local| ==> r[k] == local[k].1.id
  {
    seq(|local|, k requires 0 <= k < |local| => local[k].1.id)
  }

  predicate CloudUsed(cloud: seq<(nat, string)>, id: string) {
    exists k :: 0 <= k < |cloud| && cloud[k].1 == id
  }

  /** The first presented approval that is valid for the subject and not taken yet by an earlier intent. */
  function FirstFree(candidates: seq<Candidate>, s: Subject, now: Time, maxLifetime: Option<int>, taken: seq<string>): Option<Approval>
  {
    if candidates == [] then None
    else
      var checked := CheckApproval(candidates[0], s, now, maxLifetime);
      if checked.Valid? && checked.approval.id !in taken then Some(checked.approval)
      else FirstFree(candidates[1..], s, now, maxLifetime, taken)
  }

  function FirstUnused(refs: seq<string>, cloud: seq<(nat, string)>): Option<string> {
    if refs == [] then None
    else if !CloudUsed(cloud, refs[0]) then Some(refs[0])
    else FirstUnused(refs[1..], cloud)
  }

  /** The workspace approval an intent without a local one is given: an unused reference, else the one the
      workspace says is active, unless another intent has it. */
  function CloudChoice(cfg: Config, inp: Inputs, cloud: seq<(nat, string)>, i: nat): Option<string> {
    if !cfg.cloud then None
    else if FirstUnused(inp.refs, cloud).Some? then FirstUnused(inp.refs, cloud)
    else if i in inp.active && !CloudUsed(cloud, inp.active[i]) then Some(inp.active[i])
    else None
  }

  function LocalChoice(cfg: Config, inp: Inputs, req: Request, now: Time, taken: seq<string>, i: nat): Option<Approval>
    requires i < |req.intents|
  {
    if cfg.hasKeys then FirstFree(inp.candidates, SubjectOf(req, i), now, cfg.maxLifetime, taken) else None
  }

  function ChooseFrom(cfg: Config, inp: Inputs, req: Request, now: Time, i: nat, local: seq<(nat, Approval)>, cloud: seq<(nat, string)>): Choice
    requires i <= |req.intents|
    decreases |req.intents| - i
  {
    if i == |req.intents| then Chosen(local, cloud)
    else if !Requires(cfg, req.intents[i].actionType) then ChooseFrom(cfg, inp, req, now, i + 1, local, cloud)
    else
      var mine := LocalChoice(cfg, inp, req, now, Ids(local), i);
      if mine.Some? then ChooseFrom(cfg, inp, req, now, i + 1, local + [(i, mine.value)], cloud)
      else
        var theirs := CloudChoice(cfg, inp, cloud, i);
        if theirs.Some? then ChooseFrom(cfg, inp, req, now, i + 1, local, cloud + [(i, theirs.value)])
        else Missing(if inp.candidates == [] || !cfg.hasKeys then ApprovalRequired else ApprovalRejected)
  }

  function Choose(cfg: Config, inp: Inputs, req: Request, now: Time): Choice {
    ChooseFrom(cfg, inp, req, now, 0, [], [])
  }

  /** The loop of `authorize` that fills `chosen` and `cloudChosen`. */
  method ChooseApprovals(cfg: Config, inp: Inputs, req: Request, now: Time) returns (c: Choice)
    ensures c == Choose(cfg, inp, req, now)
  {
    var chosen: seq<(nat, Approval)>, cloudChosen: seq<(nat, string)> := [], [];
    for i := 0 to |req.intents|
      invariant ChooseFrom(cfg, inp, req, now, i, chosen, cloudChosen) == Choose(cfg, inp, req, now)
    {
      if Requires(cfg, req.intents[i].actionType) {
        var found: Option<Approval> := None;
        var taken := Ids(chosen);
        var n := 0;
        while cfg.hasKeys && n < |inp.candidates|
          invariant 0 <= n <= |inp.candidates|
          invariant found == None
          invariant FirstFree(inp.candidates[n..], SubjectOf(req, i), now, cfg.maxLifetime, taken)
                 == FirstFree(inp.candidates, SubjectOf(req, i), now, cfg.maxLifetime, taken)
        {
          assert inp.candidates[n..][1..] == inp.candidates[n + 1..];
          var checked := CheckApproval(inp.candidates[n], SubjectOf(req, i), now, cfg.maxLifetime);
          if checked.Valid? && checked.approval.id !in taken {
            found := Some(checked.approval);
            break;
          }
          n := n + 1;
        }
        if found.Some? {
          chosen := chosen + [(i, found.value)];
        } else {
          var theirs := CloudChoice(cfg, inp, cloudChosen, i);
          if theirs.None? {
            return Missing(if inp.candidates == [] || !cfg.hasKeys then ApprovalRequired else ApprovalRejected);
          }
          cloudChosen := cloudChosen + [(i, theirs.value)];
        }
      }
    }
    return Chosen(chosen, cloudChosen);
  }

  // ── The decision ──

  /** Everything the transaction needs, fixed before it begins. `checkDelegation` is false when the request
      names no delegation or the workspace answered for it. */
  datatype Call = Call(
    cfg: Config, req: Request, policies: seq<BudgetPolicy>, local: seq<(nat, Approval)>, cloud: seq<(nat, string)>,
    checkDelegation: bool)

  datatype Ruling = Stop(reason: Reason, seen: Observation) | Pass(seen: Observation, charge: bool)

  function PolicyProblem(p: BudgetPolicy, now: Time, rolledBack: bool): Option<Reason> {
    if p.revoked then Some(BudgetRevoked)
    else if p.expiresAt <= now then Some(BudgetExpired)
    else if !p.acknowledged then Some(BudgetUnacknowledged)
    else if rolledBack then Some(ClockRollback)
    else None
  }

  /** One policy's answer. A monitoring policy never stops a call, and charges it even beyond the limit. */
  function Rule(db: Db, p: BudgetPolicy, group: string, now: Time, rolledBack: bool, sharedGateway: bool): Ruling {
    var refusal :=
      if p.shared && !sharedGateway then Some(BudgetCapabilityUnsupported) else PolicyProblem(p, now, rolledBack);
    if refusal.Some? then
      var seen := Observation(p.budgetId, 0, Unenforceable, false);
      if p.enforce then Stop(refusal.value, seen) else Pass(seen, false)
    else
      var repeated := (p.budgetId, group) in db.reservations;
      var count := |RowsAfter(db, p.budgetId, WindowStart(p, now))|;
      var after := if repeated then count else count + 1;
      var over := !repeated && count >= p.max;
      var state := if over then Over else if after == p.max then AtLimit else Within;
      var seen := Observation(p.budgetId, if over && p.enforce then count else after, state, repeated);
      if over && p.enforce then Stop(BudgetExceeded, seen) else Pass(seen, !repeated)
  }

  datatype Verdict = Refused(reason: Reason, seen: seq<Observation>) | Granted(seen: seq<Observation>, charges: seq<BudgetPolicy>)

  function Judge(
    db: Db, policies: seq<BudgetPolicy>, group: string, now: Time, rolledBack: bool, sharedGateway: bool,
    seen: seq<Observation>, charges: seq<BudgetPolicy>): Verdict
    decreases policies
  {
    if policies == [] then Granted(seen, charges)
    else
      match Rule(db, policies[0], group, now, rolledBack, sharedGateway)
      case Stop(reason, o) => Refused(reason, seen + [o])
      case Pass(o, charge) =>
        Judge(db, policies[1..], group, now, rolledBack, sharedGateway, seen + [o],
              if charge then charges + [policies[0]] else charges)
  }

  function ApprovalProblem(db: Db, local: seq<(nat, Approval)>, now: Time): Option<Reason> {
    if local == [] then None
    else if local[0].1.expiresAt <= now then Some(ApprovalRejected)
    else if local[0].1.id in db.consumptions then Some(ApprovalReplayed)
    else ApprovalProblem(db, local[1..], now)
  }

  function ReserveAll(db: Db, charges: seq<BudgetPolicy>, group: string, now: Time): Option<Db>
    decreases charges
  {
    if charges == [] then Some(db)
    else
      var next := Reserved(db, charges[0], group, now);
      if next.None? then None else ReserveAll(next.value, charges[1..], group, now)
  }

  function ConsumeAll(db: Db, local: seq<(nat, Approval)>, group: string, now: Time): Option<Db>
    decreases local
  {
    if local == [] then Some(db)
    else
      var next := Consumed(db, local[0].1, group, now);
      if next.None? then None else ConsumeAll(next.value, local[1..], group, now)
  }

  /** What the transaction's function returns: commit with these tables, roll back, or throw (a primary key
      already taken). */
  datatype Outcome = Commit(db: Db, decision: Decision) | Rollback(decision: Decision) | Threw

  function Write(db: Db, call: Call, v: Verdict, now: Time): Outcome
    requires v.Granted?
  {
    var reserved := ReserveAll(db, v.charges, call.req.actionGroup, now);
    if reserved.None? then Threw else
    var consumed := ConsumeAll(reserved.value, call.local, call.req.actionGroup, now);
    if consumed.None? then Threw
    else Commit(consumed.value, Decision(true, Ok, Ids(call.local), v.seen))
  }

  function DelegationAnswer(db: Db, call: Call, now: Time): Reason {
    if call.checkDelegation && call.req.delegation.Some?
    then Walk(db, call.req.delegation, 0, call.req.actor, now, call.req.intents)
    else Ok
  }

  function VerdictOn(db: Db, call: Call, now: Time, rolledBack: bool): Verdict {
    Judge(db, call.policies, call.req.actionGroup, now, rolledBack, call.cfg.sharedGateway, [], [])
  }

  function Decide(before: Db, call: Call, wall: Time): Outcome {
    var now, rolledBack, db := EffectiveNow(before, wall), RolledBack(before, wall), Mark(before, wall);
    if DelegationAnswer(db, call, now) != Ok then Rollback(Deny(DelegationAnswer(db, call, now), []))
    else if ApprovalProblem(db, call.local, now).Some? then Rollback(Deny(ApprovalProblem(db, call.local, now).value, []))
    else
      var v := VerdictOn(db, call, now, rolledBack);
      if v.Refused? then Rollback(Deny(v.reason, v.seen)) else Write(db, call, v, now)
  }

  function UnavailableSeen(policies: seq<BudgetPolicy>): seq<Observation> {
    seq(|policies|, k requires 0 <= k < |policies| => Observation(policies[k].budgetId, 0, Unavailable, false))
  }

  /** The answer when the counter could not be used: a denial wherever anything is being enforced. */
  function Unusable(call: Call): Decision {
    if MustDeny(call.cfg, call.req, call.policies)
    then Decision(false, CounterUnavailable, [], UnavailableSeen(call.policies))
    else Decision(true, Ok, [], UnavailableSeen(call.policies))
  }

  /** The tables and the answer after one transaction; a preview always rolls back. */
  function Transact(before: Db, call: Call, wall: Time, preview: bool): (Db, Decision) {
    match Decide(before, call, wall)
    case Commit(db, decision) => (if preview then before else db, decision)
    case Rollback(decision) => (before, decision)
    case Threw => (before, Unusable(call))
  }

  /** `BEGIN IMMEDIATE`, the decision, and `COMMIT` or `ROLLBACK`, on the store in place. */
  method RunTransaction(store: Store, call: Call, wall: Time, preview: bool) returns (decision: Decision)
    modifies store
    ensures (store.Tables(), decision) == Transact(old(store.Tables()), call, wall, preview)
  {
    var saved := store.Tables();
    var outcome := DecideInPlace(store, call, wall);
    if outcome.None? {
      store.Restore(saved);
      return Unusable(call);
    }
    decision := outcome.value;
    if !decision.allow || preview {
      store.Restore(saved);
    }
  }

  /** The body of the transaction. None when a statement threw. */
  method DecideInPlace(store: Store, call: Call, wall: Time) returns (r: Option<Decision>)
    modifies store
    ensures r == match Decide(old(store.Tables()), call, wall)
                 case Commit(_, d) => Some(d) case Rollback(d) => Some(d) case Threw => None
    ensures Decide(old(store.Tables()), call, wall).Commit? ==> r.value.allow && store.Tables() == Decide(old(store.Tables()), call, wall).db
    ensures Decide(old(store.Tables()), call, wall).Rollback? ==> !r.value.allow
  {
    var now, rolledBack := store.ReadClock(wall);
    ghost var db := store.Tables();
    var group := call.req.actionGroup;
    if call.checkDelegation && call.req.delegation.Some? {
      var verdict := store.CheckDelegation(call.req.delegation.value, call.req.actor, now, call.req.intents);
      if verdict != Ok {
        return Some(Deny(verdict, []));
      }
    }
    for k := 0 to |call.local|
      invariant ApprovalProblem(db, call.local[k..], now) == ApprovalProblem(db, call.local, now)
    {
      assert call.local[k..][1..] == call.local[k + 1..];
      var a := call.local[k].1;
      if a.expiresAt <= now {
        return Some(Deny(ApprovalRejected, []));
      }
      if a.id in store.consumptions {
        return Some(Deny(ApprovalReplayed, []));
      }
    }
    var seen: seq<Observation>, charges: seq<BudgetPolicy> := [], [];
    for k := 0 to |call.policies|
      invariant Judge(db, call.policies[k..], group, now, rolledBack, call.cfg.sharedGateway, seen, charges)
             == VerdictOn(db, call, now, rolledBack)
    {
      assert call.policies[k..][1..] == call.policies[k + 1..];
      match Rule(store.Tables(), call.policies[k], group, now, rolledBack, call.cfg.sharedGateway) {
        case Stop(reason, o) =>
          return Some(Deny(reason, seen + [o]));
        case Pass(o, charge) =>
          seen := seen + [o];
          if charge {
            charges := charges + [call.policies[k]];
          }
      }
    }
    for k := 0 to |charges|
      invariant ReserveAll(store.Tables(), charges[k..], group, now) == ReserveAll(db, charges, group, now)
    {
      assert charges[k..][1..] == charges[k + 1..];
      var ok := store.InsertReservation(charges[k], group, now);
      if !ok {
        return None;
      }
    }
    ghost var reserved := store.Tables();
    for k := 0 to |call.local|
      invariant ConsumeAll(store.Tables(), call.local[k..], group, now) == ConsumeAll(reserved, call.local, group, now)
    {
      assert call.local[k..][1..] == call.local[k + 1..];
      var ok := store.ConsumeApproval(call.local[k].1, group, now);
      if !ok {
        return None;
      }
    }
    return Some(Decision(true, Ok, Ids(call.local), seen));
  }
}
