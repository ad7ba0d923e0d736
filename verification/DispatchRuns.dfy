/** Every interleaving of the guard's steps by any number of processes over one store. Each event is one
    step that SQLite makes atomic, with the wall clock that step happened to read; a process's own
    data (its choice of approvals, how many workspace approvals it has spent) stays in its phase. */
module DispatchRuns {
  import opened Foundations
  import opened DispatchRules
  import opened DispatchStore
  import opened DispatchGuard

  datatype Phase =
    | Picked(call: Call)
    | Ready(call: Call)
    | Spending(call: Call, spent: nat)
    | Done(decision: Decision)

  datatype Charge = Charge(budget: string, group: string, at: Time)

  /** The shared tables, each process's phase, and what was ever committed: every budget slot charged and
      every allowing decision, in commit order. */
  datatype World = World(db: Db, procs: map<nat, Phase>, charges: seq<Charge>, grants: seq<Decision>)

  const INITIAL := World(EMPTY_DB, map[], [], [])

  datatype Event =
    | Clock(wall: Time)
    | Register(d: Delegation, digest: string, wall: Time)
    | RevokeOne(id: string, wall: Time)
    | ImportMany(ids: seq<(string, Time)>)
    | Begin(p: nat, cfg: Config, req: Request, inp: Inputs, wall: Time)
    | Resolve(p: nat, verdict: Option<Reason>)
    | Preview(p: nat, wall: Time)
    | Spend(p: nat, refusal: Option<Reason>)
    | Finish(p: nat, wall: Time)

  predicate NeedsState(cfg: Config, req: Request, policies: seq<BudgetPolicy>) {
    policies != [] || NeedsApproval(cfg, req) || req.delegation.Some?
  }

  /** Between calls a process is absent from the map or holds its last answer. */
  predicate Free(w: World, p: nat) {
    p !in w.procs || w.procs[p].Done?
  }

  function Began(w: World, e: Event): World
    requires e.Begin?
  {
    var policies := Applicable(e.inp.budgets, e.req);
    if !NeedsState(e.cfg, e.req, policies) then w.(procs := w.procs[e.p := Done(Decision(true, Ok, [], []))])
    else
      var db := Mark(w.db, e.wall);
      var phase := match Choose(e.cfg, e.inp, e.req, db.highWater)
        case Missing(reason) => Done(Deny(reason, []))
        case Chosen(local, cloud) => Picked(Call(e.cfg, e.req, policies, local, cloud, true));
      w.(db := db, procs := w.procs[e.p := phase])
  }

  /** A delegation the local store does not know is asked of the workspace, when there is one. */
  function Resolved(w: World, call: Call, verdict: Option<Reason>): Phase {
    if call.req.delegation.Some? && call.cfg.cloud && call.req.delegation.value !in w.db.delegations then
      if verdict.Some? then Done(Deny(verdict.value, [])) else Ready(call.(checkDelegation := false))
    else Ready(call)
  }

  /** The policies one committed transaction charges. */
  function ChargedBy(before: Db, call: Call, wall: Time): seq<BudgetPolicy> {
    if !Decide(before, call, wall).Commit? then []
    else VerdictOn(Mark(before, wall), call, EffectiveNow(before, wall), RolledBack(before, wall)).charges
  }

  function Entries(charges: seq<BudgetPolicy>, group: string, now: Time): (r: seq<Charge>)
    ensures |r| == |charges|
  {
    if charges == [] then [] else [Charge(charges[0].budgetId, group, now)] + Entries(charges[1..], group, now)
  }

  function WorkspaceIds(cloud: seq<(nat, string)>): seq<string> {
    seq(|cloud|, k requires 0 <= k < |cloud| => cloud[k].1)
  }

  /** The last transaction of a call, and the answer with the workspace's approvals named in it. */
  function Finished(w: World, p: nat, call: Call, wall: Time): World {
    var (db, decision) := Transact(w.db, call, wall, false);
    var answer := if decision.allow then decision.(consumed := decision.consumed + WorkspaceIds(call.cloud)) else decision;
    World(
      db, w.procs[p := Done(answer)],
      w.charges + Entries(ChargedBy(w.db, call, wall), call.req.actionGroup, EffectiveNow(w.db, wall)),
      if Decide(w.db, call, wall).Commit? then w.grants + [decision] else w.grants)
  }

  /** One step; an event that is not enabled changes nothing. */
  function Apply(w: World, e: Event): World {
    match e
    case Clock(wall) => w.(db := Mark(w.db, wall))
    case Register(d, digest, wall) => w.(db := Added(w.db, d, digest, wall))
    case RevokeOne(id, wall) => w.(db := Revoked(w.db, id, wall))
    case ImportMany(ids) => w.(db := Imported(w.db, ids))
    case Begin(p, _, _, _, _) => if Free(w, p) then Began(w, e) else w
    case Resolve(p, verdict) =>
      if p in w.procs && w.procs[p].Picked? then w.(procs := w.procs[p := Resolved(w, w.procs[p].call, verdict)]) else w
    case Preview(p, wall) =>
      if p in w.procs && w.procs[p].Ready? && w.procs[p].call.cloud != [] then
        var (db, decision) := Transact(w.db, w.procs[p].call, wall, true);
        w.(db := db, procs := w.procs[p := if decision.allow then Spending(w.procs[p].call, 0) else Done(decision)])
      else w
    case Spend(p, refusal) =>
      if p in w.procs && w.procs[p].Spending? && w.procs[p].spent < |w.procs[p].call.cloud| then
        var phase := if refusal.Some? then Done(Deny(refusal.value, [])) else Spending(w.procs[p].call, w.procs[p].spent + 1);
        w.(procs := w.procs[p := phase])
      else w
    case Finish(p, wall) => if MayFinish(w, p) then Finished(w, p, w.procs[p].call, wall) else w
  }

  predicate MayFinish(w: World, p: nat) {
    && p in w.procs
    && match w.procs[p]
       case Ready(call) => call.cloud == []
       case Spending(call, spent) => spent == |call.cloud|
       case _ => false
  }

  function RunFrom(w: World, events: seq<Event>): World
    decreases events
  {
    if events == [] then w else RunFrom(Apply(w, events[0]), events[1..])
  }

  function Run(events: seq<Event>): World {
    RunFrom(INITIAL, events)
  }
}
