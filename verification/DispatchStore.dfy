/** The durable side of the dispatch boundary: the tables one SQLite file holds for every process on a
    computer, and the statements run against them. `Db` is the value of the tables at one moment; the
    functions on it say what each operation does, and `DispatchStore` performs them in place. */
module DispatchStore {
  import opened Foundations
  import opened DispatchRules

  const CLOCK_TOLERANCE_MS := 2_000

  datatype Consumption = Consumption(actor: string, actionType: string, requestHash: string, actionGroup: string, at: Time)

  datatype Reservation = Reservation(at: Time, version: nat)

  /** The tables. `highWater` is the `meta` row, 0 while the row is absent. A reservation's key is
      (budget_id, action_group), the table's primary key. */
  datatype Db = Db(
    highWater: Time,
    consumptions: map<string, Consumption>,
    delegations: map<string, Delegation>,
    revocations: map<string, Time>,
    reservations: map<(string, string), Reservation>)

  const EMPTY_DB := Db(0, map[], map[], map[], map[])

  // ── The clock ──

  function EffectiveNow(db: Db, wall: Time): Time {
    Max(wall, db.highWater)
  }

  predicate RolledBack(db: Db, wall: Time) {
    wall < db.highWater - CLOCK_TOLERANCE_MS
  }

  /** The tables after the clock was read: the mark never falls. */
  function Mark(db: Db, wall: Time): Db {
    db.(highWater := EffectiveNow(db, wall))
  }

  // ── Delegation ──

  datatype DelegationProblem =
    | MalformedInput | DigestMismatch | ExpiredInput | AlreadyExists
    | UnknownParent | ParentRevoked | ParentExpired | NotSubset | OutlivesParent

  function ParentProblem(db: Db, d: Delegation, now: Time): Option<DelegationProblem> {
    if d.parent.None? then None
    else if d.parent.value !in db.delegations then Some(UnknownParent)
    else
      var p := db.delegations[d.parent.value];
      if d.parent.value in db.revocations then Some(ParentRevoked)
      else if p.expiresAt <= now then Some(ParentExpired)
      else if !IsSubScope(d.scope, p.scope) then Some(NotSubset)
      else if d.expiresAt > p.expiresAt then Some(OutlivesParent)
      else None
  }

  /** Why a delegation is not registered; `digest` is the digest computed from its scope. */
  function AddProblem(db: Db, d: Delegation, digest: string, wall: Time): Option<DelegationProblem> {
    var now := EffectiveNow(db, wall);
    if !ValidDelegation(d) then Some(MalformedInput)
    else if digest != d.scopeDigest then Some(DigestMismatch)
    else if d.expiresAt <= now then Some(ExpiredInput)
    else if d.id in db.delegations then Some(AlreadyExists)
    else ParentProblem(db, d, now)
  }

  /** The tables after `addDelegation`: a refusal rolls the clock mark back too. */
  function Added(db: Db, d: Delegation, digest: string, wall: Time): Db {
    if AddProblem(db, d, digest, wall).Some? then db
    else Mark(db, wall).(delegations := db.delegations[d.id := d])
  }

  function Revoked(db: Db, id: string, wall: Time): Db {
    if id in db.revocations then db else db.(revocations := db.revocations[id := wall])
  }

  /** Each id not yet revoked is, at the time the clock read when its turn came; empty ids are passed over, and
      nothing is ever un-revoked. */
  function Imported(db: Db, ids: seq<(string, Time)>): Db
    decreases ids
  {
    if ids == [] then db
    else if ids[0].0 == "" then Imported(db, ids[1..])
    else Imported(Revoked(db, ids[0].0, ids[0].1), ids[1..])
  }

  /** The walk from a session's delegation up to its root, `depth` records below it already passed. */
  function Walk(db: Db, cursor: Option<string>, depth: nat, actor: string, now: Time, intents: seq<Intent>): Reason
    decreases MAX_DELEGATION_DEPTH + 1 - depth
  {
    if cursor.None? then Ok
    else if depth > MAX_DELEGATION_DEPTH then DelegationUnknown
    else if cursor.value !in db.delegations then DelegationUnknown
    else
      var d := db.delegations[cursor.value];
      if cursor.value in db.revocations then DelegationRevoked
      else if d.expiresAt <= now then DelegationExpired
      else if depth == 0 && d.actor != actor then DelegationWrongActor
      else if exists i :: i in intents && !ActionInScope(d.scope, i.actionType, i.target) then DelegationOutOfScope
      else Walk(db, d.parent, depth + 1, actor, now, intents)
  }

  // ── Budgets and approvals ──

  /** The rows `SELECT COUNT(*) … WHERE budget_id = ? AND reserved_at > ?` counts. */
  function RowsAfter(db: Db, budget: string, since: Time): set<(string, string)> {
    set k | k in db.reservations && k.0 == budget && db.reservations[k].at > since
  }

  function WindowStart(p: BudgetPolicy, now: Time): Time {
    now - p.windowSeconds * 1000
  }

  function Cutoff(p: BudgetPolicy, now: Time): Time {
    now - Max(p.windowSeconds, 1) * 1000 * 2
  }

  /** One reservation row inserted and the budget's old rows deleted; None when the primary key is taken. */
  function Reserved(db: Db, p: BudgetPolicy, group: string, now: Time): Option<Db> {
    if (p.budgetId, group) in db.reservations then None
    else
      var rows := db.reservations[(p.budgetId, group) := Reservation(now, p.version)];
      Some(db.(reservations := map k | k in rows && !(k.0 == p.budgetId && rows[k].at <= Cutoff(p, now)) :: rows[k]))
  }

  function Consumed(db: Db, a: Approval, group: string, now: Time): Option<Db> {
    if a.id in db.consumptions then None
    else
      var row := Consumption(a.subject.actor, a.subject.actionType, a.subject.requestHash, group, now);
      Some(db.(consumptions := db.consumptions[a.id := row]))
  }

  // ── The store ──

  class Store {
    var highWater: Time
    var consumptions: map<string, Consumption>
    var delegations: map<string, Delegation>
    var revocations: map<string, Time>
    var reservations: map<(string, string), Reservation>

    function Tables(): Db
      reads this
    {
      Db(highWater, consumptions, delegations, revocations, reservations)
    }

    constructor ()
      ensures Tables() == EMPTY_DB
    {
      highWater, consumptions, delegations, revocations, reservations := 0, map[], map[], map[], map[];
    }

    /** ROLLBACK: every table as it was, the clock mark included. */
    method Restore(saved: Db)
      modifies this
      ensures Tables() == saved
    {
      highWater, consumptions, delegations := saved.highWater, saved.consumptions, saved.delegations;
      revocations, reservations := saved.revocations, saved.reservations;
    }

    method ReadClock(wall: Time) returns (now: Time, rolledBack: bool)
      modifies this`highWater
      ensures Tables() == Mark(old(Tables()), wall)
      ensures now == highWater && rolledBack == RolledBack(old(Tables()), wall)
    {
      var high := highWater;
      rolledBack := wall < high - CLOCK_TOLERANCE_MS;
      now := Max(wall, high);
      if now > high {
        highWater := now;
      }
    }

    method AddDelegation(d: Delegation, digest: string, wall: Time) returns (problem: Option<DelegationProblem>)
      modifies this
      ensures problem == AddProblem(old(Tables()), d, digest, wall)
      ensures Tables() == Added(old(Tables()), d, digest, wall)
    {
      if !ValidDelegation(d) {
        return Some(MalformedInput);
      }
      if digest != d.scopeDigest {
        return Some(DigestMismatch);
      }
      var saved := Tables();
      var now, _ := ReadClock(wall);
      if d.expiresAt <= now {
        problem := Some(ExpiredInput);
      } else if d.id in delegations {
        problem := Some(AlreadyExists);
      } else if d.parent.None? {
        problem := None;
      } else if d.parent.value !in delegations {
        problem := Some(UnknownParent);
      } else if d.parent.value in revocations {
        problem := Some(ParentRevoked);
      } else if delegations[d.parent.value].expiresAt <= now {
        problem := Some(ParentExpired);
      } else if !IsSubScope(d.scope, delegations[d.parent.value].scope) {
        problem := Some(NotSubset);
      } else if d.expiresAt > delegations[d.parent.value].expiresAt {
        problem := Some(OutlivesParent);
      } else {
        problem := None;
      }
      if problem.Some? {
        Restore(saved);
      } else {
        delegations := delegations[d.id := d];
      }
    }

    method Revoke(id: string, wall: Time)
      modifies this`revocations
      ensures Tables() == Revoked(old(Tables()), id, wall)
    {
      if id !in revocations {
        revocations := revocations[id := wall];
      }
    }

    /** Returns how many ids were new. */
    method ImportRevocations(ids: seq<(string, Time)>) returns (added: nat)
      modifies this`revocations
      ensures Tables() == Imported(old(Tables()), ids)
      ensures |revocations| == |old(revocations)| + added
    {
      added := 0;
      for i := 0 to |ids|
        invariant Imported(Tables(), ids[i..]) == Imported(old(Tables()), ids)
        invariant |revocations| == |old(revocations)| + added
      {
        assert ids[i..][0] == ids[i] && ids[i..][1..] == ids[i + 1..];
        var (id, wall) := ids[i];
        if id != "" {
          if id !in revocations {
            added := added + 1;
          }
          Revoke(id, wall);
        }
      }
    }

    method CheckDelegation(id: string, actor: string, now: Time, intents: seq<Intent>) returns (r: Reason)
      ensures r == Walk(Tables(), Some(id), 0, actor, now, intents)
    {
      var cursor, leaf, depth := Some(id), true, 0;
      while cursor.Some?
        invariant leaf == (depth == 0)
        invariant depth <= MAX_DELEGATION_DEPTH + 1
        invariant Walk(Tables(), cursor, depth, actor, now, intents) == Walk(Tables(), Some(id), 0, actor, now, intents)
        decreases MAX_DELEGATION_DEPTH + 1 - depth, cursor.Some?
      {
        if depth > MAX_DELEGATION_DEPTH || cursor.value !in delegations {
          return DelegationUnknown;
        }
        var d := delegations[cursor.value];
        if cursor.value in revocations {
          return DelegationRevoked;
        }
        if d.expiresAt <= now {
          return DelegationExpired;
        }
        if leaf {
          if d.actor != actor {
            return DelegationWrongActor;
          }
          leaf := false;
        }
        if exists i :: i in intents && !ActionInScope(d.scope, i.actionType, i.target) {
          return DelegationOutOfScope;
        }
        cursor, depth := d.parent, depth + 1;
      }
      return Ok;
    }

    method InsertReservation(p: BudgetPolicy, group: string, now: Time) returns (ok: bool)
      modifies this`reservations
      ensures ok == Reserved(old(Tables()), p, group, now).Some?
      ensures Tables() == if ok then Reserved(old(Tables()), p, group, now).value else old(Tables())
    {
      if (p.budgetId, group) in reservations {
        return false;
      }
      var rows := reservations[(p.budgetId, group) := Reservation(now, p.version)];
      reservations := map k | k in rows && !(k.0 == p.budgetId && rows[k].at <= Cutoff(p, now)) :: rows[k];
      ok := true;
    }

    method ConsumeApproval(a: Approval, group: string, now: Time) returns (ok: bool)
      modifies this`consumptions
      ensures ok == Consumed(old(Tables()), a, group, now).Some?
      ensures Tables() == if ok then Consumed(old(Tables()), a, group, now).value else old(Tables())
    {
      if a.id in consumptions {
        return false;
      }
      consumptions := consumptions[a.id := Consumption(a.subject.actor, a.subject.actionType, a.subject.requestHash, group, now)];
      ok := true;
    }
  }
}
