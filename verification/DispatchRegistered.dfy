/** Which delegations are registered, in any run, and what a refused one and a refused walk are told. The conditions
    are written out again here, on the record and the tables alone. */
module DispatchRegistered {
  import opened Foundations
  import opened DispatchRules
  import opened DispatchStore
  import opened DispatchRuns
  import opened DispatchSingleUse
  import opened DispatchDelegation

  predicate GoodId(id: string) {
    8 <= |id| && |id| <= 200 && forall k | 0 <= k < |id| :: '\U{21}' <= id[k] && id[k] <= '\U{7e}'
  }

  /** The record is complete in itself. */
  predicate Complete(d: Delegation) {
    && GoodId(d.id) && (d.parent.Some? ==> GoodId(d.parent.value)) && d.actor != ""
    && d.scope.actionTypes != [] && "" !in d.scope.actionTypes && (d.scope.targets.Some? ==> "" !in d.scope.targets.value)
    && d.issuedAt < d.expiresAt
  }

  /** A pattern is its parent's, or the parent's is a stem and a star and the pattern begins with that stem. */
  ghost predicate Under(child: string, parent: string) {
    child == parent || exists stem :: parent == stem + "*" && stem <= child
  }

  ghost predicate Narrower(child: Scope, parent: Scope) {
    && child.actionTypes != []
    && (forall t :: t in child.actionTypes ==> t in parent.actionTypes)
    && (parent.targets.Some? ==>
          && child.targets.Some? && child.targets.value != []
          && forall t :: t in child.targets.value ==> exists p :: p in parent.targets.value && Under(t, p))
  }

  /** Everything a registration asks: the record is complete, its digest is right, it is current and new, and its
      parent, when it names one, is registered, not revoked, current, at least as wide and lives as long. */
  ghost predicate Admissible(db: Db, d: Delegation, digest: string, now: Time) {
    && Complete(d) && digest == d.scopeDigest && now < d.expiresAt && d.id !in db.delegations
    && (d.parent.Some? ==>
          && d.parent.value in db.delegations && d.parent.value !in db.revocations
          && now < db.delegations[d.parent.value].expiresAt && d.expiresAt <= db.delegations[d.parent.value].expiresAt
          && Narrower(d.scope, db.delegations[d.parent.value].scope))
  }

  /** What a refusal says of the registration. */
  ghost predicate Tells(problem: DelegationProblem, db: Db, d: Delegation, digest: string, now: Time) {
    match problem
    case MalformedInput => !Complete(d)
    case DigestMismatch => digest != d.scopeDigest
    case ExpiredInput => d.expiresAt <= now
    case AlreadyExists => d.id in db.delegations
    case UnknownParent => d.parent.Some? && d.parent.value !in db.delegations
    case ParentRevoked => d.parent.Some? && d.parent.value in db.revocations
    case ParentExpired => d.parent.Some? && d.parent.value in db.delegations && db.delegations[d.parent.value].expiresAt <= now
    case NotSubset => CurrentParent(db, d, now) && !Narrower(d.scope, db.delegations[d.parent.value].scope)
    case OutlivesParent => CurrentParent(db, d, now) && db.delegations[d.parent.value].expiresAt < d.expiresAt
  }

  predicate CurrentParent(db: Db, d: Delegation, now: Time) {
    && d.parent.Some? && d.parent.value in db.delegations && d.parent.value !in db.revocations
    && now < db.delegations[d.parent.value].expiresAt
  }

  lemma UnderIsCovered(child: string, parent: string)
    ensures Under(child, parent) <==> Covers(parent, child)
  {
    if EndsWithStar(parent) {
      assert parent == parent[..|parent| - 1] + "*";
    }
    if stem :| parent == stem + "*" && stem <= child {
      assert parent[..|parent| - 1] == stem && EndsWithStar(parent);
    }
  }

  lemma NarrowerIsSubScope(child: Scope, parent: Scope)
    ensures Narrower(child, parent) <==> IsSubScope(child, parent)
  {
    hide Under, Covers;
    forall t, p ensures Under(t, p) <==> Covers(p, t) {
      UnderIsCovered(t, p);
    }
  }

  lemma CompleteIsValid(d: Delegation)
    ensures Complete(d) <==> ValidDelegation(d)
  {
    hide ValidId, GoodId;
    GoodIdIsValid(d.id);
    if d.parent.Some? {
      GoodIdIsValid(d.parent.value);
    }
  }

  lemma GoodIdIsValid(id: string)
    ensures GoodId(id) <==> ValidId(id)
  {
    assert forall k | 0 <= k < |id| :: id[k] in id;
  }

  /** A delegation is registered exactly when everything asked of it holds, at the time the clock mark allows; that
      adds its record and raises the mark. Else nothing changes, and what the refusal says is so. */
  lemma RegisteredExactlyWhen(db: Db, d: Delegation, digest: string, wall: Time)
    ensures
      var now := Max(wall, db.highWater);
      && Added(db, d, digest, wall)
         == (if Admissible(db, d, digest, now) then db.(highWater := now, delegations := db.delegations[d.id := d]) else db)
      && (AddProblem(db, d, digest, wall).None? <==> Admissible(db, d, digest, now))
      && (AddProblem(db, d, digest, wall).Some? ==> Tells(AddProblem(db, d, digest, wall).value, db, d, digest, now))
  {
    hide Narrower, IsSubScope, Complete, ValidDelegation;
    CompleteIsValid(d);
    if d.parent.Some? && d.parent.value in db.delegations {
      NarrowerIsSubScope(d.scope, db.delegations[d.parent.value].scope);
    }
  }

  /** In any run, each record in the table was put there by one registration, of just that record, that met
      everything asked of it by the tables as they then were. */
  lemma {:induction false} EveryRecordWasAdmitted(events: seq<Event>, id: string) returns (k: nat)
    requires id in Run(events).db.delegations
    ensures
      && k < |events| && events[k].Register? && events[k].d == Run(events).db.delegations[id] && events[k].d.id == id
      && Admissible(Run(events[..k]).db, events[k].d, events[k].digest, Max(events[k].wall, Run(events[..k]).db.highWater))
    decreases |events|
  {
    hide Apply, Admissible, Added, AddProblem;
    assert RunFrom(INITIAL, []) == INITIAL;
    var n := |events| - 1;
    var w, e := Run(events[..n]), events[n];
    RunConcat(INITIAL, events[..n], [e]);
    assert events == events[..n] + [e] && [e][1..] == [];
    assert RunFrom(w, [e]) == RunFrom(Apply(w, e), []);
    StepGrows(w, e);
    if id in w.db.delegations {
      k := EveryRecordWasAdmitted(events[..n], id);
      assert events[..n][..k] == events[..k];
    } else {
      OnlyRegisteringAdds(w, e, id);
      JustRegistered(w, e);
      k := n;
    }
  }

  lemma JustRegistered(w: World, e: Event)
    requires e.Register? && e.d.id !in w.db.delegations && Apply(w, e).db.delegations == w.db.delegations[e.d.id := e.d]
    ensures Admissible(w.db, e.d, e.digest, Max(e.wall, w.db.highWater))
  {
    hide Admissible;
    RegisteredExactlyWhen(w.db, e.d, e.digest, e.wall);
    assert e.d.id in w.db.delegations[e.d.id := e.d];
  }

  // ── Refused walks ──

  /** The `n`th id up the chain from `id`. */
  function Up(db: Db, id: string, n: nat): Option<string>
    decreases n
  {
    if n == 0 then Some(id)
    else if id in db.delegations && db.delegations[id].parent.Some? then Up(db, db.delegations[id].parent.value, n - 1)
    else None
  }

  /** What a refused walk says of the record it stopped at, `passed` records above the session's own. */
  ghost predicate SaysOf(r: Reason, db: Db, id: string, passed: nat, actor: string, now: Time, intents: seq<Intent>) {
    match r
    case DelegationUnknown => passed > 16 || id !in db.delegations
    case DelegationRevoked => id in db.revocations
    case DelegationExpired => id in db.delegations && db.delegations[id].expiresAt <= now
    case DelegationWrongActor => passed == 0 && id in db.delegations && db.delegations[id].actor != actor
    case DelegationOutOfScope => id in db.delegations && exists i :: i in intents && !ActionInScope(db.delegations[id].scope, i.actionType, i.target)
    case _ => false
  }

  /** A refused walk names a record up the chain, within the depth limit or just beyond, and what it says is so. */
  lemma {:induction false} WalkTells(db: Db, id: string, depth: nat, actor: string, now: Time, intents: seq<Intent>) returns (n: nat, at: string)
    requires Walk(db, Some(id), depth, actor, now, intents) != Ok && depth <= MAX_DELEGATION_DEPTH + 1
    ensures Up(db, id, n) == Some(at) && depth + n <= 17
    ensures SaysOf(Walk(db, Some(id), depth, actor, now, intents), db, at, depth + n, actor, now, intents)
    decreases MAX_DELEGATION_DEPTH + 1 - depth
  {
    hide ActionInScope;
    n, at := 0, id;
    if !SaysOf(Walk(db, Some(id), depth, actor, now, intents), db, id, depth, actor, now, intents) {
      var up := db.delegations[id].parent.value;
      n, at := WalkTells(db, up, depth + 1, actor, now, intents);
      n := n + 1;
    }
  }
}
