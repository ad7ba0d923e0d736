/** Which calls can still be denied once a workspace approval was spent for them. */
module DispatchSpending {
  import opened Foundations
  import opened DispatchRules
  import opened DispatchStore
  import opened DispatchGuard
  import opened DispatchRuns
  import opened DispatchAtomicity
  import opened DispatchSingleUse

  // ── What every run keeps ──

  /** Workspace approvals are chosen only for actions that need one, and never more are spent than chosen. */
  predicate PhaseOk(phase: Phase) {
    && (!phase.Done? && phase.call.cloud != [] ==> NeedsApproval(phase.call.cfg, phase.call.req))
    && (phase.Spending? ==> phase.spent <= |phase.call.cloud|)
  }

  ghost predicate AllPhasesOk(w: World) {
    forall p :: p in w.procs ==> PhaseOk(w.procs[p])
  }

  lemma {:induction false} CloudIsForNeed(cfg: Config, inp: Inputs, req: Request, now: Time, i: nat, local: seq<(nat, Approval)>, cloud: seq<(nat, string)>)
    requires i <= |req.intents| && (cloud != [] ==> NeedsApproval(cfg, req))
    ensures
      var c := ChooseFrom(cfg, inp, req, now, i, local, cloud);
      c.Chosen? && c.cloud != [] ==> NeedsApproval(cfg, req)
    decreases |req.intents| - i
  {
    hide LocalChoice, CloudChoice;
    if i < |req.intents| {
      var mine, theirs := LocalChoice(cfg, inp, req, now, Ids(local), i), CloudChoice(cfg, inp, cloud, i);
      if !Requires(cfg, req.intents[i].actionType) {
        CloudIsForNeed(cfg, inp, req, now, i + 1, local, cloud);
      } else if mine.Some? {
        CloudIsForNeed(cfg, inp, req, now, i + 1, local + [(i, mine.value)], cloud);
      } else if theirs.Some? {
        assert req.intents[i] in req.intents;
        CloudIsForNeed(cfg, inp, req, now, i + 1, local, cloud + [(i, theirs.value)]);
      }
    }
  }

  lemma StepKeepsPhases(w: World, e: Event)
    requires AllPhasesOk(w)
    ensures AllPhasesOk(Apply(w, e))
  {
    hide Transact, NeedsApproval, ChooseFrom;
    if e.Begin? {
      CloudIsForNeed(e.cfg, e.inp, e.req, Mark(w.db, e.wall).highWater, 0, [], []);
    }
  }

  lemma {:induction false} RunKeepsPhases(w: World, events: seq<Event>)
    requires AllPhasesOk(w)
    ensures AllPhasesOk(RunFrom(w, events))
    decreases events
  {
    hide AllPhasesOk, Apply;
    if events != [] {
      StepKeepsPhases(w, events[0]);
      RunKeepsPhases(Apply(w, events[0]), events[1..]);
    }
  }

  // ── When a transaction can deny ──

  /** The policies that could count a call at a time, in order. */
  function AtTime(policies: seq<BudgetPolicy>, cfg: Config, now: Time): seq<BudgetPolicy>
    decreases policies
  {
    if policies == [] then []
    else (if Enforceable(policies[0], cfg, now, false) then [policies[0]] else []) + AtTime(policies[1..], cfg, now)
  }

  /** Something of the call is judged again by its last transaction: a delegation checked here, a local approval,
      or an enforcing policy. */
  predicate Judged(call: Call) {
    (call.checkDelegation && call.req.delegation.Some?) || call.local != [] || Enforcing(call.policies)
  }

  /** Two policies that have not run out would count it on one budget. */
  predicate CountsTwice(call: Call, now: Time) {
    !Distinct(BudgetIds(AtTime(call.policies, call.cfg, now)))
  }

  /** A call that needs an approval and does not commit is denied, also when a statement throws. */
  lemma NoCommitIsDenied(db: Db, call: Call, wall: Time)
    requires NeedsApproval(call.cfg, call.req) && !Decide(db, call, wall).Commit?
    ensures !Transact(db, call, wall, false).1.allow
  {
    hide Walk, ApprovalProblem, Judge, ReserveAll, ConsumeAll;
  }

  lemma CommitIsAllowed(db: Db, call: Call, wall: Time)
    requires Decide(db, call, wall).Commit?
    ensures Transact(db, call, wall, false).1.allow
  {
    AllOrNothing(db, call, wall);
  }

  lemma {:induction false} FewerCount(db: Db, policies: seq<BudgetPolicy>, call: Call, wall: Time, mark: Time)
    requires mark <= EffectiveNow(db, wall)
    ensures forall b :: b in BudgetIds(Countable(db, policies, call, wall)) ==> b in BudgetIds(AtTime(policies, call.cfg, mark))
    ensures Distinct(BudgetIds(AtTime(policies, call.cfg, mark))) ==> Distinct(BudgetIds(Countable(db, policies, call, wall)))
    decreases policies
  {
    if policies != [] {
      FewerCount(db, policies[1..], call, wall, mark);
      var p := policies[0];
      IdsOfOneMore(p, AtTime(policies[1..], call.cfg, mark));
      IdsOfOneMore(p, Countable(db, policies[1..], call, wall));
    }
  }

  lemma IdsOfOneMore(p: BudgetPolicy, rest: seq<BudgetPolicy>)
    ensures BudgetIds([p] + rest) == [p.budgetId] + BudgetIds(rest) && [] + rest == rest
    ensures Distinct(BudgetIds([p] + rest)) <==> p.budgetId !in BudgetIds(rest) && Distinct(BudgetIds(rest))
  {
    assert ([p] + rest)[1..] == rest;
    assert ([p.budgetId] + BudgetIds(rest))[1..] == BudgetIds(rest);
  }

  /** With no slot taken and the clock at its mark, all of them count. */
  lemma {:induction false} AllCount(db: Db, policies: seq<BudgetPolicy>, call: Call)
    requires db.reservations == map[]
    ensures Countable(db, policies, call, db.highWater) == AtTime(policies, call.cfg, db.highWater)
    decreases policies
  {
    if policies != [] {
      AllCount(db, policies[1..], call);
    }
  }

  /** Nothing judged and nothing counted twice: the transaction commits, whatever the tables and the clock. */
  lemma UnjudgedCommits(db: Db, call: Call, wall: Time, mark: Time)
    requires !Judged(call) && !CountsTwice(call, mark) && mark <= db.highWater
    ensures Decide(db, call, wall).Commit?
  {
    hide Decide, Countable, AtTime;
    FewerCount(db, call.policies, call, wall, mark);
    assert Ids([]) == [];
    WhenATransactionCommits(db, call, wall);
  }

  /** What is judged can run out: a clock far enough on denies it. */
  lemma JudgedRunsOut(db: Db, call: Call) returns (wall: Time)
    requires Judged(call)
    ensures !Decide(db, call, wall).Commit?
  {
    hide Decide, Countable;
    if call.local != [] {
      wall := call.local[0].1.expiresAt;
      assert call.local[0] in call.local;
    } else if Enforcing(call.policies) {
      var p :| p in call.policies && p.enforce;
      wall := p.expiresAt;
    } else {
      var id := call.req.delegation.value;
      wall := if id in db.delegations then db.delegations[id].expiresAt else 0;
      assert Walk(Mark(db, wall), Some(id), 0, call.req.actor, EffectiveNow(db, wall), call.req.intents) != Ok;
    }
    WhenATransactionCommits(db, call, wall);
  }

  lemma CountedTwiceThrows(db: Db, call: Call)
    requires CountsTwice(call, db.highWater) && db.reservations == map[]
    ensures !Decide(db, call, db.highWater).Commit?
  {
    hide Decide;
    AllCount(db, call.policies, call);
    WhenATransactionCommits(db, call, db.highWater);
  }

  // ── After a spend ──

  predicate EndsDenied(w: World, p: nat, e: Event) {
    && p in Apply(w, e).procs && Apply(w, e).procs[p].Done? && !Apply(w, e).procs[p].decision.allow
  }

  /** Only two steps end a call that is spending: a refusal of the next spend, and its last transaction. */
  lemma HowItEnds(w: World, p: nat, call: Call, spent: nat, e: Event)
    requires p in w.procs && w.procs[p] == Spending(call, spent) && spent <= |call.cloud| && EndsDenied(w, p, e)
    ensures spent < |call.cloud| || (e.Finish? && e.p == p && !Transact(w.db, call, e.wall, false).1.allow)
  {
    hide Transact, Choose;
  }

  lemma FinishDenies(w: World, p: nat, call: Call, wall: Time)
    requires p in w.procs && w.procs[p] == Spending(call, |call.cloud|) && !Transact(w.db, call, wall, false).1.allow
    ensures EndsDenied(w, p, Finish(p, wall))
  {
    hide Transact;
  }

  /** What the last transaction can come to: some clock denies what is judged, and some later tables make a budget
      counted twice throw. */
  lemma CanEndDenied(w: World, p: nat, call: Call) returns (later: Db, wall: Time)
    requires p in w.procs && w.procs[p] == Spending(call, |call.cloud|) && NeedsApproval(call.cfg, call.req)
    requires Judged(call) || CountsTwice(call, w.db.highWater)
    ensures Grows(w.db, later) && EndsDenied(w.(db := later), p, Finish(p, wall)) && (Judged(call) ==> later == w.db)
  {
    hide Apply, Transact, Judged, CountsTwice, Decide;
    later := w.db;
    if Judged(call) {
      wall := JudgedRunsOut(w.db, call);
    } else {
      later, wall := w.db.(reservations := map[]), w.db.highWater;
      CountedTwiceThrows(later, call);
    }
    NoCommitIsDenied(later, call, wall);
    FinishDenies(w.(db := later), p, call, wall);
  }

  /** In every run, for a call a workspace approval was spent for: over all tables the store can go on to have
      (where only reservations ever go) and all clocks, its next step can deny it exactly when it has another
      approval to spend, or its last transaction judges a delegation, a local approval or an enforcing policy, or
      two of its policies that have not run out count on one budget. Of these, all but the last need nothing to
      change but the clock. */
  lemma DeniedAfterASpendExactlyWhen(events: seq<Event>, p: nat)
    requires p in Run(events).procs && Run(events).procs[p].Spending? && Run(events).procs[p].spent >= 1
    ensures
      var w := Run(events);
      var call, spent := w.procs[p].call, w.procs[p].spent;
      && ((exists later, e :: Grows(w.db, later) && EndsDenied(w.(db := later), p, e)) <==>
            spent < |call.cloud| || Judged(call) || CountsTwice(call, w.db.highWater))
      && (spent < |call.cloud| || Judged(call) ==> exists e :: EndsDenied(w, p, e))
  {
    hide RunFrom, Judged, CountsTwice, Grows, Transact;
    var w := Run(events);
    var call, spent := w.procs[p].call, w.procs[p].spent;
    RunKeepsPhases(INITIAL, events);
    assert PhaseOk(w.procs[p]);
    if later, e :| Grows(w.db, later) && EndsDenied(w.(db := later), p, e) && spent == |call.cloud| {
      HowItEnds(w.(db := later), p, call, spent, e);
      if !Judged(call) && !CountsTwice(call, w.db.highWater) {
        MarkRises(w.db, later);
        UnjudgedCommits(later, call, e.wall, w.db.highWater);
        CommitIsAllowed(later, call, e.wall);
      }
    }
    assert w.(db := w.db) == w;
    GrowsFromItself(w.db);
    if spent < |call.cloud| {
      assert EndsDenied(w, p, Spend(p, Some(ApprovalRejected)));
    } else if Judged(call) || CountsTwice(call, w.db.highWater) {
      var later, wall := CanEndDenied(w, p, call);
    }
  }

  lemma MarkRises(a: Db, b: Db)
    requires Grows(a, b)
    ensures a.highWater <= b.highWater
  {}

  lemma GrowsFromItself(db: Db)
    ensures Grows(db, db)
  {}
}
