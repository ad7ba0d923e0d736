/** Single use of local approvals over every interleaved run, and what the clock mark rules out for good. */
module DispatchSingleUse {
  import opened Foundations
  import opened DispatchRules
  import opened DispatchStore
  import opened DispatchGuard
  import opened DispatchRuns
  import opened DispatchAtomicity

  /** The used ids are exactly those the grants name, each named by one grant, once. */
  ghost predicate NamedOnce(used: set<string>, grants: seq<Decision>) {
    && (forall id :: id in used <==> exists g :: 0 <= g < |grants| && id in grants[g].consumed)
    && (forall g, h, id :: 0 <= g < h < |grants| && id in grants[g].consumed ==> id !in grants[h].consumed)
    && (forall g :: 0 <= g < |grants| ==> Distinct(grants[g].consumed))
  }

  ghost predicate UsedOnce(w: World) {
    NamedOnce(w.db.consumptions.Keys, w.grants)
  }

  lemma OneMoreGrant(used: set<string>, grants: seq<Decision>, d: Decision, after: set<string>)
    requires NamedOnce(used, grants) && Distinct(d.consumed)
    requires forall id :: id in d.consumed ==> id !in used
    requires forall id :: id in after <==> id in used || id in d.consumed
    ensures NamedOnce(after, grants + [d])
  {
    var more := grants + [d];
    forall id | id in after ensures exists g :: 0 <= g < |more| && id in more[g].consumed {
      if id in used {
        var g :| 0 <= g < |grants| && id in grants[g].consumed;
        assert more[g] == grants[g];
      } else {
        assert id in more[|grants|].consumed;
      }
    }
    forall g, id | 0 <= g < |more| && id in more[g].consumed ensures id in after {
      assert g < |grants| ==> more[g] == grants[g];
    }
  }

  lemma FinishUsesOnce(w: World, p: nat, wall: Time)
    requires UsedOnce(w) && MayFinish(w, p)
    ensures UsedOnce(Apply(w, Finish(p, wall)))
  {
    var call := w.procs[p].call;
    AllOrNothing(w.db, call, wall);
    WhenATransactionCommits(w.db, call, wall);
    if Decide(w.db, call, wall).Commit? {
      var (after, d) := Transact(w.db, call, wall, false);
      OneMoreGrant(w.db.consumptions.Keys, w.grants, d, after.consumptions.Keys);
    }
  }

  lemma {:induction false} RunUsesOnce(w: World, events: seq<Event>)
    requires UsedOnce(w)
    ensures UsedOnce(RunFrom(w, events))
    decreases events
  {
    if events != [] {
      var e := events[0];
      if e.Finish? && MayFinish(w, e.p) {
        FinishUsesOnce(w, e.p, e.wall);
      } else {
        DenialSpendsNothing(w, e);
        if e.ImportMany? {
          ImportTouchesRevocationsOnly(w.db, e.ids);
        }
      }
      RunUsesOnce(Apply(w, e), events[1..]);
    }
  }

  /** In any interleaving, no local approval is consumed by two allowing decisions, none twice by one, and
      an approval is marked used exactly when some allowing decision consumed it. */
  lemma EachApprovalUsedOnce(events: seq<Event>, id: string)
    ensures
      var w := Run(events);
      && (forall g, h :: 0 <= g < |w.grants| && 0 <= h < |w.grants| && id in w.grants[g].consumed && id in w.grants[h].consumed ==> g == h)
      && (forall g :: 0 <= g < |w.grants| ==> Distinct(w.grants[g].consumed))
      && (id in w.db.consumptions <==> exists g :: 0 <= g < |w.grants| && id in w.grants[g].consumed)
  {
    assert UsedOnce(INITIAL);
    RunUsesOnce(INITIAL, events);
    var w := Run(events);
    assert id in w.db.consumptions.Keys <==> id in w.db.consumptions;
  }

  // ── What only grows ──

  ghost predicate Grows(a: Db, b: Db) {
    && a.highWater <= b.highWater
    && (forall id :: id in a.consumptions ==> id in b.consumptions && b.consumptions[id] == a.consumptions[id])
    && (forall id :: id in a.delegations ==> id in b.delegations && b.delegations[id] == a.delegations[id])
    && (forall id :: id in a.revocations ==> id in b.revocations)
  }

  lemma StepGrows(w: World, e: Event)
    ensures Grows(w.db, Apply(w, e).db)
  {
    if e.Finish? && MayFinish(w, e.p) {
      AllOrNothing(w.db, w.procs[e.p].call, e.wall);
    } else if e.ImportMany? {
      ImportTouchesRevocationsOnly(w.db, e.ids);
    }
  }

  /** The clock mark never falls, and approvals used, delegations registered and revocations recorded stay. */
  lemma {:induction false} RunGrows(w: World, events: seq<Event>)
    ensures Grows(w.db, RunFrom(w, events).db)
    decreases events
  {
    if events != [] {
      StepGrows(w, events[0]);
      RunGrows(Apply(w, events[0]), events[1..]);
    }
  }

  lemma {:induction false} RunConcat(w: World, first: seq<Event>, second: seq<Event>)
    ensures RunFrom(w, first + second) == RunFrom(RunFrom(w, first), second)
    decreases first
  {
    if first == [] {
      assert first + second == second;
    } else {
      assert (first + second)[0] == first[0] && (first + second)[1..] == first[1..] + second;
      RunConcat(Apply(w, first[0]), first[1..], second);
    }
  }

  /** Once an approval was used, or the store has seen its expiry pass, no later step of any run lets a call
      that chose it end allowed with a spend, however far back a wall clock is set. */
  lemma SpentApprovalStaysSpent(before: seq<Event>, after: seq<Event>, p: nat, wall: Time, a: Approval, i: nat)
    requires a.id in Run(before).db.consumptions || a.expiresAt <= Run(before).db.highWater
    requires MayFinish(Run(before + after), p) && (i, a) in Run(before + after).procs[p].call.local
    ensures !Decide(Run(before + after).db, Run(before + after).procs[p].call, wall).Commit?
  {
    RunConcat(INITIAL, before, after);
    RunGrows(Run(before), after);
    WhenATransactionCommits(Run(before + after).db, Run(before + after).procs[p].call, wall);
  }

  // ── The one thing a denial does not give back ──

  ghost const CFG := Config(true, ["git.push"], None, false, true)
  ghost const REQ := Request("agent", "group", "digest", [Intent("git.push", "main", "hash")], None)
  ghost const LIMIT := BudgetPolicy("budget", "agent", ["git.push"], false, 1, 60, true, 1, 1000, true, false)
  ghost const INPUTS := Inputs([], ["ref"], map[], [LIMIT])
  ghost const CALL := Call(CFG, REQ, [LIMIT], [], [(0, "ref")], true)

  /** Workspace approvals are spent one by one before the last transaction, so a denial by that transaction
      comes after they are gone: here one is spent, then the budget policy runs out. */
  lemma WorkspaceSpendIsNotGivenBack()
    ensures
      var w := Run([Begin(0, CFG, REQ, INPUTS, 10), Resolve(0, None), Preview(0, 10), Spend(0, None)]);
      && w.procs == map[0 := Spending(CALL, 1)] && MayFinish(w, 0)
      && Transact(w.db, CALL, 1000, false).1 == Deny(BudgetExpired, [Observation("budget", 0, Unenforceable, false)])
      && Apply(w, Finish(0, 1000)).procs == map[0 := Done(Transact(w.db, CALL, 1000, false).1)]
  {
    hide Decide, Applicable, Choose, Resolved, Began, Unusable, RunFrom;
    var db := Mark(EMPTY_DB, 10);
    FourSteps(INITIAL, Begin(0, CFG, REQ, INPUTS, 10), Resolve(0, None), Preview(0, 10), Spend(0, None));
    BeginPicks();
    ThenSpends(db);
    LastStepDenies(db);
  }

  ghost function At(db: Db, phase: Phase): World {
    World(db, map[0 := phase], [], [])
  }

  lemma ThenSpends(db: Db)
    requires db == Mark(EMPTY_DB, 10)
    ensures Apply(Apply(Apply(At(db, Picked(CALL)), Resolve(0, None)), Preview(0, 10)), Spend(0, None)) == At(db, Spending(CALL, 1))
  {
    assert Apply(At(db, Picked(CALL)), Resolve(0, None)) == At(db, Ready(CALL));
    assert Apply(At(db, Ready(CALL)), Preview(0, 10)) == At(db, Spending(CALL, 0)) by {
      PreviewAllows(db);
    }
    assert Apply(At(db, Spending(CALL, 0)), Spend(0, None)) == At(db, Spending(CALL, 1));
  }

  lemma FourSteps(w: World, a: Event, b: Event, c: Event, d: Event)
    ensures RunFrom(w, [a, b, c, d]) == Apply(Apply(Apply(Apply(w, a), b), c), d)
  {
    var w3 := Apply(Apply(Apply(w, a), b), c);
    assert [a, b, c, d][1..] == [b, c, d] && [b, c, d][1..] == [c, d] && [c, d][1..] == [d];
    assert RunFrom(w3, [d]) == Apply(w3, d);
    assert RunFrom(Apply(Apply(w, a), b), [c, d]) == Apply(w3, d);
  }

  lemma BeginPicks()
    ensures Apply(INITIAL, Begin(0, CFG, REQ, INPUTS, 10)) == At(Mark(EMPTY_DB, 10), Picked(CALL))
  {
    assert REQ.intents[0] in REQ.intents && "git.push" in LIMIT.operations && "git.push" in CFG.requireApproval;
    assert Applies(LIMIT, REQ) && NeedsApproval(CFG, REQ);
    assert Applicable([LIMIT], REQ) == [LIMIT] by {
      assert [LIMIT][1..] == [];
    }
    assert ChooseFrom(CFG, INPUTS, REQ, 10, 1, [], [(0, "ref")]) == Chosen([], [(0, "ref")]);
    assert [] + [(0, "ref")] == [(0, "ref")];
  }

  lemma PreviewAllows(db: Db)
    requires db == Mark(EMPTY_DB, 10)
    ensures Decide(db, CALL, 10).Commit? && Decide(db, CALL, 10).decision.allow
  {
    assert RowsAfter(db, "budget", WindowStart(LIMIT, 10)) == {};
    assert Countable(db, [LIMIT][1..], CALL, 10) == [];
    assert Countable(db, [LIMIT], CALL, 10) == [LIMIT];
    assert BudgetIds([LIMIT][1..]) == [];
    assert Distinct(BudgetIds([LIMIT]));
    assert Ids([]) == [];
    WhenATransactionCommits(db, CALL, 10);
    AllOrNothing(db, CALL, 10);
  }

  lemma LastStepDenies(db: Db)
    requires db == Mark(EMPTY_DB, 10)
    ensures Transact(db, CALL, 1000, false) == (db, Deny(BudgetExpired, [Observation("budget", 0, Unenforceable, false)]))
  {
    var marked := Mark(db, 1000);
    assert Rule(marked, LIMIT, "group", 1000, false, false) == Stop(BudgetExpired, Observation("budget", 0, Unenforceable, false));
    assert [] + [Observation("budget", 0, Unenforceable, false)] == [Observation("budget", 0, Unenforceable, false)];
  }
}
