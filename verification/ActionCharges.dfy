/** How often policy counts an action as executed. */
module ActionCharges {
  import opened Foundations
  import opened ActionLifecycle
  import opened ActionRuns

  /** How many receipts of the action count as an execution. */
  function Spent(all: seq<Receipt>, id: string): nat {
    if all == [] then 0
    else Spent(all[..|all| - 1], id) +
         if all[|all| - 1].id == id && CountsAsExecuted(all[|all| - 1].state) then 1 else 0
  }

  /** What policy sees of the action: its executed receipts, and its candidate while it is held. */
  function Charge(s: Store, id: string): nat {
    Spent(s.all, id) + if id in s.authority && Held(s.authority[id].state) && s.authority[id].charged then 1 else 0
  }

  /** Each finalization finds the record as its writer left or read it. */
  predicate Undisturbed(w: World, e: Event) {
    match e
    case Step(n) =>
      n in w.calls && (w.calls[n].place.Finalizing? || w.calls[n].place.FinalizingStopped?)
      && w.calls[n].request.id in w.store.authority ==>
        w.store.authority[w.calls[n].request.id].terminal.None?
    case Settle(r) =>
      r in w.reconciling && w.reconciling[r].id in w.store.authority ==>
        w.store.authority[w.reconciling[r].id].state == w.reconciling[r].read
    case _ => true
  }

  predicate AllUndisturbed(w: World, events: seq<Event>)
    decreases events
  {
    events == [] || (Undisturbed(w, events[0]) && AllUndisturbed(Apply(w, events[0]), events[1..]))
  }

  /** The executed receipts of an action are its terminal one, if that is one. */
  predicate SpentOk(s: Store, id: string) {
    && Spent(s.all, id) == (if id in s.authority && s.authority[id].terminal.Some? && CountsAsExecuted(s.authority[id].state) then 1 else 0)
    && (id in s.authority && s.authority[id].terminal.Some? && s.authority[id].terminal.value.notStarted ==>
          s.authority[id].adapter.None?)
  }

  lemma {:induction false} SpentWithOneMore(all: seq<Receipt>, r: Receipt, id: string)
    ensures Spent(all + [r], id) == Spent(all, id) + if r.id == id && CountsAsExecuted(r.state) then 1 else 0
  {
    assert (all + [r])[..|all|] == all;
  }

  lemma {:induction false} FinalKeepsSpent(s: Store, id: string, r: Receipt, i: string)
    requires id in s.authority && r.id == id && SpentOk(s, i)
    requires !(s.authority[id].terminal.Some? && CountsAsExecuted(s.authority[id].state))
    requires r.notStarted ==> s.authority[id].adapter.None?
    ensures SpentOk(WithFinal(s, id, r), i)
  {
    SpentWithOneMore(s.all, r, i);
  }

  lemma {:induction false} AdvanceKeepsSpent(w: World, n: nat, i: string)
    requires Inv(w) && n in w.calls && Undisturbed(w, Step(n)) && SpentOk(w.store, i)
    ensures SpentOk(Stepped(w, n).store, i)
  {
    var c := w.calls[n];
    var id := c.request.id;
    assert CallOk(w, n);
    if c.place.Finalizing? && id in w.store.authority {
      FinalKeepsSpent(w.store, id, Receipt(id, c.place.state, false), i);
    } else if c.place.FinalizingStopped? && id in w.store.authority {
      FinalKeepsSpent(w.store, id, Receipt(id, DeniedState(c.request), false), i);
    } else if c.place.Preparing? && Dispatchable(w.store, id) {
      assert RecordOk(w, id);
    } else {
      OthersKeepSpent(w.store, w.stopped, n, c, i);
    }
  }

  lemma {:induction false} OthersKeepSpent(s: Store, stopped: bool, n: nat, c: Call, i: string)
    requires !c.place.Finalizing? && !c.place.FinalizingStopped? && !(c.place.Preparing? && Dispatchable(s, c.request.id))
    requires SpentOk(s, i)
    ensures SpentOk(Advance(s, stopped, n, c).store, i)
  {
    hide Spent, Spend, RetryAnswer, ActOn, Decision;
  }

  lemma {:induction false} SettleKeepsSpent(w: World, r: nat, i: string)
    requires Inv(w) && r in w.reconciling && Undisturbed(w, Settle(r)) && SpentOk(w.store, i)
    ensures SpentOk(Settled(w, r).store, i)
  {
    var x := w.reconciling[r];
    assert ReconcilingOk(w, x) && RecordOk(w, x.id);
    FinalKeepsSpent(w.store, x.id, x.receipt, i);
  }

  lemma {:induction false} ApplyKeepsSpent(w: World, e: Event, i: string)
    requires Inv(w) && Undisturbed(w, e) && SpentOk(w.store, i)
    ensures SpentOk(Apply(w, e).store, i)
  {
    if e.Step? && e.call in w.calls {
      AdvanceKeepsSpent(w, e.call, i);
    } else if e.Settle? && e.reconciliation in w.reconciling {
      SettleKeepsSpent(w, e.reconciliation, i);
    }
  }

  lemma {:induction false} RunKeepsSpent(w: World, events: seq<Event>, i: string)
    requires Inv(w) && AllUndisturbed(w, events) && SpentOk(w.store, i)
    ensures SpentOk(Run(w, events).store, i)
    decreases events
  {
    if events != [] {
      ApplyKeepsInv(w, events[0]);
      ApplyKeepsSpent(w, events[0], i);
      RunKeepsSpent(Apply(w, events[0]), events[1..], i);
    }
  }

  /** When every finalization finds the record as its writer left it, no action is ever charged twice, and one
      that was sent is charged unless the adapter itself said it failed. */
  lemma {:induction false} EachActionIsChargedOnce(events: seq<Event>, id: string)
    requires AllUndisturbed(START, events)
    ensures
      var w := Run(START, events);
      && Charge(w.store, id) <= 1
      && (id in w.sent && id in w.store.authority ==>
            Charge(w.store, id) == 1
            || (w.store.authority[id].state.Failed? && w.store.authority[id].terminal.Some?
                && !w.store.authority[id].terminal.value.notStarted))
  {
    assert START.store.all == [];
    RunKeepsInv(START, events);
    RunKeepsSpent(START, events, id);
    var w := Run(START, events);
    if id in w.store.authority {
      assert RecordOk(w, id);
    }
  }

  // ── Charged twice ──

  lemma StartIsGood()
    ensures Inv(START) && forall i :: SpentOk(START.store, i)
  {
    assert START.store.all == [];
  }

  lemma ReconciledAreKnown(w: World)
    requires Inv(w)
    ensures forall r :: r in w.reconciling ==> w.reconciling[r].id in w.store.authority
  {
    forall r | r in w.reconciling ensures w.reconciling[r].id in w.store.authority {
      ReconciledIsKnown(w, r);
    }
  }

  lemma ReconciledIsKnown(w: World, r: nat)
    requires Inv(w) && r in w.reconciling
    ensures w.reconciling[r].id in w.store.authority && w.reconciling[r].receipt.id == w.reconciling[r].id
    ensures w.reconciling[r].receipt.state in {Executed, Failed}
  {
    assert ReconcilingOk(w, w.reconciling[r]);
  }

  /** The receipt an event writes, if it finalizes an action. */
  function Written(w: World, e: Event): Option<Receipt> {
    match e
    case Step(n) =>
      if n !in w.calls || w.calls[n].request.id !in w.store.authority then None
      else
        var c := w.calls[n];
        if c.place.Finalizing? then Some(Receipt(c.request.id, c.place.state, false))
        else if c.place.FinalizingStopped? then Some(Receipt(c.request.id, DeniedState(c.request), false))
        else None
    case Settle(r) =>
      if r in w.reconciling && w.reconciling[r].id in w.store.authority then Some(w.reconciling[r].receipt) else None
    case _ => None
  }

  /** What the event writes counts as executed, or leaves the action held. */
  predicate WritesACharge(w: World, e: Event, id: string) {
    var r := Written(w, e);
    r.Some? && r.value.id == id && (CountsAsExecuted(r.value.state) || r.value.state.OutcomeUnknown?)
  }

  /** The event charges the action although an execution of it is on record. */
  predicate ChargesAgain(w: World, e: Event, id: string) {
    WritesACharge(w, e, id) && Spent(w.store.all, id) > 0
  }

  /** Only known actions have receipts that count. */
  predicate NoStray(s: Store, id: string) {
    id !in s.authority ==> Spent(s.all, id) == 0
  }

  lemma {:induction false} WritesItsReceipt(w: World, e: Event, id: string)
    requires Written(w, e).Some? && Inv(w) && NoStray(w.store, id)
    ensures
      var r := Written(w, e).value;
      && r.id in w.store.authority && Apply(w, e).store == WithFinal(w.store, r.id, r) && NoStray(Apply(w, e).store, id)
      && Spent(Apply(w, e).store.all, id) == Spent(w.store.all, id) + if r.id == id && CountsAsExecuted(r.state) then 1 else 0
  {
    hide Spent, Inv, Reserve, ActOn, RetryAnswer;
    if e.Settle? {
      ReconciledIsKnown(w, e.reconciliation);
    }
    SpentWithOneMore(w.store.all, Written(w, e).value, id);
  }

  lemma {:induction false} StepWithoutReceipt(s: Store, stopped: bool, n: nat, c: Call, id: string)
    requires NoStray(s, id) && (c.request.id in s.authority ==> !c.place.Finalizing? && !c.place.FinalizingStopped?)
    ensures
      var s' := Advance(s, stopped, n, c).store;
      NoStray(s', id) && (Charge(s', id) > 1 ==> Charge(s, id) > 1)
  {
    hide Spent, Spend, RetryAnswer, ActOn, Decision;
  }

  lemma {:induction false} OthersChargeNoMore(w: World, e: Event, id: string)
    requires Written(w, e).None? && Inv(w) && NoStray(w.store, id)
    ensures NoStray(Apply(w, e).store, id) && (Charge(Apply(w, e).store, id) > 1 ==> Charge(w.store, id) > 1)
  {
    if e.Step? && e.call in w.calls {
      StepWithoutReceipt(w.store, w.stopped, e.call, w.calls[e.call], id);
    } else {
      ReconciledAreKnown(w);
    }
  }

  /** An action held with an unknown outcome was prepared, so it is charged. */
  lemma UnknownIsCharged(w: World, id: string)
    requires Inv(w) && id in w.store.authority && w.store.authority[id].state.OutcomeUnknown?
    ensures w.store.authority[id].charged
  {
    assert RecordOk(w, id);
  }

  lemma {:induction false} EventTipsExactlyWhen(w: World, e: Event, id: string)
    requires Inv(w) && NoStray(w.store, id)
    ensures NoStray(Apply(w, e).store, id)
    ensures ChargesAgain(w, e, id) ==> Charge(Apply(w, e).store, id) > 1
    ensures Charge(w.store, id) <= 1 && Charge(Apply(w, e).store, id) > 1 ==> ChargesAgain(w, e, id)
  {
    hide Spent, Apply, Written, Inv;
    if Written(w, e).None? {
      OthersChargeNoMore(w, e, id);
    } else {
      WritesItsReceipt(w, e, id);
      WrittenState(w, e);
      ApplyKeepsInv(w, e);
      var w' := Apply(w, e);
      if id in w'.store.authority && w'.store.authority[id].state.OutcomeUnknown? {
        UnknownIsCharged(w', id);
      }
    }
  }

  lemma WrittenState(w: World, e: Event)
    requires Inv(w) && Written(w, e).Some?
    ensures !Written(w, e).value.state.Reserved? && !Written(w, e).value.state.Dispatching?
  {
    match e
    case Step(n) =>
      CallIsHere(w, n);
    case Settle(r) =>
      ReconciledIsKnown(w, r);
  }

  predicate OverchargedAfter(events: seq<Event>, k: nat, id: string)
    requires k <= |events|
  {
    Charge(Run(START, events[..k]).store, id) > 1
  }

  predicate ChargedAgainAt(events: seq<Event>, k: nat, id: string)
    requires k < |events|
  {
    ChargesAgain(Run(START, events[..k]), events[k], id)
  }

  lemma {:induction false} OneMore(events: seq<Event>, k: nat)
    requires k < |events|
    ensures Run(START, events[..k + 1]) == Apply(Run(START, events[..k]), events[k])
  {
    assert events[..k + 1] == events[..k] + [events[k]];
    RunConcat(START, events[..k], [events[k]]);
    OneStep(Run(START, events[..k]), events[k], [], Apply(Run(START, events[..k]), events[k]));
  }

  lemma {:induction false} ReachedIsGood(events: seq<Event>, id: string)
    ensures Inv(Run(START, events)) && NoStray(Run(START, events).store, id)
    decreases |events|
  {
    StartIsGood();
    if events != [] {
      var k := |events| - 1;
      ReachedIsGood(events[..k], id);
      OneMore(events, k);
      assert events[..k + 1] == events;
      ApplyKeepsInv(Run(START, events[..k]), events[k]);
      EventTipsExactlyWhen(Run(START, events[..k]), events[k], id);
    }
  }

  lemma {:induction false} OverchargeHasAStart(events: seq<Event>, k: nat, id: string)
    requires k <= |events| && OverchargedAfter(events, k, id)
    ensures exists j :: 0 <= j < |events| && ChargedAgainAt(events, j, id)
    decreases k
  {
    StartIsGood();
    if k > 0 {
      ReachedIsGood(events[..k - 1], id);
      OneMore(events, k - 1);
      EventTipsExactlyWhen(Run(START, events[..k - 1]), events[k - 1], id);
      if OverchargedAfter(events, k - 1, id) {
        OverchargeHasAStart(events, k - 1, id);
      } else {
        assert ChargedAgainAt(events, k - 1, id);
      }
    }
  }

  /** In any run an action is charged more than once at some point exactly when some event of the run, a call's
      own finalization or a reconciliation's, writes an execution or an unknown outcome of it although a receipt
      of its execution is already there: what a finalization could look up before it writes. */
  lemma {:induction false} ChargedTwiceExactlyWhen(events: seq<Event>, id: string)
    ensures
      (exists k :: 0 <= k <= |events| && OverchargedAfter(events, k, id))
      <==>
      (exists k :: 0 <= k < |events| && ChargedAgainAt(events, k, id))
  {
    if k :| 0 <= k <= |events| && OverchargedAfter(events, k, id) {
      OverchargeHasAStart(events, k, id);
    }
    if k :| 0 <= k < |events| && ChargedAgainAt(events, k, id) {
      ReachedIsGood(events[..k], id);
      OneMore(events, k);
      EventTipsExactlyWhen(Run(START, events[..k]), events[k], id);
      assert OverchargedAfter(events, k + 1, id);
    }
  }

  /** While every finalization found its record as its writer left or read it, such a receipt is there exactly
      when the record itself is finalized as executed: so the next event charges the action twice exactly when
      it finalizes it again, as executed or of unknown outcome. */
  lemma {:induction false} NextChargesTwiceExactlyWhen(events: seq<Event>, e: Event, id: string)
    requires AllUndisturbed(START, events)
    ensures
      var w := Run(START, events);
      Charge(Apply(w, e).store, id) > 1
      <==>
      && WritesACharge(w, e, id) && id in w.store.authority
      && w.store.authority[id].terminal.Some? && CountsAsExecuted(w.store.authority[id].state)
  {
    StartIsGood();
    var w := Run(START, events);
    ReachedIsGood(events, id);
    EachActionIsChargedOnce(events, id);
    RunKeepsSpent(START, events, id);
    EventTipsExactlyWhen(w, e, id);
  }
}
