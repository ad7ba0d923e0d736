/** Runs in which a guarantee that might be expected of the action lifecycle fails, and what an overridden
    denial comes to. */
module ActionRaces {
  import opened Foundations
  import opened ActionLifecycle
  import opened ActionRuns
  import opened ActionCharges

  /** A request for dispatch that policy allows. */
  function Plain(guard: Guard, sending: Sending := Sent): Request {
    Request("a", ["a"], false, false, Dispatch, true, "adapter", Allows, false, guard, sending, SaysNothing)
  }

  const OPEN := Record(Reserved, true, true, ["a"], 0, None, None)

  const PREPARED := OPEN.(state := Dispatching, adapter := Some("adapter"))

  /** One call on a fresh store, its action reserved, about to override. */
  function AfterReserving(guard: Guard, sending: Sending := Sent): World {
    World(
      Store([], map["a" := OPEN], map["a" := "a"]), false,
      map[0 := Call(Plain(guard, sending), Overriding, true, false, false)], map[], multiset{})
  }

  lemma {:induction false} ReservingReaches(guard: Guard, sending: Sending := Sent)
    ensures Run(START, [Begin(0, Plain(guard, sending)), Step(0), Step(0)]) == AfterReserving(guard, sending)
  {
    var q := Plain(guard, sending);
    var w1 := START.(calls := map[0 := Begun(q)]);
    var w2 := START.(calls := map[0 := Begun(q).(place := Reserving)]);
    assert Spend(map[], ["a"], "a") == map["a" := "a"] by {
      assert Spend(map["a" := "a"], [], "a") == map["a" := "a"];
    }
    OneStep(w2, Step(0), [], AfterReserving(guard, sending));
    OneStep(w1, Step(0), [Step(0)], w2);
    OneStep(START, Begin(0, q), [Step(0)] + [Step(0)], w1);
    assert [Begin(0, q), Step(0), Step(0)] == [Begin(0, q)] + ([Step(0)] + [Step(0)]);
  }

  function At(
    guard: Guard, place: Place, allow: bool, consulted: bool, skipped: bool, sending: Sending := Sent): map<nat, Call>
  {
    map[0 := Call(Plain(guard, sending), place, allow, consulted, skipped)]
  }

  /** About to prepare, the boundary absent. */
  function BeforePreparing(sending: Sending := Sent): World {
    AfterReserving(Absent, sending).(calls := At(Absent, Preparing, true, false, false, sending))
  }

  lemma {:induction false} PreparingIsReached(sending: Sending)
    ensures Run(AfterReserving(Absent, sending), [Step(0), Step(0), Step(0), Step(0)]) == BeforePreparing(sending)
  {
    var w0 := AfterReserving(Absent, sending);
    var w1 := w0.(calls := At(Absent, Guarding, true, false, false, sending));
    var w2 := w0.(calls := At(Absent, Stopping, true, false, false, sending));
    var w3 := w0.(calls := At(Absent, Acting(false), true, false, false, sending));
    var w4 := BeforePreparing(sending);
    OneStep(w3, Step(0), [], w4);
    OneStep(w2, Step(0), [Step(0)], w3);
    OneStep(w1, Step(0), [Step(0)] + [Step(0)], w2);
    OneStep(w0, Step(0), [Step(0)] + ([Step(0)] + [Step(0)]), w1);
    assert [Step(0), Step(0), Step(0), Step(0)] == [Step(0)] + ([Step(0)] + ([Step(0)] + [Step(0)]));
  }

  /** The first steps of a call on the empty store, up to preparing. */
  function Opening(sending: Sending, rest: seq<Event>): seq<Event> {
    [Begin(0, Plain(Absent, sending)), Step(0), Step(0)] + ([Step(0), Step(0), Step(0), Step(0)] + rest)
  }

  lemma {:induction false} ToPreparing(rest: seq<Event>, sending: Sending := Sent)
    ensures Run(START, Opening(sending, rest)) == Run(BeforePreparing(sending), rest)
  {
    ReservingReaches(Absent, sending);
    PreparingIsReached(sending);
    RunConcat(START, [Begin(0, Plain(Absent, sending)), Step(0), Step(0)], [Step(0), Step(0), Step(0), Step(0)] + rest);
    RunConcat(AfterReserving(Absent, sending), [Step(0), Step(0), Step(0), Step(0)], rest);
  }

  /** A reconciliation reads the action as reserved, the call prepares and sends it, and the reconciliation
      still finalizes it as unstarted: its terminal receipt says failed, and nothing is charged for it. */
  lemma {:induction false} ASentActionIsCalledUnstarted() returns (events: seq<Event>)
    ensures
      var w := Run(START, events);
      && w.sent["a"] == 1 && "a" in w.store.authority
      && w.store.authority["a"].terminal == Some(Receipt("a", Failed, true))
      && Charge(w.store, "a") == 0
  {
    var unstarted := Receipt("a", Failed, true);
    var x := Reconciling("a", Reserved, unstarted);
    var w0 := BeforePreparing();
    var w1 := w0.(reconciling := map[0 := x]);
    var w2 := w1.(store := Store([], map["a" := PREPARED], map["a" := "a"]), calls := At(Absent, AtSend, true, false, false));
    var w3 := w2.(calls := At(Absent, Finalizing(Executed, true), true, false, false), sent := multiset{"a"});
    var settled := Store([unstarted], map["a" := PREPARED.(state := Failed, terminal := Some(unstarted))], map["a" := "a"]);
    var w4 := w3.(store := settled, reconciling := map[]);
    assert map[0 := x] - {0} == map[];
    assert Apply(w0, Read(0, "a", SaysNothing)) == w1;
    assert Apply(w1, Step(0)) == w2;
    assert Apply(w2, Step(0)).sent == w3.sent;
    assert Apply(w3, Settle(0)).store == settled;
    OneStep(w3, Settle(0), [], w4);
    OneStep(w2, Step(0), [Settle(0)], w3);
    OneStep(w1, Step(0), [Step(0)] + [Settle(0)], w2);
    OneStep(w0, Read(0, "a", SaysNothing), [Step(0)] + ([Step(0)] + [Settle(0)]), w1);
    var race := [Read(0, "a", SaysNothing)] + ([Step(0)] + ([Step(0)] + [Settle(0)]));
    ToPreparing(race);
    events := Opening(Sent, race);
    assert Spent([unstarted], "a") == 0;
  }

  /** The action is sent, and the call has yet to finalize what it saw. */
  function JustSent(sending: Sending): World {
    var seen := Finalizing(StateAfterSending(Plain(Absent, sending)), true);
    World(Store([], map["a" := PREPARED], map["a" := "a"]), false, At(Absent, seen, true, false, false, sending), map[], multiset{"a"})
  }

  lemma {:induction false} SendingReaches(sending: Sending, rest: seq<Event>)
    ensures Run(START, Opening(sending, [Step(0)] + ([Step(0)] + rest))) == Run(JustSent(sending), rest)
  {
    var w0, w2 := BeforePreparing(sending), JustSent(sending);
    var w1 := w2.(calls := At(Absent, AtSend, true, false, false, sending), sent := multiset{});
    assert Apply(w1, Step(0)).sent == w2.sent;
    OneStep(w1, Step(0), rest, w2);
    OneStep(w0, Step(0), [Step(0)] + rest, w1);
    ToPreparing([Step(0)] + ([Step(0)] + rest), sending);
  }

  lemma {:induction false} SpentOnceOrTwice(executed: Receipt, own: Receipt)
    requires executed == Receipt("a", Executed, false) && own.id == "a"
    ensures Spent([executed, own], "a") == 1 + if CountsAsExecuted(own.state) then 1 else 0
  {
    SpentWithOneMore([], executed, "a");
    SpentWithOneMore([executed], own, "a");
    assert [] + [executed] == [executed] && [executed] + [own] == [executed, own];
  }

  lemma {:induction false} BothReconcile(w: World) returns (events: seq<Event>)
    requires w.store == Store([], map["a" := PREPARED], map["a" := "a"]) && w.reconciling == map[]
    ensures
      var executed := Receipt("a", Executed, false);
      var done := PREPARED.(state := Executed, terminal := Some(executed));
      Run(w, events) == w.(store := Store([executed, executed], map["a" := done], map["a" := "a"]))
  {
    var executed := Receipt("a", Executed, false);
    var x := Reconciling("a", Dispatching, executed);
    var done := PREPARED.(state := Executed, terminal := Some(executed));
    var w1 := w.(reconciling := map[0 := x]);
    var w2 := w.(reconciling := map[0 := x, 1 := x]);
    var w3 := w.(store := Store([executed], map["a" := done], map["a" := "a"]), reconciling := map[1 := x]);
    var w4 := w.(store := Store([executed, executed], map["a" := done], map["a" := "a"]));
    assert map[0 := x, 1 := x] - {0} == map[1 := x] && map[1 := x] - {1} == map[];
    assert Apply(w2, Settle(0)).store == w3.store;
    assert Apply(w3, Settle(1)).store == w4.store;
    OneStep(w3, Settle(1), [], w4);
    OneStep(w2, Settle(0), [Settle(1)], w3);
    OneStep(w1, Read(1, "a", SaysExecuted), [Settle(0)] + [Settle(1)], w2);
    OneStep(w, Read(0, "a", SaysExecuted), [Read(1, "a", SaysExecuted)] + ([Settle(0)] + [Settle(1)]), w1);
    events := [Read(0, "a", SaysExecuted)] + ([Read(1, "a", SaysExecuted)] + ([Settle(0)] + [Settle(1)]));
  }

  /** The call sends the action and its process stops; two reconciliations read it as dispatching, both are
      told it was executed, and both finalize: it is charged twice. */
  lemma {:induction false} TwoReconciliationsChargeTwice() returns (events: seq<Event>)
    ensures Charge(Run(START, events).store, "a") == 2 && Run(START, events).sent["a"] == 1
  {
    var gone := JustSent(Sent).(calls := At(Absent, Gone, true, false, false));
    var both := BothReconcile(gone);
    OneStep(JustSent(Sent), Crash(0), both, gone);
    SendingReaches(Sent, [Crash(0)] + both);
    events := Opening(Sent, [Step(0)] + ([Step(0)] + ([Crash(0)] + both)));
    SpentOnceOrTwice(Receipt("a", Executed, false), Receipt("a", Executed, false));
  }

  /** One reconciliation, told the action was executed, settles while the call that sent it has yet to finalize:
      the call's own finalization charges it a second time, whether it reports an execution or an unknown
      outcome. */
  lemma {:induction false} TheCallItselfChargesTwice(sending: Sending) returns (events: seq<Event>)
    requires !sending.RefusedInput?
    ensures Charge(Run(START, events).store, "a") == 2 && Run(START, events).sent["a"] == 1
  {
    var own := Receipt("a", StateAfterSending(Plain(Absent, sending)), false);
    var executed := Receipt("a", Executed, false);
    var x := Reconciling("a", Dispatching, executed);
    var w0 := JustSent(sending);
    var w1 := w0.(reconciling := map[0 := x]);
    var w2 := w0.(store := WithFinal(w0.store, "a", executed));
    var w3 := w2.(store := WithFinal(w2.store, "a", own), calls := At(Absent, Answered(true), true, false, false, sending));
    assert map[0 := x] - {0} == map[];
    OneStep(w2, Step(0), [], w3);
    OneStep(w1, Settle(0), [Step(0)], w2);
    OneStep(w0, Read(0, "a", SaysExecuted), [Settle(0)] + [Step(0)], w1);
    var race := [Read(0, "a", SaysExecuted)] + ([Settle(0)] + [Step(0)]);
    SendingReaches(sending, race);
    events := Opening(sending, [Step(0)] + ([Step(0)] + race));
    assert [] + [executed] + [own] == [executed, own];
    SpentOnceOrTwice(executed, own);
  }

  /** A stop in force just as the boundary would be asked, and lifted before the next check: the action is
      sent although the boundary would have refused it. */
  lemma {:induction false} ALiftedStopPassesTheBoundary() returns (events: seq<Event>)
    ensures
      var w := Run(START, events);
      w.sent["a"] == 1 && 0 in w.calls && w.calls[0].request.guard.Refuses? && !w.calls[0].consulted
  {
    var w0 := AfterReserving(Refuses);
    var w1 := w0.(calls := At(Refuses, Guarding, true, false, false));
    var w2 := w1.(stopped := true);
    var w3 := w2.(calls := At(Refuses, Stopping, true, false, true));
    var w4 := w3.(stopped := false);
    var w5 := w4.(calls := At(Refuses, Acting(false), true, false, true));
    var w6 := w4.(calls := At(Refuses, Preparing, true, false, true));
    var w7 := w4.(store := Store([], map["a" := PREPARED], map["a" := "a"]), calls := At(Refuses, AtSend, true, false, true));
    var w8 := w7.(calls := At(Refuses, Finalizing(Executed, true), true, false, true), sent := multiset{"a"});
    assert Apply(w7, Step(0)).sent == w8.sent;
    OneStep(w7, Step(0), [], w8);
    OneStep(w6, Step(0), [Step(0)], w7);
    OneStep(w5, Step(0), [Step(0)] + [Step(0)], w6);
    var tail := [Step(0)] + ([Step(0)] + [Step(0)]);
    OneStep(w4, Step(0), tail, w5);
    OneStep(w3, SetStopped(false), [Step(0)] + tail, w4);
    OneStep(w2, Step(0), [SetStopped(false)] + ([Step(0)] + tail), w3);
    OneStep(w1, SetStopped(true), [Step(0)] + ([SetStopped(false)] + ([Step(0)] + tail)), w2);
    var rest := [SetStopped(true)] + ([Step(0)] + ([SetStopped(false)] + ([Step(0)] + tail)));
    OneStep(w0, Step(0), rest, w1);
    ReservingReaches(Refuses);
    RunConcat(START, [Begin(0, Plain(Refuses)), Step(0), Step(0)], [Step(0)] + rest);
    events := [Begin(0, Plain(Refuses)), Step(0), Step(0)] + ([Step(0)] + rest);
  }

  /** The boundary refuses the action and its caller is told no; a reconciliation that had read it as reserved
      finalizes it as unstarted, and a repeat of the same request is told to go ahead. */
  lemma {:induction false} ARepeatIsToldYesAfterANo() returns (events: seq<Event>)
    ensures
      var w := Run(START, events);
      && 0 in w.calls && w.calls[0].place == Answered(false)
      && 1 in w.calls && w.calls[1].place == Repeated(true) && w.calls[1].request == w.calls[0].request
  {
    var no, unstarted := Receipt("a", Denied, false), Receipt("a", Failed, true);
    var x := Reconciling("a", Reserved, unstarted);
    var q := Plain(Refuses);
    var w0 := AfterReserving(Refuses);
    var w1 := w0.(reconciling := map[0 := x]);
    var w2 := w1.(calls := At(Refuses, Guarding, true, false, false));
    var w3 := w1.(calls := At(Refuses, Stopping, false, true, false));
    var w4 := w1.(calls := At(Refuses, Acting(false), false, true, false));
    var w5 := w1.(calls := At(Refuses, Finalizing(Denied, false), false, true, false));
    var denied := Store([no], map["a" := OPEN.(state := Denied, terminal := Some(no))], map["a" := "a"]);
    var w6 := w1.(store := denied, calls := At(Refuses, Answered(false), false, true, false));
    assert Apply(w5, Step(0)).store == denied;
    OneStep(w5, Step(0), [], w6);
    OneStep(w4, Step(0), [Step(0)], w5);
    OneStep(w3, Step(0), [Step(0)] + [Step(0)], w4);
    OneStep(w2, Step(0), [Step(0)] + ([Step(0)] + [Step(0)]), w3);
    OneStep(w1, Step(0), [Step(0)] + ([Step(0)] + ([Step(0)] + [Step(0)])), w2);
    var steps := [Step(0)] + ([Step(0)] + ([Step(0)] + ([Step(0)] + [Step(0)])));
    OneStep(w0, Read(0, "a", SaysNothing), steps, w1);
    var after := TheRepeat(w6, denied, x);
    ReservingReaches(Refuses);
    var first := [Begin(0, q), Step(0), Step(0)];
    RunConcat(START, first, [Read(0, "a", SaysNothing)] + steps);
    RunConcat(START, first + ([Read(0, "a", SaysNothing)] + steps), after);
    events := (first + ([Read(0, "a", SaysNothing)] + steps)) + after;
  }

  lemma {:induction false} TheRepeat(w: World, denied: Store, x: Reconciling) returns (events: seq<Event>)
    requires x == Reconciling("a", Reserved, Receipt("a", Failed, true)) && "a" in denied.authority
    requires w == World(denied, false, At(Refuses, Answered(false), false, true, false), map[0 := x], multiset{})
    ensures
      var w' := Run(w, events);
      && 0 in w'.calls && w'.calls[0] == w.calls[0]
      && 1 in w'.calls && w'.calls[1].place == Repeated(true) && w'.calls[1].request == Plain(Refuses)
  {
    var q := Plain(Refuses);
    var first := w.calls[0];
    var w1 := w.(store := WithFinal(denied, "a", x.receipt), reconciling := map[]);
    var w2 := w1.(calls := map[0 := first, 1 := Begun(q)]);
    var w3 := w1.(calls := map[0 := first, 1 := Begun(q).(place := Reserving)]);
    var w4 := w1.(calls := map[0 := first, 1 := Call(q, Repeating, true, false, false)]);
    var w5 := w1.(calls := map[0 := first, 1 := Call(q, Repeated(true), true, false, false)]);
    assert map[0 := x] - {0} == map[];
    OneStep(w4, Step(1), [], w5);
    OneStep(w3, Step(1), [Step(1)], w4);
    OneStep(w2, Step(1), [Step(1)] + [Step(1)], w3);
    OneStep(w1, Begin(1, q), [Step(1)] + ([Step(1)] + [Step(1)]), w2);
    OneStep(w, Settle(0), [Begin(1, q)] + ([Step(1)] + ([Step(1)] + [Step(1)])), w1);
    events := [Settle(0)] + ([Begin(1, q)] + ([Step(1)] + ([Step(1)] + [Step(1)])));
  }

  // ── A call on its own ──

  /** What an uninterrupted call on a new id comes to: the answer is the decision, unless the executor of a
      simulation threw or a denial was overridden for dispatch, which its denied record does not allow. */
  lemma {:induction false} UninterruptedCall(s: Store, n: nat, q: Request)
    requires !Taken(s, q.id, q.ids)
    ensures
      var end := Alone(s, false, n, Begun(q), ALL_STEPS);
      var goes := Decision(q) && !OutboundDisabled(q);
      && q.id in end.store.authority
      && if goes && !Cooperative(q) && (if q.mode.Dispatch? then !q.verdict.Allows? else !q.sending.Sent?) then
           end.call.place == Threw && end.store.authority[q.id].terminal.None?
         else
           end.call.place == Answered(goes) && RetryAnswer(end.store, q.id) == Some(goes)
  {
    OneMove(s, false, n, Begun(q), 9);
    var c := Begun(q).(place := Reserving);
    OneMove(s, false, n, c, 8);
    var m := Advance(s, false, n, c);
    var acting := FromReservedToActing(m.store, n, q);
    ActingEnds(m.store, n, acting, q.verdict.Allows?);
  }

  /** A denial a person overrides, for dispatch: the call throws, and leaves no terminal receipt. */
  lemma {:induction false} AnOverriddenDenialThrows()
    ensures
      var q := Plain(Absent).(verdict := Denies, overrides := true);
      var end := Alone(EMPTY_STORE, false, 0, Begun(q), ALL_STEPS);
      end.call.place == Threw && q.id in end.store.authority && end.store.authority[q.id].terminal.None?
  {
    hide Alone;
    UninterruptedCall(EMPTY_STORE, 0, Plain(Absent).(verdict := Denies, overrides := true));
  }

  lemma {:induction false} ActingEnds(s: Store, n: nat, c: Call, permitted: bool)
    requires c.place.Acting? && c.place.stopped == (c.allow && OutboundDisabled(c.request)) && c.request.id in s.authority
    requires s.authority[c.request.id].state == (if permitted then Reserved else Denied) && s.authority[c.request.id].terminal.None?
    ensures
      var q := c.request;
      var end := Alone(s, false, n, c, 4);
      var goes := c.allow && !OutboundDisabled(q);
      && q.id in end.store.authority
      && if goes && !Cooperative(q) && (if q.mode.Dispatch? then !permitted else !q.sending.Sent?) then
           end.call.place == Threw && end.store.authority[q.id].terminal.None?
         else
           end.call.place == Answered(goes) && RetryAnswer(end.store, q.id) == Some(goes)
  {
    hide Alone, RetryAnswer;
    OneMove(s, false, n, c, 4);
    var next := Advance(s, false, n, c).call;
    if next.place.Preparing? {
      PreparingEnds(s, n, next, permitted);
    } else if next.place.Finalizing? {
      FinalizingEnds(s, n, next);
    }
  }

  lemma {:induction false} FinalizingEnds(s: Store, n: nat, c: Call)
    requires c.place.Finalizing? && c.request.id in s.authority
    ensures
      var end := Alone(s, false, n, c, 3);
      && end.call.place == Answered(c.place.allowed) && c.request.id in end.store.authority
      && RetryAnswer(end.store, c.request.id) == Some(Permits(c.place.state))
  {
    OneMove(s, false, n, c, 3);
  }

  lemma {:induction false} PreparingEnds(s: Store, n: nat, c: Call, permitted: bool)
    requires c.place.Preparing? && c.request.id in s.authority
    requires s.authority[c.request.id].state == (if permitted then Reserved else Denied) && s.authority[c.request.id].terminal.None?
    ensures
      var end := Alone(s, false, n, c, 3);
      && c.request.id in end.store.authority
      && if permitted then end.call.place == Answered(true) && RetryAnswer(end.store, c.request.id) == Some(true)
         else end.call.place == Threw && end.store.authority[c.request.id].terminal.None?
  {
    OneMove(s, false, n, c, 3);
    var m := Advance(s, false, n, c);
    if permitted {
      OneMove(m.store, false, n, m.call, 2);
      OneMove(m.store, false, n, Advance(m.store, false, n, m.call).call, 1);
    }
  }
}
