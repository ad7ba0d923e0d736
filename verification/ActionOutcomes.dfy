/** What is recorded of an action in the end: by its own call when nothing else interferes, and by a
    reconciliation. */
module ActionOutcomes {
  import opened Foundations
  import opened ActionLifecycle
  import opened ActionRuns
  import opened ActionCharges

  // ── A reconciliation ──

  /** The store with the action finalized by this receipt, and nothing else changed. */
  predicate FinalizedWith(s: Store, s': Store, id: string, receipt: Receipt)
    requires id in s.authority
  {
    && s'.all == s.all + [receipt] && s'.consumed == s.consumed
    && s'.authority == s.authority[id := s.authority[id].(state := receipt.state, terminal := Some(receipt))]
  }

  /** Reading and settling with nothing in between: an action never started is recorded as failed and unstarted; of
      one that was started what the adapter says is recorded, and nothing when it says nothing; one that is over is
      left alone. It is charged exactly when the adapter says it was executed, or as it was. */
  lemma {:induction false} ReconciledAlone(w: World, r: nat, id: string, query: Query)
    requires r !in w.reconciling && id in w.store.authority
    ensures
      var w' := Apply(Apply(w, Read(r, id, query)), Settle(r));
      var was, s, s' := w.store.authority[id].state, w.store, w'.store;
      && (was == Reserved ==> FinalizedWith(s, s', id, Receipt(id, Failed, true)))
      && (was == Dispatching || was == OutcomeUnknown ==>
            match query
            case SaysExecuted => FinalizedWith(s, s', id, Receipt(id, Executed, false))
            case SaysFailed => FinalizedWith(s, s', id, Receipt(id, Failed, false))
            case SaysNothing => s' == s)
      && (was != Reserved && was != Dispatching && was != OutcomeUnknown ==> s' == s)
      && (was == Reserved ==> Charge(s', id) == Spent(s.all, id))
      && (was == Dispatching || was == OutcomeUnknown ==>
            Charge(s', id) == match query
              case SaysExecuted => Spent(s.all, id) + 1
              case SaysFailed => Spent(s.all, id)
              case SaysNothing => Charge(s, id))
      && w'.calls == w.calls && w'.sent == w.sent
  {
    hide Spent;
    SpentWithOneMore(w.store.all, Receipt(id, Failed, true), id);
    SpentWithOneMore(w.store.all, Receipt(id, Failed, false), id);
    SpentWithOneMore(w.store.all, Receipt(id, Executed, false), id);
  }

  // ── A call on its own ──

  /** How a call on its own ends: the state recorded, or none, and the answer, or none when it throws. */
  datatype Ending = Ending(recorded: Option<State>, answer: Option<bool>)

  /** What `handleAction` promises of a call that nothing interferes with, read off the request alone. */
  predicate Promised(q: Request, stopped: bool, end: Ending) {
    var refused := if q.observedAfter then ObservedAfter else Denied;
    var overridden := q.verdict == Denies && q.overrides && !q.observedAfter;
    if stopped then end == Ending(Some(refused), Some(false))
    else if !(q.verdict == Allows || overridden) || q.guard == Refuses then end == Ending(Some(refused), Some(false))
    else if q.mode == Dispatch && !q.outbound then end == Ending(Some(refused), Some(false))
    else if q.checkOnly || q.observedAfter then end == Ending(Some(CooperativeAllow), Some(true))
    else match q.mode
      case Simulation => end == if q.sending == Sent then Ending(Some(Simulated), Some(true)) else Ending(None, None)
      case Dispatch =>
        if q.verdict != Allows then end == Ending(None, None)
        else match (q.sending, q.query)
          case (Sent, _) => end == Ending(Some(Executed), Some(true))
          case (RefusedInput, _) => end == Ending(Some(Failed), Some(true))
          case (Broke, SaysExecuted) => end == Ending(Some(Executed), Some(true))
          case (Broke, SaysFailed) => end == Ending(Some(Failed), Some(true))
          case (Broke, SaysNothing) => end == Ending(Some(OutcomeUnknown), Some(true))
  }

  function EndingOf(m: Moved): Ending {
    var id := m.call.request.id;
    Ending(
      if id in m.store.authority && m.store.authority[id].terminal.Some? then Some(m.store.authority[id].terminal.value.state) else None,
      if m.call.place.Answered? then Some(m.call.place.allowed) else None)
  }

  /** The call is over, its record is its own, and a receipt was added exactly when one is recorded. */
  predicate EndsAs(s: Store, m: Moved, q: Request, n: nat, end: Ending) {
    && Over(m.call.place) && m.call.request == q && EndingOf(m) == end
    && q.id in m.store.authority && m.store.authority[q.id].owner == n && m.store.authority[q.id].ids == q.ids
    && m.store.all == s.all + (if end.recorded.Some? then [Receipt(q.id, end.recorded.value, false)] else [])
    && m.store.authority[q.id].state == (if end.recorded.Some? then end.recorded.value else if q.verdict == Allows then Reserved else Denied)
    && (m.store.authority[q.id].charged <==> !q.checkOnly && !q.observedAfter)
  }

  /** Every call on its own, on a new id: it ends as promised, with one receipt or none; and its action is charged
      exactly when it is recorded as executed or of unknown outcome, or as having happened before, or when the
      executor threw and the action is still held. */
  lemma {:induction false} WhatACallRecords(s: Store, stopped: bool, n: nat, q: Request)
    requires !Taken(s, q.id, q.ids) && Spent(s.all, q.id) == 0
    ensures
      var m := Alone(s, stopped, n, Begun(q), ALL_STEPS);
      var end := EndingOf(m);
      && Promised(q, stopped, end) && EndsAs(s, m, q, n, end)
      && Charge(m.store, q.id) ==
           match end.recorded
           case Some(state) => if state in {Executed, ObservedAfter, OutcomeUnknown} then 1 else 0
           case None => if q.verdict == Allows then 1 else 0
  {
    hide Alone, Spent, Charge;
    OneMove(s, stopped, n, Begun(q), 9);
    if stopped {
      WhatAStoppedCallRecords(s, n, q);
    } else {
      WhatARunningCallRecords(s, n, q);
    }
    ChargedAs(s, Alone(s, stopped, n, Begun(q), ALL_STEPS), stopped, n, q);
  }

  lemma {:induction false} WhatAStoppedCallRecords(s: Store, n: nat, q: Request)
    requires !Taken(s, q.id, q.ids)
    ensures
      var m := Alone(s, true, n, Begun(q).(place := ReservingStopped), 8);
      Promised(q, true, EndingOf(m)) && EndsAs(s, m, q, n, EndingOf(m))
  {
    hide Alone, Spend;
    var c := Begun(q).(place := ReservingStopped);
    OneMove(s, true, n, c, 8);
    var m := Advance(s, true, n, c);
    OneMove(m.store, true, n, m.call, 7);
  }

  lemma {:induction false} WhatARunningCallRecords(s: Store, n: nat, q: Request)
    requires !Taken(s, q.id, q.ids)
    ensures
      var m := Alone(s, false, n, Begun(q).(place := Reserving), 8);
      Promised(q, false, EndingOf(m)) && EndsAs(s, m, q, n, EndingOf(m))
  {
    hide Alone, Spend;
    var c := Begun(q).(place := Reserving);
    OneMove(s, false, n, c, 8);
    var m := Advance(s, false, n, c);
    assert m.store == WithReserved(s, q.id, q.ids, q.verdict.Allows?, !Cooperative(q), n);
    var acting := FromReservedToActing(m.store, n, q);
    FromActing(s, m.store, n, acting, q);
  }

  lemma {:induction false} FromActing(s: Store, reserved: Store, n: nat, c: Call, q: Request)
    requires reserved == WithReserved(s, q.id, q.ids, q.verdict.Allows?, !Cooperative(q), n)
    requires c.request == q && c.allow == Decision(q) && c.place == Acting(c.allow && OutboundDisabled(q))
    ensures
      var m := Alone(reserved, false, n, c, 4);
      Promised(q, false, EndingOf(m)) && EndsAs(s, m, q, n, EndingOf(m))
  {
    hide Alone, Spend, Promised, EndsAs;
    OneMove(reserved, false, n, c, 4);
    var m := Advance(reserved, false, n, c);
    ActsAsPromised(c, q);
    if m.call.place.Preparing? {
      FromPreparing(s, reserved, n, m.call, q);
    } else if m.call.place.Finalizing? {
      FromFinalizing(s, reserved, n, m.call, q);
    } else {
      ThrowsUnrecorded(s, reserved, n, m.call, q);
    }
  }

  /** What the act leads to, when it is not to send, is what is promised. */
  lemma ActsAsPromised(c: Call, q: Request)
    requires c.request == q && c.allow == Decision(q) && c.place == Acting(c.allow && OutboundDisabled(q))
    ensures
      match ActOn(c, c.place.stopped)
      case Finalizing(state, allowed) => Promised(q, false, Ending(Some(state), Some(allowed)))
      case Preparing => c.allow && !OutboundDisabled(q) && !Cooperative(q) && q.mode.Dispatch?
      case Threw => Promised(q, false, Ending(None, None))
      case _ => false
  {}

  lemma {:induction false} FromFinalizing(s: Store, reserved: Store, n: nat, c: Call, q: Request)
    requires reserved == WithReserved(s, q.id, q.ids, q.verdict.Allows?, !Cooperative(q), n)
    requires c.request == q && c.place.Finalizing?
    ensures
      var m := Alone(reserved, false, n, c, 3);
      EndsAs(s, m, q, n, Ending(Some(c.place.state), Some(c.place.allowed))) && EndingOf(m) == Ending(Some(c.place.state), Some(c.place.allowed))
  {
    hide Alone, Spend;
    OneMove(reserved, false, n, c, 3);
  }

  lemma {:induction false} ThrowsUnrecorded(s: Store, reserved: Store, n: nat, c: Call, q: Request)
    requires reserved == WithReserved(s, q.id, q.ids, q.verdict.Allows?, !Cooperative(q), n)
    requires c.request == q && c.place.Threw?
    ensures EndsAs(s, Moved(reserved, c), q, n, Ending(None, None)) && EndingOf(Moved(reserved, c)) == Ending(None, None)
  {
    hide Spend;
  }

  lemma {:induction false} FromPreparing(s: Store, reserved: Store, n: nat, c: Call, q: Request)
    requires reserved == WithReserved(s, q.id, q.ids, q.verdict.Allows?, !Cooperative(q), n)
    requires c.request == q && c.allow && c.allow == Decision(q) && c.place.Preparing?
    requires !OutboundDisabled(q) && !Cooperative(q) && q.mode.Dispatch?
    ensures
      var m := Alone(reserved, false, n, c, 3);
      Promised(q, false, EndingOf(m)) && EndsAs(s, m, q, n, EndingOf(m))
  {
    hide Alone, Spend, Taken;
    OneMove(reserved, false, n, c, 3);
    var m2 := Advance(reserved, false, n, c);
    if m2.call.place.AtSend? {
      OneMove(m2.store, false, n, m2.call, 2);
      var m3 := Advance(m2.store, false, n, m2.call);
      OneMove(m3.store, false, n, m3.call, 1);
    }
  }

  /** What the ending says of the charge. */
  lemma {:induction false} ChargedAs(s: Store, m: Moved, stopped: bool, n: nat, q: Request)
    requires Spent(s.all, q.id) == 0 && Promised(q, stopped, EndingOf(m)) && EndsAs(s, m, q, n, EndingOf(m))
    ensures
      Charge(m.store, q.id) ==
        match EndingOf(m).recorded
        case Some(state) => if state in {Executed, ObservedAfter, OutcomeUnknown} then 1 else 0
        case None => if q.verdict == Allows then 1 else 0
  {
    hide Spent;
    if EndingOf(m).recorded.Some? {
      SpentWithOneMore(s.all, Receipt(q.id, EndingOf(m).recorded.value, false), q.id);
    } else {
      assert m.store.all == s.all;
    }
  }

  // ── The stop while a call runs ──

  /** Between its reservation and the act a call reads the stop three times, whatever else happens to the store in
      between: a denial is overridden only while it is off, the boundary is asked only while it is off, and the call
      goes ahead only when it is off the third time. */
  lemma WhatTheStopsDecide(
    s1: Store, s2: Store, s3: Store, s4: Store, n: nat, q: Request, atOverride: bool, atGuard: bool, atEnd: bool, later: bool)
    ensures
      var overridden := Advance(s1, atOverride, n, Call(q, Overriding, q.verdict == Allows, false, false));
      var guarded := Advance(s2, atGuard, n, overridden.call);
      var decided := Advance(s3, atEnd, n, guarded.call);
      var last := Advance(s4, later, n, decided.call);
      var willing := q.verdict == Allows || (q.verdict == Denies && q.overrides && !q.observedAfter && !atOverride);
      var asked := willing && q.guard != Absent && !atGuard;
      var goes := willing && (asked ==> q.guard == Passes) && !atEnd && (q.mode == Dispatch ==> q.outbound);
      && overridden.store == s1 && guarded.store == s2 && decided.store == s3 && last.store == s4
      && (last.call.consulted <==> asked)
      && last.call.place ==
           if !goes then Finalizing(if q.observedAfter then ObservedAfter else Denied, false)
           else if q.checkOnly || q.observedAfter then Finalizing(CooperativeAllow, true)
           else match q.mode
             case Dispatch => Preparing
             case Simulation => if q.sending == Sent then Finalizing(Simulated, true) else Threw
  {}

  /** A call that is over stays as it is, whatever happens: its answer is given once. */
  lemma {:induction false} OverStays(w: World, events: seq<Event>, n: nat)
    requires n in w.calls && Over(w.calls[n].place)
    ensures n in Run(w, events).calls && Run(w, events).calls[n] == w.calls[n]
    decreases events
  {
    if events != [] {
      OverStaysOnce(w, events[0], n);
      OverStays(Apply(w, events[0]), events[1..], n);
    }
  }

  lemma OverStaysOnce(w: World, e: Event, n: nat)
    requires n in w.calls && Over(w.calls[n].place)
    ensures n in Apply(w, e).calls && Apply(w, e).calls[n] == w.calls[n]
  {}
}
