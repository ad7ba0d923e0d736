/** When an action gets past a boundary that would refuse it. */
module ActionBoundary {
  import opened Foundations
  import opened ActionLifecycle
  import opened ActionRuns
  import opened ActionGuarantees
  import opened ActionUnstarted

  /** The call has been asked to pass the boundary, or was let past it because of a stop. */
  predicate PastBoundary(p: Place) {
    p.Stopping? || p.Acting? || p.Preparing? || p.AtSend? || p.Finalizing? || p.Answered? || p.Threw? || p.Gone?
  }

  /** Call `n` owns the action of its request and is past the boundary, let past it unasked only if `skipped`. */
  predicate Past(w: World, n: nat, q: Request, skipped: bool) {
    && n in w.calls && w.calls[n].request == q && PastBoundary(w.calls[n].place) && (w.calls[n].skipped ==> skipped)
    && q.id in w.store.authority && w.store.authority[q.id].owner == n
  }

  lemma PastStep(s: Store, stopped: bool, n: nat, c: Call)
    requires PastBoundary(c.place)
    ensures
      var m := Advance(s, stopped, n, c);
      PastBoundary(m.call.place) && m.call.skipped == c.skipped && m.call.request == c.request
  {}

  lemma StepKeepsOwners(s: Store, stopped: bool, n: nat, c: Call, id: string)
    requires id in s.authority
    ensures
      var s' := Advance(s, stopped, n, c).store;
      id in s'.authority && s'.authority[id].owner == s.authority[id].owner
  {
    hide Spend, RetryAnswer, ActOn;
  }

  lemma PastApply(w: World, e: Event, n: nat, q: Request, skipped: bool)
    requires Past(w, n, q, skipped)
    ensures Past(Apply(w, e), n, q, skipped)
  {
    hide Advance;
    if e.Step? && e.call in w.calls {
      StepKeepsOwners(w.store, w.stopped, e.call, w.calls[e.call], q.id);
      if e.call == n {
        PastStep(w.store, w.stopped, n, w.calls[n]);
      }
    }
  }

  lemma {:induction false} PastRun(w: World, events: seq<Event>, n: nat, q: Request, skipped: bool)
    requires Past(w, n, q, skipped)
    ensures Past(Run(w, events), n, q, skipped)
    decreases events
  {
    if events != [] {
      PastApply(w, events[0], n, q, skipped);
      PastRun(Apply(w, events[0]), events[1..], n, q, skipped);
    }
  }

  /** The call stands at a boundary that would refuse its action. */
  predicate AtRefusal(w: World, n: nat) {
    n in w.calls && w.calls[n].place.Guarding? && w.calls[n].request.guard.Refuses?
  }

  /** The stop switch is on at that moment, and apart from the boundary the action could be sent. */
  predicate SlipsThrough(w: World, n: nat)
    requires n in w.calls
  {
    var c := w.calls[n];
    w.stopped && c.allow && MaySend(c.request) && Dispatchable(w.store, c.request.id)
  }

  /** The stop is lifted and the call goes on. */
  function GoesOn(n: nat): seq<Event> {
    [SetStopped(false)] + ([Step(n)] + ([Step(n)] + ([Step(n)] + [Step(n)])))
  }

  lemma {:induction false} SlippingIsSent(w: World, n: nat)
    requires AtRefusal(w, n) && SlipsThrough(w, n)
    ensures w.calls[n].request.id in Run(Apply(w, Step(n)), GoesOn(n)).sent
  {
    var c := w.calls[n];
    var c1 := c.(place := Stopping, skipped := true);
    var w1 := w.(calls := w.calls[n := c1]);
    var w2 := w1.(stopped := false);
    var w3 := w2.(calls := w.calls[n := c1.(place := Acting(false))]);
    var w4 := w2.(calls := w.calls[n := c1.(place := Preparing)]);
    var w5 := w2.(store := WithDispatching(w.store, c.request.id, c.request.adapter), calls := w.calls[n := c1.(place := AtSend)]);
    OneStep(w5, Step(n), [], Stepped(w5, n));
    OneStep(w4, Step(n), [Step(n)], w5);
    OneStep(w3, Step(n), [Step(n)] + [Step(n)], w4);
    OneStep(w2, Step(n), [Step(n)] + ([Step(n)] + [Step(n)]), w3);
    OneStep(w1, SetStopped(false), [Step(n)] + ([Step(n)] + ([Step(n)] + [Step(n)])), w2);
  }

  /** In every run a call at a boundary that would refuse it is sent in some continuation exactly when the stop
      switch is on as it takes its next step and it could otherwise be sent: a stop is the only way past. */
  lemma {:induction false} RefusedIsSentExactlyWhenStopped(events: seq<Event>, n: nat)
    requires AtRefusal(Run(START, events), n)
    ensures
      var w := Run(START, events);
      (exists more :: w.calls[n].request.id in Run(Apply(w, Step(n)), more).sent) <==> SlipsThrough(w, n)
  {
    var w := Run(START, events);
    if SlipsThrough(w, n) {
      SlippingIsSent(w, n);
    } else {
      forall more ensures w.calls[n].request.id !in Run(Apply(w, Step(n)), more).sent {
        NotSlippingIsUnsent(events, n, more);
      }
    }
  }

  /** A call past the boundary that may not send, or was not let past it unasked, never sends. */
  lemma {:induction false} PastIsUnsent(events: seq<Event>, n: nat, q: Request, skipped: bool, more: seq<Event>)
    requires Past(Run(START, events), n, q, skipped) && q.guard.Refuses? && !(skipped && MaySend(q))
    ensures q.id !in Run(Run(START, events), more).sent
  {
    PastRun(Run(START, events), more, n, q, skipped);
    RunConcat(START, events, more);
    SentAtMostOnce(events + more, q.id);
  }

  lemma {:induction false} NotSlippingIsUnsent(events: seq<Event>, n: nat, more: seq<Event>)
    requires AtRefusal(Run(START, events), n) && !SlipsThrough(Run(START, events), n)
    ensures
      var w := Run(START, events);
      w.calls[n].request.id !in Run(Apply(w, Step(n)), more).sent
  {
    var w := Run(START, events);
    var q := w.calls[n].request;
    RunKeepsInv(START, events);
    CallIsHere(w, n);
    LastStep(events, Step(n));
    if Dispatchable(w.store, q.id) {
      PastIsUnsent(events + [Step(n)], n, q, w.stopped && w.calls[n].allow, more);
    } else {
      NotReservedIsUnsent(w, n);
      ApplyKeepsInv(w, Step(n));
      UnsentForever(Apply(w, Step(n)), q.id, more);
    }
  }

  lemma NotReservedIsUnsent(w: World, n: nat)
    requires Inv(w) && AtRefusal(w, n) && !Dispatchable(w.store, w.calls[n].request.id)
    ensures Unsent(Apply(w, Step(n)), w.calls[n].request.id)
  {
    var id := w.calls[n].request.id;
    CallIsHere(w, n);
    forall m | m in w.calls && w.calls[m].request.id == id ensures !w.calls[m].place.AtSend? {
      CallIsHere(w, m);
    }
    assert NoneAtSend(w.calls, id);
    UnsentStep(w, n, id);
  }
}
