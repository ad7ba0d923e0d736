/** When a reconciliation may call an action unstarted. */
module ActionUnstarted {
  import opened Foundations
  import opened ActionLifecycle
  import opened ActionRuns

  /** The action was not sent and no step can send it any more. */
  ghost predicate Unsent(w: World, id: string) {
    && id in w.store.authority && !w.store.authority[id].state.Reserved? && id !in w.sent
    && NoneAtSend(w.calls, id)
  }

  ghost predicate NoneAtSend(calls: map<nat, Call>, id: string) {
    forall n :: n in calls && calls[n].request.id == id ==> !calls[n].place.AtSend?
  }

  lemma UnsentCallStaysSo(s: Store, stopped: bool, n: nat, c: Call)
    requires c.request.id in s.authority && !s.authority[c.request.id].state.Reserved? && !c.place.AtSend?
    requires c.place.Finalizing? ==> !c.place.state.Reserved?
    ensures
      var m := Advance(s, stopped, n, c);
      && !m.call.place.AtSend? && m.call.request == c.request
      && c.request.id in m.store.authority && !m.store.authority[c.request.id].state.Reserved?
  {}

  lemma UnsentStep(w: World, n: nat, id: string)
    requires Unsent(w, id) && Here(w, n)
    ensures Unsent(Stepped(w, n), id)
  {
    SteppedTouches(w, n);
    if w.calls[n].request.id == id {
      UnsentCallStaysSo(w.store, w.stopped, n, w.calls[n]);
    }
    assert NoneAtSend(Stepped(w, n).calls, id);
  }

  lemma UnsentSettle(w: World, r: nat, id: string)
    requires Unsent(w, id) && r in w.reconciling && ReconcilingOk(w, w.reconciling[r])
    ensures Unsent(Settled(w, r), id)
  {}

  lemma UnsentBegin(w: World, n: nat, q: Request, id: string)
    requires Unsent(w, id)
    ensures Unsent(Apply(w, Begin(n, q)), id)
  {
    assert NoneAtSend(w.calls[n := Begun(q)], id);
  }

  lemma UnsentCrash(w: World, n: nat, id: string)
    requires Unsent(w, id)
    ensures Unsent(Apply(w, Crash(n)), id)
  {
    if n in w.calls {
      assert NoneAtSend(w.calls[n := w.calls[n].(place := Gone)], id);
    }
  }

  lemma UnsentApply(w: World, e: Event, id: string)
    requires Inv(w) && Unsent(w, id)
    ensures Unsent(Apply(w, e), id)
  {
    match e
    case Step(n) =>
      if n in w.calls {
        CallIsHere(w, n);
        UnsentStep(w, n, id);
      }
    case Settle(r) =>
      if r in w.reconciling {
        UnsentSettle(w, r, id);
      }
    case Begin(n, q) => UnsentBegin(w, n, q, id);
    case Crash(n) => UnsentCrash(w, n, id);
    case SetStopped(_) =>
    case Read(_, _, _) =>
    case Drop(_) =>
  }

  lemma {:induction false} UnsentForever(w: World, id: string, events: seq<Event>)
    requires Inv(w) && Unsent(w, id)
    ensures id !in Run(w, events).sent
    decreases events
  {
    if events != [] {
      UnsentApply(w, events[0], id);
      ApplyKeepsInv(w, events[0]);
      UnsentForever(Apply(w, events[0]), id, events[1..]);
    }
  }

  lemma {:induction false} SentNext(w: World, n: nat)
    requires n in w.calls && w.calls[n].place.AtSend?
    ensures w.calls[n].request.id in Run(w, [Step(n)]).sent
  {
    OneStep(w, Step(n), [], Stepped(w, n));
  }

  lemma UnsentAsItSettles(w: World, r: nat)
    requires Inv(w) && r in w.reconciling && w.reconciling[r].receipt.notStarted
    requires w.reconciling[r].id !in w.sent && NoneAtSend(w.calls, w.reconciling[r].id)
    ensures Unsent(Apply(w, Settle(r)), w.reconciling[r].id)
  {
    assert ReconcilingOk(w, w.reconciling[r]);
  }

  lemma {:induction false} UnsentFromHere(w: World, r: nat)
    requires Inv(w) && r in w.reconciling && w.reconciling[r].receipt.notStarted && w.reconciling[r].id !in w.sent
    requires NoneAtSend(w.calls, w.reconciling[r].id)
    ensures forall more :: w.reconciling[r].id !in Run(Apply(w, Settle(r)), more).sent
  {
    hide Run, Apply, Inv, Unsent, NoneAtSend;
    var w' := Apply(w, Settle(r));
    SettleKeepsInv(w, r);
    UnsentAsItSettles(w, r);
    forall more ensures w.reconciling[r].id !in Run(w', more).sent {
      UnsentForever(w', w.reconciling[r].id, more);
    }
  }

  // ── What the store can tell ──

  /** Reconciliation `r` finalizes its action as unstarted. */
  predicate CallsItUnstarted(w: World, r: nat) {
    r in w.reconciling && w.reconciling[r].receipt.notStarted
  }

  /** Once it has settled the action has not been sent, and never is. */
  ghost predicate NeverSent(w: World, r: nat)
    requires r in w.reconciling
  {
    forall more :: w.reconciling[r].id !in Run(Apply(w, Settle(r)), more).sent
  }

  /** The record of the action names no adapter: it was never prepared. */
  predicate Unprepared(s: Store, id: string) {
    id in s.authority ==> s.authority[id].adapter.None?
  }

  lemma UnpreparedIsUnsent(w: World, id: string)
    requires Inv(w) && id in w.store.authority && Unprepared(w.store, id)
    ensures id !in w.sent && NoneAtSend(w.calls, id)
  {
    assert RecordOk(w, id);
    forall n | n in w.calls && w.calls[n].request.id == id ensures !w.calls[n].place.AtSend? {
      assert CallOk(w, n);
    }
  }

  lemma UnpreparedIsNeverSent(w: World, r: nat)
    requires Inv(w) && CallsItUnstarted(w, r) && Unprepared(w.store, w.reconciling[r].id)
    ensures NeverSent(w, r)
  {
    assert ReconcilingOk(w, w.reconciling[r]);
    UnpreparedIsUnsent(w, w.reconciling[r].id);
    UnsentFromHere(w, r);
  }

  /** An action that names an adapter was sent, is about to be, or its call stopped in between. */
  lemma PreparedMeans(w: World, id: string)
    requires Inv(w) && id in w.store.authority && w.store.authority[id].adapter.Some?
    ensures
      var n := w.store.authority[id].owner;
      n in w.calls && w.calls[n].request.id == id && (id in w.sent || w.calls[n].place.AtSend? || w.calls[n].place.Gone?)
  {
    assert RecordOk(w, id);
  }

  // ── A call that stopped between preparing and sending leaves the same store as one that goes on ──

  /** The world in which call `n` has not stopped but is about to send. */
  function Revived(w: World, n: nat): World
    requires n in w.calls
  {
    w.(calls := w.calls[n := w.calls[n].(place := AtSend)])
  }

  predicate StoppedBeforeSending(w: World, n: nat) {
    && n in w.calls && w.calls[n].place.Gone? && w.calls[n].request.id !in w.sent
    && w.calls[n].request.id in w.store.authority
    && var r := w.store.authority[w.calls[n].request.id]; r.owner == n && r.adapter.Some?
  }

  lemma ReviveThenStep(w: World, n: nat, m: nat)
    requires n in w.calls && m in w.calls && m != n
    ensures Stepped(Revived(w, n), m) == Revived(Stepped(w, m), n)
  {
    hide Advance;
    assert Stepped(Revived(w, n), m).calls == Revived(Stepped(w, m), n).calls;
  }

  lemma ReviveThenApply(w: World, n: nat, e: Event)
    requires n in w.calls && w.calls[n].place.Gone? && e != Step(n) && e != Crash(n)
    ensures n in Apply(w, e).calls && Apply(Revived(w, n), e) == Revived(Apply(w, e), n)
  {
    hide Stepped, Resolution, Settled;
    if e.Step? && e.call in w.calls {
      ReviveThenStep(w, n, e.call);
      SteppedTouches(w, e.call);
    } else if e.Settle? {
      ReviveThenSettle(w, n, e.reconciliation);
    } else {
      assert Apply(Revived(w, n), e).calls == Revived(Apply(w, e), n).calls;
    }
  }

  lemma ReviveThenSettle(w: World, n: nat, r: nat)
    requires n in w.calls
    ensures n in Apply(w, Settle(r)).calls && Apply(Revived(w, n), Settle(r)) == Revived(Apply(w, Settle(r)), n)
  {}

  lemma GoneStays(w: World, n: nat, e: Event)
    requires n in w.calls && w.calls[n].place.Gone? && (e == Step(n) || e == Crash(n))
    ensures Apply(w, e) == w
  {
    assert w.calls[n := w.calls[n]] == w.calls;
  }

  lemma NoStepGoes(s: Store, stopped: bool, n: nat, c: Call)
    requires !c.place.Gone?
    ensures !Advance(s, stopped, n, c).call.place.Gone?
  {}

  /** Only a call that is preparing its own action names an adapter. */
  lemma WhereAdaptersComeFrom(s: Store, stopped: bool, n: nat, c: Call, id: string)
    requires
      var s' := Advance(s, stopped, n, c).store;
      id in s'.authority && s'.authority[id].adapter.Some?
    ensures
      var m := Advance(s, stopped, n, c);
      && id in s.authority && s.authority[id].owner == m.store.authority[id].owner
      && (s.authority[id].adapter.Some? || (c.place.Preparing? && c.request.id == id && m.call.place.AtSend?))
  {
    hide Spend, RetryAnswer, ActOn;
  }

  lemma StepLeavesStopped(w: World, m: nat, n: nat)
    requires Here(w, m) && StoppedBeforeSending(Stepped(w, m), n)
    ensures StoppedBeforeSending(w, n)
  {
    hide Advance, RecordOk, PathOk, RepeatOk;
    SteppedTouches(w, m);
    WhereAdaptersComeFrom(w.store, w.stopped, m, w.calls[m], Stepped(w, m).calls[n].request.id);
    if !w.calls[m].place.Gone? {
      NoStepGoes(w.store, w.stopped, m, w.calls[m]);
    }
  }

  lemma CrashStops(w: World, n: nat)
    requires Here(w, n) && StoppedBeforeSending(Apply(w, Crash(n)), n)
    ensures StoppedBeforeSending(w, n) || w == Revived(Apply(w, Crash(n)), n)
  {
    hide RecordShape, PathOk, RepeatOk, ReconciledUnstarted;
    if w.calls[n].place.AtSend? {
      assert Revived(Apply(w, Crash(n)), n).calls == w.calls;
    }
  }

  lemma SettleLeavesStopped(w: World, r: nat, n: nat)
    requires StoppedBeforeSending(Apply(w, Settle(r)), n)
    ensures StoppedBeforeSending(w, n)
  {}

  /** If an event leaves a call stopped before sending, either it had stopped before or that is the event. */
  lemma WhereItStopped(w: World, e: Event, n: nat)
    requires Inv(w) && StoppedBeforeSending(Apply(w, e), n)
    ensures StoppedBeforeSending(w, n) || (e == Crash(n) && n in w.calls && w == Revived(Apply(w, e), n))
  {
    match e
    case Step(m) =>
      if m in w.calls {
        CallIsHere(w, m);
        StepLeavesStopped(w, m, n);
      }
    case Crash(m) =>
      if m == n {
        CallIsHere(w, n);
        CrashStops(w, n);
      }
    case Settle(r) => SettleLeavesStopped(w, r, n);
    case Begin(_, _) =>
    case SetStopped(_) =>
    case Read(_, _, _) =>
    case Drop(_) =>
  }

  /** Some run reaches the same world with the call about to send. */
  lemma {:induction false} CanBeRevived(events: seq<Event>, n: nat) returns (other: seq<Event>)
    requires StoppedBeforeSending(Run(START, events), n)
    ensures Run(START, other) == Revived(Run(START, events), n)
    decreases |events|
  {
    if events != [] {
      var before, e := events[..|events| - 1], events[|events| - 1];
      var w := Run(START, before);
      LastStep(before, e);
      assert events == before + [e];
      RunKeepsInv(START, before);
      WhereItStopped(w, e, n);
      if !StoppedBeforeSending(w, n) {
        other := before;
      } else {
        other := CanBeRevived(before, n);
        if e == Step(n) || e == Crash(n) {
          GoneStays(w, n, e);
        } else {
          ReviveThenApply(w, n, e);
          LastStep(other, e);
          other := other + [e];
        }
      }
    }
  }

  lemma {:induction false} LastStep(events: seq<Event>, e: Event)
    ensures Run(START, events + [e]) == Apply(Run(START, events), e)
  {
    RunConcat(START, events, [e]);
    OneStep(Run(START, events), e, [], Apply(Run(START, events), e));
  }

  /** The run leaves the same store and the same reconciliations. */
  predicate LooksLike(events: seq<Event>, w: World) {
    Run(START, events).store == w.store && Run(START, events).reconciling == w.reconciling
  }

  /** In another run with the same store and reconciliations, settling is followed by sending. */
  ghost predicate CouldBeSent(events: seq<Event>, r: nat, w: World) {
    LooksLike(events, w) && r in w.reconciling && !NeverSent(Run(START, events), r)
  }

  /** Where the calls stand decides it exactly: the action was or can still be sent when it had been sent, or its
      call stood between preparing and sending, as it settled. */
  lemma {:induction false} SentAroundSettlingExactlyWhen(events: seq<Event>, r: nat)
    requires r in Run(START, events).reconciling && Run(START, events).reconciling[r].receipt.notStarted
    ensures
      var w := Run(START, events);
      var id := w.reconciling[r].id;
      (exists more :: id in Run(Apply(w, Settle(r)), more).sent)
      <==>
      id in w.sent || exists n :: n in w.calls && w.calls[n].request.id == id && w.calls[n].place.AtSend?
  {
    RunKeepsInv(START, events);
    var w := Run(START, events);
    var id := w.reconciling[r].id;
    if id in w.sent {
      assert id in Run(Apply(w, Settle(r)), []).sent;
    } else if n :| n in w.calls && w.calls[n].request.id == id && w.calls[n].place.AtSend? {
      SentNext(Apply(w, Settle(r)), n);
      assert id in Run(Apply(w, Settle(r)), [Step(n)]).sent;
    } else {
      UnsentFromHere(w, r);
    }
  }

  lemma {:induction false} PreparedCouldBeSent(events: seq<Event>, r: nat) returns (other: seq<Event>)
    requires CallsItUnstarted(Run(START, events), r)
    requires !Unprepared(Run(START, events).store, Run(START, events).reconciling[r].id)
    ensures CouldBeSent(other, r, Run(START, events))
  {
    var w := Run(START, events);
    var id := w.reconciling[r].id;
    RunKeepsInv(START, events);
    PreparedMeans(w, id);
    var n := w.store.authority[id].owner;
    if id !in w.sent && w.calls[n].place.Gone? {
      other := CanBeRevived(events, n);
      assert Run(START, other).calls[n].place.AtSend?;
    } else {
      other := events;
    }
    SentAroundSettlingExactlyWhen(other, r);
  }

  /** As a reconciliation settles that calls its action unstarted, the record's adapter is what tells whether
      that is safe. With none the action has not been sent and never will be; with one, there is a run the
      store cannot tell from this one in which it was or will be sent. Finalizing does not look at it. */
  lemma {:induction false} UnstartedIsWrongExactlyWhen(events: seq<Event>, r: nat)
    requires CallsItUnstarted(Run(START, events), r)
    ensures
      var w := Run(START, events);
      (exists other :: CouldBeSent(other, r, w)) <==> !Unprepared(w.store, w.reconciling[r].id)
  {
    var w := Run(START, events);
    if !Unprepared(w.store, w.reconciling[r].id) {
      var other := PreparedCouldBeSent(events, r);
    }
    if other :| CouldBeSent(other, r, w) {
      RunKeepsInv(START, other);
      if Unprepared(w.store, w.reconciling[r].id) {
        UnpreparedIsNeverSent(Run(START, other), r);
      }
    }
  }
}
