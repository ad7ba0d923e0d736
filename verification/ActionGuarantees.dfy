/** What the action lifecycle guarantees over every run, and where it does not. */
module ActionGuarantees {
  import opened Foundations
  import opened ActionLifecycle
  import opened ActionRuns

  /** In every run a dispatch executor runs at most once for an action id, and only for a call whose policy
      verdict was a plain allow (no override gets there), with outbound execution on, and whose boundary let it
      through or was passed over because a stop was in force at that moment. */
  lemma {:induction false} SentAtMostOnce(events: seq<Event>, id: string)
    ensures
      var w := Run(START, events);
      && w.sent[id] <= 1
      && (id in w.sent ==>
            && id in w.store.authority && w.store.authority[id].adapter.Some?
            && w.store.authority[id].owner in w.calls
            && var owner := w.calls[w.store.authority[id].owner];
               && owner.request.id == id && owner.request.verdict.Allows? && MaySend(owner.request)
               && BoundaryPassed(owner))
  {
    RunKeepsInv(START, events);
    var w := Run(START, events);
    if id in w.store.authority {
      assert RecordOk(w, id);
    }
  }

  // ── Repeats ──

  /** In every run a repeat answers what the call that handled the action answered, unless a reconciliation
      called the action unstarted; then it may let through what that call refused. */
  lemma {:induction false} RepeatsAgree(events: seq<Event>, n: nat, m: nat)
    requires
      var w := Run(START, events);
      && m in w.calls && w.calls[m].place.Repeated?
      && n in w.calls && w.calls[n].place.Answered? && w.calls[n].request.id == w.calls[m].request.id
    ensures
      var w := Run(START, events);
      var first, again := w.calls[n].place.allowed, w.calls[m].place.allowed;
      again == first || (again && !first && ReconciledUnstarted(w.store.all, w.calls[n].request.id))
  {
    RunKeepsInv(START, events);
    var w := Run(START, events);
    assert CallOk(w, m) && CallOk(w, n);
  }

  /** What a repeat would be told now agrees exactly when the action was let through or its terminal receipt
      does not call it unstarted. */
  lemma {:induction false} RepeatNowAgreesExactlyWhen(events: seq<Event>, n: nat)
    requires
      var w := Run(START, events);
      && n in w.calls && w.calls[n].place.Answered?
      && w.calls[n].request.id in w.store.authority && w.store.authority[w.calls[n].request.id].terminal.Some?
    ensures
      var w := Run(START, events);
      var id, allowed := w.calls[n].request.id, w.calls[n].place.allowed;
      RetryAnswer(w.store, id) == Some(allowed) <==> allowed || !w.store.authority[id].terminal.value.notStarted
  {
    RunKeepsInv(START, events);
    var w := Run(START, events);
    assert CallOk(w, n);
    assert RecordOk(w, w.calls[n].request.id);
  }

  // ── Authorization ids ──

  /** Every authorization id of an action is spent on that action. */
  ghost predicate IdsSpent(s: Store) {
    forall a, i :: a in s.authority && i in s.authority[a].ids && i != "" ==> i in s.consumed && s.consumed[i] == a
  }

  lemma {:induction false} SpendGives(consumed: map<string, string>, ids: seq<string>, id: string, i: string)
    ensures
      var after := Spend(consumed, ids, id);
      if i in ids && i != "" then i in after && after[i] == id
      else (i in after <==> i in consumed) && (i in consumed ==> after[i] == consumed[i])
    decreases |ids|
  {
    if ids != [] {
      SpendGives(if ids[0] == "" then consumed else consumed[ids[0] := id], ids[1..], id, i);
    }
  }

  lemma ReserveSpendsIds(s: Store, id: string, ids: seq<string>, permitted: bool, charged: bool, n: nat)
    requires IdsSpent(s) && !Taken(s, id, ids)
    ensures IdsSpent(WithReserved(s, id, ids, permitted, charged, n))
  {
    var s' := WithReserved(s, id, ids, permitted, charged, n);
    forall a, i | a in s'.authority && i in s'.authority[a].ids && i != "" ensures i in s'.consumed && s'.consumed[i] == a {
      SpendGives(s.consumed, ids, id, i);
    }
  }

  lemma OthersKeepIds(s: Store, stopped: bool, n: nat, c: Call)
    requires c.place.Reserving? || c.place.ReservingStopped? ==> Taken(s, c.request.id, c.request.ids)
    ensures
      var s' := Advance(s, stopped, n, c).store;
      s'.consumed == s.consumed && forall a :: a in s'.authority ==> a in s.authority && s'.authority[a].ids == s.authority[a].ids
  {}

  lemma AdvanceKeepsIds(s: Store, stopped: bool, n: nat, c: Call)
    requires IdsSpent(s)
    ensures IdsSpent(Advance(s, stopped, n, c).store)
  {
    var q := c.request;
    if (c.place.Reserving? || c.place.ReservingStopped?) && !Taken(s, q.id, q.ids) {
      ReserveSpendsIds(s, q.id, q.ids, c.place.Reserving? && q.verdict.Allows?, !Cooperative(q), n);
    } else {
      OthersKeepIds(s, stopped, n, c);
    }
  }

  lemma {:induction false} RunKeepsIds(w: World, events: seq<Event>)
    requires IdsSpent(w.store)
    ensures IdsSpent(Run(w, events).store)
    decreases events
  {
    if events != [] {
      var e := events[0];
      if e.Step? && e.call in w.calls {
        AdvanceKeepsIds(w.store, w.stopped, e.call, w.calls[e.call]);
      }
      RunKeepsIds(Apply(w, e), events[1..]);
    }
  }

  /** In every run a request or approval id is used by at most one action. */
  lemma {:induction false} EachAuthorizationUsedOnce(events: seq<Event>, a: string, b: string, i: string)
    requires
      var s := Run(START, events).store;
      a in s.authority && b in s.authority && i in s.authority[a].ids && i in s.authority[b].ids && i != ""
    ensures a == b
  {
    RunKeepsIds(START, events);
    var s := Run(START, events).store;
    assert s.consumed[i] == a && s.consumed[i] == b;
  }
}
