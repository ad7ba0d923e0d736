/** Any number of calls, retries, crashes and reconciliations over one receipt store, and what holds of every
    such run. */
module ActionRuns {
  import opened Foundations
  import opened ActionLifecycle

  /** A reconciliation that has read an action's record and will finalize it. */
  datatype Reconciling = Reconciling(id: string, read: State, receipt: Receipt)

  /** `sent` counts, for each action id, how often a dispatch executor was run for it. */
  datatype World = World(
    store: Store, stopped: bool, calls: map<nat, Call>, reconciling: map<nat, Reconciling>, sent: multiset<string>)

  datatype Event =
    | Begin(call: nat, request: Request)
    | Step(call: nat)
    | Crash(call: nat)
    | SetStopped(stopped: bool)
    | Read(reconciliation: nat, id: string, query: Query)
    | Settle(reconciliation: nat)
    | Drop(reconciliation: nat)

  function Stepped(w: World, n: nat): World
    requires n in w.calls
  {
    var c := w.calls[n];
    var m := Advance(w.store, w.stopped, n, c);
    w.(store := m.store, calls := w.calls[n := m.call], sent := if c.place.AtSend? then w.sent + multiset{c.request.id} else w.sent)
  }

  /** What `reconcileAction` decides from the record it reads; the query answers nothing when none can be made. */
  function Resolution(s: Store, id: string, query: Query): Option<Reconciling> {
    if id !in s.authority || !Held(s.authority[id].state) then None
    else
      var state := s.authority[id].state;
      if state.Reserved? then Some(Reconciling(id, state, Receipt(id, Failed, true)))
      else match query
        case SaysNothing => None
        case SaysExecuted => Some(Reconciling(id, state, Receipt(id, Executed, false)))
        case SaysFailed => Some(Reconciling(id, state, Receipt(id, Failed, false)))
  }

  function Settled(w: World, r: nat): World
    requires r in w.reconciling
  {
    var x := w.reconciling[r];
    w.(store := if x.id in w.store.authority then WithFinal(w.store, x.id, x.receipt) else w.store,
       reconciling := w.reconciling - {r})
  }

  function Apply(w: World, e: Event): World {
    match e
    case Begin(n, q) => if n in w.calls then w else w.(calls := w.calls[n := Begun(q)])
    case Step(n) => if n in w.calls then Stepped(w, n) else w
    case Crash(n) => if n in w.calls && !Over(w.calls[n].place) then w.(calls := w.calls[n := w.calls[n].(place := Gone)]) else w
    case SetStopped(stopped) => w.(stopped := stopped)
    case Read(r, id, query) =>
      var found := Resolution(w.store, id, query);
      if r in w.reconciling || found.None? then w else w.(reconciling := w.reconciling[r := found.value])
    case Settle(r) => if r in w.reconciling then Settled(w, r) else w
    case Drop(r) => w.(reconciling := w.reconciling - {r})
  }

  function Run(w: World, events: seq<Event>): World
    decreases events
  {
    if events == [] then w else Run(Apply(w, events[0]), events[1..])
  }

  const START := World(EMPTY_STORE, false, map[], map[], multiset{})

  lemma {:induction false} RunConcat(w: World, a: seq<Event>, b: seq<Event>)
    ensures Run(w, a + b) == Run(Run(w, a), b)
    decreases a
  {
    if a == [] {
      assert a + b == b;
    } else {
      assert (a + b)[0] == a[0] && (a + b)[1..] == a[1..] + b;
      RunConcat(Apply(w, a[0]), a[1..], b);
    }
  }

  lemma {:induction false} OneStep(w: World, e: Event, rest: seq<Event>, next: World)
    requires Apply(w, e) == next
    ensures Run(w, [e] + rest) == Run(next, rest)
    ensures rest == [] ==> Run(w, [e]) == next
  {
    assert ([e] + rest)[1..] == rest;
    assert rest == [] ==> [e] + rest == [e];
  }

  // ── The invariant ──

  /** The call reserved its action and has not yet got to sending it. */
  predicate BeforeSend(p: Place) {
    p.FinalizingStopped? || p.Overriding? || p.Guarding? || p.Stopping? || p.Acting? || p.Preparing?
  }

  /** The call reserved its action and may still write to its record. */
  predicate Owns(p: Place) {
    BeforeSend(p) || p.AtSend? || p.Finalizing?
  }

  /** A place a call can be at once it has reserved its action. */
  predicate Beyond(p: Place) {
    Owns(p) || p.Answered? || p.Threw? || p.Gone?
  }

  /** A call at `p` that reserved its action has answered `allowed`, will, or gives no answer. */
  predicate Agrees(p: Place, allowed: bool) {
    match p
    case AtSend => allowed
    case Finalizing(_, a) => a == allowed
    case Answered(a) => a == allowed
    case Threw => true
    case Gone => true
    case _ => false
  }

  predicate ReconciledUnstarted(all: seq<Receipt>, id: string) {
    exists i | 0 <= i < |all| :: all[i].id == id && all[i].notStarted
  }

  predicate RecordShape(r: Record) {
    && (r.terminal.Some? ==> r.state == r.terminal.value.state && !r.state.Reserved? && !r.state.Dispatching?)
    && (r.terminal.None? ==> r.state == (if !r.permitted then Denied else if r.adapter.Some? then Dispatching else Reserved))
    && (r.terminal.Some? && r.terminal.value.notStarted ==> r.state.Failed?)
    && (r.adapter.Some? ==> r.permitted && r.charged)
    && (r.state.Dispatching? || r.state.OutcomeUnknown? ==> r.adapter.Some?)
    && (r.adapter.Some? ==> r.state in {Dispatching, Executed, Failed, OutcomeUnknown})
  }

  /** How the record of `id` stands to the call that reserved it. */
  predicate OwnerOk(id: string, r: Record, owner: Call) {
    && owner.request.id == id && Beyond(owner.place)
    && r.charged == !Cooperative(owner.request) && (r.permitted ==> owner.request.verdict.Allows?)
    && (r.adapter.Some? ==> owner.request.mode.Dispatch? && !BeforeSend(owner.place))
    && (owner.place.AtSend? ==> r.adapter.Some?)
    && (owner.place.Finalizing? ==>
          owner.place.allowed == Permits(owner.place.state)
          && (if r.adapter.Some? then owner.place.state in {Executed, Failed, OutcomeUnknown}
              else owner.place.state in {CooperativeAllow, Simulated, Denied, ObservedAfter}))
    && (owner.place.Answered? && r.adapter.Some? ==> owner.place.allowed)
    && (r.terminal.Some? && !r.terminal.value.notStarted ==> Agrees(owner.place, Permits(r.state)))
  }

  /** The boundary let the action through, was not there, or was passed over because of a stop. */
  predicate BoundaryPassed(c: Call) {
    c.request.guard.Absent? || (if c.skipped then !c.consulted else c.consulted && c.request.guard.Passes?)
  }

  predicate MaySend(q: Request) {
    q.mode.Dispatch? && q.outbound && !Cooperative(q)
  }

  /** Only a prepared action is sent, and a prepared one has been, is about to be, or lost its call. */
  predicate SentOk(sent: nat, r: Record, owner: Call) {
    && sent <= 1 && (sent > 0 ==> r.adapter.Some? && !owner.place.AtSend? && BoundaryPassed(owner) && MaySend(owner.request))
    && (r.adapter.Some? ==> sent > 0 || owner.place.AtSend? || owner.place.Gone?)
  }

  predicate RecordOk(w: World, id: string)
    requires id in w.store.authority
  {
    var r := w.store.authority[id];
    && RecordShape(r)
    && r.owner in w.calls && OwnerOk(id, r, w.calls[r.owner]) && SentOk(w.sent[id], r, w.calls[r.owner])
    && (r.terminal.Some? && r.terminal.value.notStarted ==> ReconciledUnstarted(w.store.all, id))
  }

  /** Where a call is says what it was allowed and whether the boundary was asked. */
  predicate PathOk(c: Call) {
    && (c.place.Preparing? || c.place.AtSend? ==> c.allow && MaySend(c.request))
    && (c.place.Acting? && c.allow && !c.place.stopped && c.request.mode.Dispatch? ==> c.request.outbound)
    && (c.consulted && c.allow ==> c.request.guard.Passes?)
    && !(c.consulted && c.skipped)
    && ((c.place.Starting? || c.place.Reserving? || c.place.Overriding? || c.place.Guarding?) ==> !c.consulted && !c.skipped)
    && ((c.place.Stopping? || c.place.Acting? || c.place.Preparing? || c.place.AtSend?) && c.allow && !c.request.guard.Absent? ==>
          c.consulted || c.skipped)
  }

  /** A repeat's answer agrees with the owner's, or lets through an action a reconciliation called unstarted. */
  predicate RepeatOk(w: World, id: string, allowed: bool) {
    && id in w.store.authority && w.store.authority[id].owner in w.calls
    && ((allowed && ReconciledUnstarted(w.store.all, id)) || Agrees(w.calls[w.store.authority[id].owner].place, allowed))
  }

  predicate CallOk(w: World, n: nat)
    requires n in w.calls
  {
    var c := w.calls[n];
    && PathOk(c)
    && (Owns(c.place) || c.place.Answered? ==> c.request.id in w.store.authority && w.store.authority[c.request.id].owner == n)
    && (c.place.Repeated? ==> RepeatOk(w, c.request.id, c.place.allowed))
  }

  predicate ReconcilingOk(w: World, x: Reconciling) {
    && x.receipt.id == x.id && x.id in w.store.authority && Held(x.read)
    && (x.read.Reserved? ==> x.receipt == Receipt(x.id, Failed, true))
    && (!x.read.Reserved? ==>
          x.receipt.state in {Executed, Failed} && !x.receipt.notStarted && w.store.authority[x.id].adapter.Some?)
  }

  ghost predicate Inv(w: World) {
    && (forall id :: id in w.store.authority ==> RecordOk(w, id))
    && (forall n :: n in w.calls ==> CallOk(w, n))
    && (forall r :: r in w.reconciling ==> ReconcilingOk(w, w.reconciling[r]))
    && (forall id :: id in w.sent ==> id in w.store.authority)
  }

  // ── Each step keeps it ──

  /** The records of all other actions stay, and so does every receipt. */
  ghost predicate SameBut(s: Store, s': Store, id: string) {
    && (forall i :: i != id ==> (i in s.authority <==> i in s'.authority))
    && (forall i :: i != id && i in s.authority ==> s'.authority[i] == s.authority[i])
    && s.all <= s'.all
  }

  lemma AdvanceTouches(s: Store, stopped: bool, n: nat, c: Call)
    ensures SameBut(s, Advance(s, stopped, n, c).store, c.request.id)
  {}

  lemma AdvanceKeepsTheRequest(s: Store, stopped: bool, n: nat, c: Call)
    ensures Advance(s, stopped, n, c).call.request == c.request
  {}

  /** What a step of call `n` on action `id` can touch: that call, that record, that count, and one more
      receipt. */
  ghost predicate Touches(w: World, w': World, n: nat, id: string) {
    && n in w.calls && w.calls[n].request.id == id && n in w'.calls && w'.calls[n].request == w.calls[n].request
    && (forall m :: m != n ==> (m in w'.calls <==> m in w.calls))
    && (forall m :: m in w.calls && m != n ==> w'.calls[m] == w.calls[m])
    && SameBut(w.store, w'.store, id)
    && (forall i :: i != id ==> w'.sent[i] == w.sent[i])
    && w'.reconciling == w.reconciling
  }

  /** The record keeps its owner and its adapter, and answers given still agree. */
  predicate Keeps(w: World, w': World, n: nat, id: string)
    requires n in w.calls && n in w'.calls
  {
    && (id in w.store.authority ==>
          id in w'.store.authority && w'.store.authority[id].owner == w.store.authority[id].owner
          && (w.store.authority[id].adapter.Some? ==> w'.store.authority[id].adapter.Some?))
    && (Agrees(w.calls[n].place, true) ==> Agrees(w'.calls[n].place, true))
    && (Agrees(w.calls[n].place, false) ==> Agrees(w'.calls[n].place, false))
  }

  lemma SteppedTouches(w: World, n: nat)
    requires n in w.calls
    ensures Touches(w, Stepped(w, n), n, w.calls[n].request.id)
  {
    AdvanceTouches(w.store, w.stopped, n, w.calls[n]);
    AdvanceKeepsTheRequest(w.store, w.stopped, n, w.calls[n]);
  }

  lemma MoreReceipts(all: seq<Receipt>, more: seq<Receipt>, id: string)
    requires all <= more
    ensures ReconciledUnstarted(all, id) ==> ReconciledUnstarted(more, id)
  {
    if ReconciledUnstarted(all, id) {
      var i :| 0 <= i < |all| && all[i].id == id && all[i].notStarted;
      assert more[i] == all[i];
    }
  }

  lemma OtherRecord(w: World, w': World, n: nat, id: string, i: string)
    requires Inv(w) && Touches(w, w', n, id) && Keeps(w, w', n, id) && i != id && i in w'.store.authority
    ensures RecordOk(w', i)
  {
    assert RecordOk(w, i);
    MoreReceipts(w.store.all, w'.store.all, i);
  }

  lemma OtherCall(w: World, w': World, n: nat, id: string, m: nat)
    requires Inv(w) && Touches(w, w', n, id) && Keeps(w, w', n, id) && m != n && m in w'.calls
    ensures CallOk(w', m)
  {
    assert CallOk(w, m);
    MoreReceipts(w.store.all, w'.store.all, w.calls[m].request.id);
  }

  lemma StepFrame(w: World, w': World, n: nat, id: string)
    requires Inv(w) && Touches(w, w', n, id) && Keeps(w, w', n, id)
    requires id in w'.store.authority ==> RecordOk(w', id)
    requires CallOk(w', n) && (id in w'.sent ==> id in w'.store.authority)
    ensures Inv(w')
  {
    forall i | i in w'.store.authority ensures RecordOk(w', i) {
      if i != id {
        OtherRecord(w, w', n, id, i);
      }
    }
    forall m | m in w'.calls ensures CallOk(w', m) {
      if m != n {
        OtherCall(w, w', n, id, m);
      }
    }
    forall r | r in w'.reconciling ensures ReconcilingOk(w', w'.reconciling[r]) {
      assert ReconcilingOk(w, w.reconciling[r]);
    }
    forall i | i in w'.sent ensures i in w'.store.authority {
      assert i != id ==> w'.sent[i] == w.sent[i];
    }
  }

  /** What holds of one call and the record of its action. */
  predicate Here(w: World, n: nat) {
    && n in w.calls && CallOk(w, n)
    && var id := w.calls[n].request.id;
       (id in w.store.authority ==> RecordOk(w, id)) && (id in w.sent ==> id in w.store.authority)
  }

  predicate Kept(w: World, n: nat) {
    n in w.calls && Here(Stepped(w, n), n) && Keeps(w, Stepped(w, n), n, w.calls[n].request.id)
  }

  /** A call that has reserved nothing moves on without writing. */
  lemma OutsideMove(w: World, n: nat)
    requires Here(w, n) && (w.calls[n].place.Starting? || w.calls[n].place.Repeating?)
    ensures Kept(w, n)
  {}

  lemma RefusedMove(w: World, n: nat)
    requires Here(w, n) && (w.calls[n].place.Reserving? || w.calls[n].place.ReservingStopped?)
    requires Taken(w.store, w.calls[n].request.id, w.calls[n].request.ids)
    ensures Kept(w, n)
  {}

  lemma ReserveMove(w: World, n: nat)
    requires Here(w, n) && (w.calls[n].place.Reserving? || w.calls[n].place.ReservingStopped?)
    requires !Taken(w.store, w.calls[n].request.id, w.calls[n].request.ids)
    ensures Kept(w, n)
  {
    assert w.calls[n].request.id !in w.sent;
  }

  /** The owner decides, without writing. */
  lemma DecideMove(w: World, n: nat)
    requires Here(w, n) && (w.calls[n].place.Overriding? || w.calls[n].place.Guarding? || w.calls[n].place.Stopping?)
    ensures Kept(w, n)
  {}

  lemma ActMove(w: World, n: nat)
    requires Here(w, n) && w.calls[n].place.Acting?
    ensures Kept(w, n)
  {}

  lemma PrepareMove(w: World, n: nat)
    requires Here(w, n) && w.calls[n].place.Preparing?
    ensures Kept(w, n)
  {}

  lemma SendMove(w: World, n: nat)
    requires Here(w, n) && w.calls[n].place.AtSend?
    ensures Kept(w, n)
  {}

  lemma FinalMove(w: World, n: nat)
    requires Here(w, n) && (w.calls[n].place.Finalizing? || w.calls[n].place.FinalizingStopped?)
    ensures Kept(w, n)
  {
    MoreReceipts(w.store.all, Stepped(w, n).store.all, w.calls[n].request.id);
  }

  lemma MoveKeepsHere(w: World, n: nat)
    requires Here(w, n) && !Over(w.calls[n].place)
    ensures Kept(w, n)
  {
    var taken := Taken(w.store, w.calls[n].request.id, w.calls[n].request.ids);
    match w.calls[n].place
    case Starting => OutsideMove(w, n);
    case Repeating => OutsideMove(w, n);
    case Reserving => if taken { RefusedMove(w, n); } else { ReserveMove(w, n); }
    case ReservingStopped => if taken { RefusedMove(w, n); } else { ReserveMove(w, n); }
    case Overriding => DecideMove(w, n);
    case Guarding => DecideMove(w, n);
    case Stopping => DecideMove(w, n);
    case Acting(_) => ActMove(w, n);
    case Preparing => PrepareMove(w, n);
    case AtSend => SendMove(w, n);
    case Finalizing(_, _) => FinalMove(w, n);
    case FinalizingStopped => FinalMove(w, n);
  }

  lemma CallIsHere(w: World, n: nat)
    requires Inv(w) && n in w.calls
    ensures Here(w, n)
  {
    assert CallOk(w, n);
    assert w.calls[n].request.id in w.store.authority ==> RecordOk(w, w.calls[n].request.id);
  }

  lemma StepKeepsInv(w: World, n: nat)
    requires Inv(w) && n in w.calls && !Over(w.calls[n].place)
    ensures Inv(Stepped(w, n))
  {
    CallIsHere(w, n);
    MoveKeepsHere(w, n);
    SteppedTouches(w, n);
    StepFrame(w, Stepped(w, n), n, w.calls[n].request.id);
  }

  lemma BeginKeepsInv(w: World, n: nat, q: Request)
    requires Inv(w) && n !in w.calls
    ensures Inv(Apply(w, Begin(n, q)))
  {
    var w' := Apply(w, Begin(n, q));
    forall id | id in w'.store.authority ensures RecordOk(w', id) {
      assert RecordOk(w, id);
    }
    forall m | m in w'.calls ensures CallOk(w', m) {
      if m != n {
        assert CallOk(w, m);
      }
    }
    forall r | r in w'.reconciling ensures ReconcilingOk(w', w'.reconciling[r]) {
      assert ReconcilingOk(w, w.reconciling[r]);
    }
  }

  lemma CrashKeepsInv(w: World, n: nat)
    requires Inv(w) && n in w.calls && !Over(w.calls[n].place)
    ensures Inv(Apply(w, Crash(n)))
  {
    var w', id := Apply(w, Crash(n)), w.calls[n].request.id;
    assert CallOk(w, n);
    if id in w.store.authority {
      assert RecordOk(w, id);
    }
    StepFrame(w, w', n, id);
  }

  lemma SameHere(w: World, w': World)
    requires Inv(w) && w'.store == w.store && w'.calls == w.calls && w'.sent == w.sent
    requires forall r :: r in w'.reconciling ==> ReconcilingOk(w, w'.reconciling[r])
    ensures Inv(w')
  {
    forall i | i in w'.store.authority ensures RecordOk(w', i) {
      SameRecord(w, w', i);
    }
    forall m | m in w'.calls ensures CallOk(w', m) {
      SameCall(w, w', m);
    }
  }

  lemma SameRecord(w: World, w': World, id: string)
    requires w'.store == w.store && w'.calls == w.calls && w'.sent == w.sent && id in w.store.authority && RecordOk(w, id)
    ensures RecordOk(w', id)
  {}

  lemma SameCall(w: World, w': World, n: nat)
    requires w'.store == w.store && w'.calls == w.calls && n in w.calls && CallOk(w, n)
    ensures CallOk(w', n)
  {}

  lemma ReadIsOk(w: World, id: string, query: Query)
    requires Resolution(w.store, id, query).Some? && RecordOk(w, id)
    ensures ReconcilingOk(w, Resolution(w.store, id, query).value)
  {}

  lemma ReadKeepsInv(w: World, r: nat, id: string, query: Query)
    requires Inv(w)
    ensures Inv(Apply(w, Read(r, id, query)))
  {
    if Resolution(w.store, id, query).Some? {
      ReadIsOk(w, id, query);
    }
    SameHere(w, Apply(w, Read(r, id, query)));
  }

  /** What a reconciliation writes fits the record it writes to. */
  lemma SettledRecord(w: World, x: Reconciling, w': World)
    requires ReconcilingOk(w, x) && RecordOk(w, x.id)
    requires w'.store == WithFinal(w.store, x.id, x.receipt) && w'.calls == w.calls && w'.sent == w.sent
    ensures RecordOk(w', x.id)
  {
    var last := |w.store.all|;
    assert w'.store.all[last] == x.receipt;
  }

  lemma SettleKeepsInv(w: World, r: nat)
    requires Inv(w) && r in w.reconciling
    ensures Inv(Apply(w, Settle(r)))
  {
    var w', x := Apply(w, Settle(r)), w.reconciling[r];
    assert ReconcilingOk(w, x) && RecordOk(w, x.id);
    SettledRecord(w, x, w');
    forall i | i in w'.store.authority ensures RecordOk(w', i) {
      if i != x.id {
        OtherSettled(w, x, w', i);
      }
    }
    forall m | m in w'.calls ensures CallOk(w', m) {
      SettledCall(w, x, w', m);
    }
    forall y | y in w'.reconciling ensures ReconcilingOk(w', w'.reconciling[y]) {
      SettledOther(w, x, w', w.reconciling[y]);
    }
  }

  lemma SettledOther(w: World, x: Reconciling, w': World, y: Reconciling)
    requires x.id in w.store.authority && ReconcilingOk(w, y) && w'.store == WithFinal(w.store, x.id, x.receipt)
    ensures ReconcilingOk(w', y)
  {}

  lemma OtherSettled(w: World, x: Reconciling, w': World, id: string)
    requires x.id in w.store.authority && id in w.store.authority && id != x.id && RecordOk(w, id)
    requires w'.store == WithFinal(w.store, x.id, x.receipt) && w'.calls == w.calls && w'.sent == w.sent
    ensures RecordOk(w', id)
  {
    MoreReceipts(w.store.all, w'.store.all, id);
  }

  lemma SettledCall(w: World, x: Reconciling, w': World, n: nat)
    requires x.id in w.store.authority && n in w.calls && CallOk(w, n)
    requires w'.store == WithFinal(w.store, x.id, x.receipt) && w'.calls == w.calls
    ensures CallOk(w', n)
  {
    MoreReceipts(w.store.all, w'.store.all, w.calls[n].request.id);
  }

  lemma OverStays(w: World, n: nat)
    requires n in w.calls && Over(w.calls[n].place)
    ensures Stepped(w, n) == w
  {
    assert w.calls[n := w.calls[n]] == w.calls;
  }

  lemma ApplyKeepsInv(w: World, e: Event)
    requires Inv(w)
    ensures Inv(Apply(w, e))
  {
    match e
    case Begin(n, q) => if n !in w.calls { BeginKeepsInv(w, n, q); }
    case Step(n) => if n in w.calls { if Over(w.calls[n].place) { OverStays(w, n); } else { StepKeepsInv(w, n); } }
    case Crash(n) => if n in w.calls && !Over(w.calls[n].place) { CrashKeepsInv(w, n); }
    case SetStopped(_) => SameHere(w, Apply(w, e));
    case Read(r, id, query) => ReadKeepsInv(w, r, id, query);
    case Settle(r) => if r in w.reconciling { SettleKeepsInv(w, r); }
    case Drop(_) => SameHere(w, Apply(w, e));
  }

  lemma {:induction false} RunKeepsInv(w: World, events: seq<Event>)
    requires Inv(w)
    ensures Inv(Run(w, events))
    decreases events
  {
    if events != [] {
      ApplyKeepsInv(w, events[0]);
      RunKeepsInv(Apply(w, events[0]), events[1..]);
    }
  }
}
