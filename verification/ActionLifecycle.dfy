/** One action through the gateway: the store's records of it, and the steps of the call that handles it. Each
    step is what runs between two awaits, so calls of any number of processes interleave at steps. */
module ActionLifecycle {
  import opened Foundations

  /** `AuthorityLifecycleState`. */
  datatype State =
    | Reserved | Dispatching
    | Denied | Simulated | CooperativeAllow | Executed | Failed | OutcomeUnknown | ObservedAfter

  /** A terminal receipt. `notStarted` is the reference a reconciliation gives an action it read as reserved. */
  datatype Receipt = Receipt(id: string, state: State, notStarted: bool)

  predicate CountsAsExecuted(s: State) {
    s.Executed? || s.ObservedAfter?
  }

  /** `permitted` is the decision it was reserved with, `charged` whether its candidate counts as executed while
      held, `owner` the call that reserved it. */
  datatype Record = Record(
    state: State, permitted: bool, charged: bool, ids: seq<string>, owner: nat,
    adapter: Option<string>, terminal: Option<Receipt>)

  datatype Store = Store(all: seq<Receipt>, authority: map<string, Record>, consumed: map<string, string>)

  const EMPTY_STORE := Store([], map[], map[])

  /** An id already has a record, or one of its authorization ids is spent. */
  predicate Taken(s: Store, id: string, ids: seq<string>) {
    id in s.authority || exists i :: i in ids && i != "" && i in s.consumed
  }

  function Spend(consumed: map<string, string>, ids: seq<string>, id: string): map<string, string>
    decreases |ids|
  {
    if ids == [] then consumed
    else Spend(if ids[0] == "" then consumed else consumed[ids[0] := id], ids[1..], id)
  }

  function WithReserved(s: Store, id: string, ids: seq<string>, permitted: bool, charged: bool, owner: nat): Store {
    var record := Record(if permitted then Reserved else Denied, permitted, charged, ids, owner, None, None);
    Store(s.all, s.authority[id := record], Spend(s.consumed, ids, id))
  }

  predicate Dispatchable(s: Store, id: string) {
    id in s.authority && s.authority[id].state.Reserved?
  }

  function WithDispatching(s: Store, id: string, adapter: string): Store
    requires Dispatchable(s, id)
  {
    s.(authority := s.authority[id := s.authority[id].(state := Dispatching, adapter := Some(adapter))])
  }

  /** Finalizing asks only that the record exists. */
  function WithFinal(s: Store, id: string, receipt: Receipt): Store
    requires id in s.authority
  {
    Store(
      s.all + [receipt],
      s.authority[id := s.authority[id].(state := receipt.state, terminal := Some(receipt))],
      s.consumed)
  }

  predicate Held(s: State) {
    s.Reserved? || s.Dispatching? || s.OutcomeUnknown?
  }

  /** What a repeated call is told: nothing without a terminal receipt (it throws), else whether to go ahead. */
  function RetryAnswer(s: Store, id: string): Option<bool> {
    if id in s.authority && s.authority[id].terminal.Some? then Some(Permits(s.authority[id].terminal.value.state)) else None
  }

  predicate Permits(s: State) {
    !s.Denied? && !s.ObservedAfter?
  }

  /** `MemoryReceiptStore`. */
  class ReceiptStore {
    var all: seq<Receipt>
    var authority: map<string, Record>
    var consumed: map<string, string>

    function Value(): Store
      reads this
    {
      Store(all, authority, consumed)
    }

    constructor ()
      ensures Value() == EMPTY_STORE
    {
      all, authority, consumed := [], map[], map[];
    }

    method ReserveAction(id: string, ids: seq<string>, permitted: bool, charged: bool, owner: nat) returns (duplicate: bool)
      modifies this
      ensures duplicate == Taken(old(Value()), id, ids)
      ensures Value() == if duplicate then old(Value()) else WithReserved(old(Value()), id, ids, permitted, charged, owner)
    {
      if id in authority {
        return true;
      }
      for i := 0 to |ids|
        invariant forall j :: 0 <= j < i && ids[j] != "" ==> ids[j] !in consumed
      {
        if ids[i] != "" && ids[i] in consumed {
          return true;
        }
      }
      authority := authority[id := Record(if permitted then Reserved else Denied, permitted, charged, ids, owner, None, None)];
      for i := 0 to |ids|
        invariant authority == WithReserved(old(Value()), id, ids, permitted, charged, owner).authority && all == old(all)
        invariant Spend(consumed, ids[i..], id) == Spend(old(consumed), ids, id)
      {
        assert ids[i..][0] == ids[i] && ids[i..][1..] == ids[i + 1..];
        if ids[i] != "" {
          consumed := consumed[ids[i] := id];
        }
      }
      return false;
    }

    /** False where the code throws. */
    method PrepareDispatch(id: string, adapter: string) returns (ok: bool)
      modifies this`authority
      ensures ok == Dispatchable(old(Value()), id)
      ensures Value() == if ok then WithDispatching(old(Value()), id, adapter) else old(Value())
    {
      if id !in authority || !authority[id].state.Reserved? {
        return false;
      }
      authority := authority[id := authority[id].(state := Dispatching, adapter := Some(adapter))];
      return true;
    }

    method FinalizeAction(id: string, receipt: Receipt) returns (ok: bool)
      modifies this
      ensures ok == (id in old(authority))
      ensures Value() == if ok then WithFinal(old(Value()), id, receipt) else old(Value())
    {
      if id !in authority {
        return false;
      }
      all := all + [receipt];
      authority := authority[id := authority[id].(state := receipt.state, terminal := Some(receipt))];
      return true;
    }

    /** The result for a duplicate id; None where the code throws. */
    method DuplicateResult(id: string) returns (r: Option<bool>)
      ensures r == RetryAnswer(Value(), id)
    {
      if id !in authority || authority[id].terminal.None? {
        return None;
      }
      var state := authority[id].terminal.value.state;
      return Some(!state.Denied? && !state.ObservedAfter?);
    }
  }

  // ── A call ──

  datatype Mode = Simulation | Dispatch

  /** The policy's decision: only a plain denial may be overridden. */
  datatype Verdict = Allows | Denies | Holds

  datatype Guard = Absent | Passes | Refuses

  /** How the executor ends: sent, input refused before anything was sent, or any other error. */
  datatype Sending = Sent | RefusedInput | Broke

  /** What an adapter says about an action when asked. */
  datatype Query = SaysExecuted | SaysFailed | SaysNothing

  /** What the call is given, and the answers the people, the policy, the boundary and the executor will give. */
  datatype Request = Request(
    id: string, ids: seq<string>, checkOnly: bool, observedAfter: bool,
    mode: Mode, outbound: bool, adapter: string,
    verdict: Verdict, overrides: bool, guard: Guard, sending: Sending, query: Query)

  predicate Cooperative(q: Request) {
    q.checkOnly || q.observedAfter
  }

  function DeniedState(q: Request): State {
    if q.observedAfter then ObservedAfter else Denied
  }

  function StateAfterSending(q: Request): State {
    match q.sending
    case Sent => Executed
    case RefusedInput => Failed
    case Broke => if !q.outbound then OutcomeUnknown else match q.query
      case SaysExecuted => Executed
      case SaysFailed => Failed
      case SaysNothing => OutcomeUnknown
  }

  /** Where the call stands. `Threw` is an exception out of the call, `Gone` its process stopped. */
  datatype Place =
    | Starting
    | ReservingStopped | FinalizingStopped
    | Reserving | Overriding | Guarding | Stopping | Acting(stopped: bool) | Preparing | AtSend
    | Finalizing(state: State, allowed: bool)
    | Repeating
    | Answered(allowed: bool) | Repeated(allowed: bool) | Threw | Gone

  /** `allow` is the decision so far; `consulted` and `skipped` say what happened at the boundary. */
  datatype Call = Call(request: Request, place: Place, allow: bool, consulted: bool, skipped: bool)

  function Begun(q: Request): Call {
    Call(q, Starting, false, false, false)
  }

  datatype Moved = Moved(store: Store, call: Call)

  function Reserve(s: Store, n: nat, c: Call, permitted: bool, next: Place): Moved {
    var q := c.request;
    if Taken(s, q.id, q.ids) then Moved(s, c.(place := Repeating))
    else Moved(WithReserved(s, q.id, q.ids, permitted, !Cooperative(q), n), c.(place := next))
  }

  /** What happens once everything is decided. */
  function ActOn(c: Call, stop: bool): Place {
    var q := c.request;
    if !c.allow || stop then Finalizing(DeniedState(q), false)
    else if Cooperative(q) then Finalizing(CooperativeAllow, true)
    else if q.mode.Dispatch? then Preparing
    else if q.sending.Sent? then Finalizing(Simulated, true)
    else Threw
  }

  function Final(s: Store, c: Call, state: State, allowed: bool): Moved {
    var q := c.request;
    if q.id in s.authority then Moved(WithFinal(s, q.id, Receipt(q.id, state, false)), c.(place := Answered(allowed)))
    else Moved(s, c.(place := Threw))
  }

  /** One step of call number `n`, with the stop as it reads now. */
  function Advance(s: Store, stopped: bool, n: nat, c: Call): Moved {
    var q := c.request;
    match c.place
    case Starting => Moved(s, c.(place := if stopped then ReservingStopped else Reserving))
    case ReservingStopped => Reserve(s, n, c, false, FinalizingStopped)
    case FinalizingStopped => Final(s, c, DeniedState(q), false)
    case Reserving => Reserve(s, n, c.(allow := q.verdict.Allows?), q.verdict.Allows?, Overriding)
    case Overriding =>
      Moved(s, c.(place := Guarding, allow := c.allow || (q.verdict.Denies? && q.overrides && !q.observedAfter && !stopped)))
    case Guarding =>
      if !c.allow || q.guard.Absent? then Moved(s, c.(place := Stopping))
      else if stopped then Moved(s, c.(place := Stopping, skipped := true))
      else Moved(s, c.(place := Stopping, consulted := true, allow := q.guard.Passes?))
    case Stopping => Moved(s, c.(place := Acting(c.allow && ((!q.outbound && q.mode.Dispatch?) || stopped))))
    case Acting(stop) => Moved(s, c.(place := ActOn(c, stop)))
    case Preparing =>
      if Dispatchable(s, q.id) then Moved(WithDispatching(s, q.id, q.adapter), c.(place := AtSend))
      else Moved(s, c.(place := Threw))
    case AtSend => Moved(s, c.(place := Finalizing(StateAfterSending(q), true)))
    case Finalizing(state, allowed) => Final(s, c, state, allowed)
    case Repeating =>
      var answer := RetryAnswer(s, q.id);
      Moved(s, c.(place := if answer.Some? then Repeated(answer.value) else Threw))
    case Answered(_) => Moved(s, c)
    case Repeated(_) => Moved(s, c)
    case Threw => Moved(s, c)
    case Gone => Moved(s, c)
  }

  predicate Over(p: Place) {
    p.Answered? || p.Repeated? || p.Threw? || p.Gone?
  }

  /** A call takes at most this many steps. */
  const ALL_STEPS := 9

  /** Up to `steps` steps of a call with nothing else in between. */
  function Alone(s: Store, stopped: bool, n: nat, c: Call, steps: nat): Moved
    decreases steps
  {
    if Over(c.place) || steps == 0 then Moved(s, c)
    else
      var m := Advance(s, stopped, n, c);
      Alone(m.store, stopped, n, m.call, steps - 1)
  }

  lemma {:induction false} OneMove(s: Store, stopped: bool, n: nat, c: Call, steps: nat)
    requires !Over(c.place) && steps > 0
    ensures
      var m := Advance(s, stopped, n, c);
      Alone(s, stopped, n, c, steps) == Alone(m.store, stopped, n, m.call, steps - 1)
      && (Over(m.call.place) ==> Alone(s, stopped, n, c, steps) == m)
  {}

  /** What is decided between the reservation and the act, when nothing is stopped. */
  function Decision(q: Request): bool {
    (q.verdict.Allows? || (q.verdict.Denies? && q.overrides && !q.observedAfter)) && !q.guard.Refuses?
  }

  predicate OutboundDisabled(q: Request) {
    !q.outbound && q.mode.Dispatch?
  }

  lemma {:induction false} FromReservedToActing(s: Store, n: nat, q: Request) returns (c: Call)
    ensures c.request == q && c.allow == Decision(q) && c.place == Acting(c.allow && OutboundDisabled(q))
    ensures Alone(s, false, n, Call(q, Overriding, q.verdict.Allows?, false, false), 7) == Alone(s, false, n, c, 4)
  {
    hide Alone;
    c := Call(q, Overriding, q.verdict.Allows?, false, false);
    OneMove(s, false, n, c, 7);
    c := Advance(s, false, n, c).call;
    OneMove(s, false, n, c, 6);
    c := Advance(s, false, n, c).call;
    OneMove(s, false, n, c, 5);
    c := Advance(s, false, n, c).call;
  }

  /** `handleAction` as one piece of code, when nothing else touches the store: it ends, with the store and the
      answer its steps give. */
  method HandleAction(store: ReceiptStore, stopped: bool, n: nat, q: Request) returns (end: Place)
    modifies store
    ensures
      var m := Alone(old(store.Value()), stopped, n, Begun(q), ALL_STEPS);
      Over(end) && store.Value() == m.store && end == m.call.place
  {
    OneMove(store.Value(), stopped, n, Begun(q), 9);
    if stopped {
      end := HandleStopped(store, n, q);
      return;
    }
    var allow := q.verdict.Allows?;
    OneMove(store.Value(), false, n, Begun(q).(place := Reserving), 8);
    var duplicate := store.ReserveAction(q.id, q.ids, allow, !(q.checkOnly || q.observedAfter), n);
    if duplicate {
      end := AnswerRepeated(store, q.id, false, n, Begun(q).(place := Repeating, allow := allow), 7);
      return;
    }
    ghost var c := FromReservedToActing(store.Value(), n, q);
    if !allow && q.verdict.Denies? && !q.observedAfter && q.overrides {
      allow := true;
    }
    if allow && !q.guard.Absent? {
      allow := q.guard.Passes?;
    }
    end := Act(store, n, q, allow, c);
  }

  method HandleStopped(store: ReceiptStore, n: nat, q: Request) returns (end: Place)
    modifies store
    ensures
      var m := Alone(old(store.Value()), true, n, Begun(q).(place := ReservingStopped), 8);
      Over(end) && store.Value() == m.store && end == m.call.place
  {
    ghost var c := Begun(q).(place := ReservingStopped);
    OneMove(store.Value(), true, n, c, 8);
    var duplicate := store.ReserveAction(q.id, q.ids, false, !(q.checkOnly || q.observedAfter), n);
    if duplicate {
      end := AnswerRepeated(store, q.id, true, n, c.(place := Repeating), 7);
      return;
    }
    OneMove(store.Value(), true, n, c.(place := FinalizingStopped), 7);
    var _ := store.FinalizeAction(q.id, Receipt(q.id, if q.observedAfter then ObservedAfter else Denied, false));
    end := Answered(false);
  }

  method Act(store: ReceiptStore, n: nat, q: Request, allow: bool, ghost c: Call) returns (end: Place)
    requires c.request == q && c.allow == allow && c.place == Acting(allow && OutboundDisabled(q))
    requires q.id in store.authority
    modifies store
    ensures
      var m := Alone(old(store.Value()), false, n, c, 4);
      Over(end) && store.Value() == m.store && end == m.call.place
  {
    OneMove(store.Value(), false, n, c, 4);
    var stop := allow && !q.outbound && q.mode.Dispatch?;
    if allow && !stop && !q.checkOnly && !q.observedAfter && q.mode.Dispatch? {
      end := Send(store, n, q, c.(place := Preparing));
      return;
    }
    if allow && !stop && !q.checkOnly && !q.observedAfter && !q.sending.Sent? {
      return Threw;
    }
    var state := if !allow || stop then if q.observedAfter then ObservedAfter else Denied
    else if q.checkOnly || q.observedAfter then CooperativeAllow
    else Simulated;
    OneMove(store.Value(), false, n, c.(place := Finalizing(state, allow && !stop)), 3);
    var _ := store.FinalizeAction(q.id, Receipt(q.id, state, false));
    end := Answered(allow && !stop);
  }

  method Send(store: ReceiptStore, n: nat, q: Request, ghost c: Call) returns (end: Place)
    requires c.request == q && c.place == Preparing
    modifies store
    ensures
      var m := Alone(old(store.Value()), false, n, c, 3);
      Over(end) && store.Value() == m.store && end == m.call.place
  {
    OneMove(store.Value(), false, n, c, 3);
    var ok := store.PrepareDispatch(q.id, q.adapter);
    if !ok {
      return Threw;
    }
    OneMove(store.Value(), false, n, c.(place := AtSend), 2);
    var state := StateAfterSending(q);
    OneMove(store.Value(), false, n, c.(place := Finalizing(state, true)), 1);
    var _ := store.FinalizeAction(q.id, Receipt(q.id, state, false));
    end := Answered(true);
  }

  method AnswerRepeated(store: ReceiptStore, id: string, stopped: bool, n: nat, ghost c: Call, ghost steps: nat) returns (end: Place)
    requires c.place == Repeating && c.request.id == id && steps > 0
    ensures
      var m := Alone(store.Value(), stopped, n, c, steps);
      Over(end) && store.Value() == m.store && end == m.call.place
  {
    OneMove(store.Value(), stopped, n, c, steps);
    var answer := store.DuplicateResult(id);
    end := if answer.Some? then Repeated(answer.value) else Threw;
  }
}
