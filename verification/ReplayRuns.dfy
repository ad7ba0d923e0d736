/** Single use of signed authorizations in the SQLite store, whose upkeep forgets: calls in steps, reservations,
    receipts and their index, and removal by age, interleaved in any order with arbitrary clocks. */
module ReplayRuns {
  import opened Foundations
  import opened ReplayWindow

  type Key = (Kind, string)

  /** A reserved action: what its call authenticated, when its row was made, and whether it is held. */
  datatype Action = Action(receipt: Receipt, created: Time, held: bool)

  /** `consumed` says which action consumed an id, `ids` when a receipt last named one; `since` is the time from
      which that index is complete, absent when it cannot be read. */
  datatype Store = Store(
    receipts: seq<Receipt>, actions: map<nat, Action>, consumed: map<Key, nat>, ids: map<Key, Time>, since: Option<Time>)

  /** `calls` are those authenticated so far, `used` what each of those that reserved has used, `past` the receipts
      from before the index was made and `written` all there ever were. `cutoff` and `removed` are the latest times
      before which ids and receipts have been removed. */
  datatype World = World(
    store: Store, calls: map<nat, Receipt>, used: map<nat, Receipt>, past: seq<Receipt>, written: seq<Receipt>,
    cutoff: Option<Time>, removed: Option<Time>)

  datatype Event =
    | Looks(n: nat, request: Request, at: Time, scan: bool)
    | Reserves(n: nat, created: Time, held: bool)
    | Finishes(n: nat, held: bool)
    | ForgetsFinished(before: Time, stay: set<nat>)
    | ForgetsIds(before: Time, keep: set<Key>)
    | RemovesReceipts(before: Time, left: set<Receipt>)

  /** What a reservation consumes: empty ids are passed over. */
  function KeysOf(r: Receipt): set<Key> {
    set x | x in IdsOf(r) && x.1 != ""
  }

  /** `authorizationUsed`. */
  predicate IndexedUse(s: Store, kind: Kind, id: string, since: Time) {
    || (kind, id) in s.consumed
    || (kind, id) in s.ids
    || ((s.since.None? || since <= s.since.value) && UsedSince(s.receipts, kind, id, since))
  }

  /** The ids a call looks up, or all a scan of the receipts names. */
  function UsedBefore(s: Store, q: Request, now: Time, c: Config, scan: bool): (set<string>, set<string>) {
    var since := Since(now, c);
    if scan then AllIds(s.receipts) else
    (if q.agent.id != "" && IndexedUse(s, RequestId, q.agent.id, since) then {q.agent.id} else {},
     if q.approval.Some? && q.approval.value.id != "" && IndexedUse(s, ApprovalId, q.approval.value.id, since)
     then {q.approval.value.id} else {})
  }

  /** The trigger: an id named again keeps its latest time. */
  function Stamped(ids: map<Key, Time>, r: Receipt): map<Key, Time> {
    map x | x in ids.Keys + IdsOf(r) :: if x !in IdsOf(r) then ids[x] else if x in ids then Max(ids[x], r.at) else r.at
  }

  function Doomed(s: Store, before: Time, stay: set<nat>): set<nat> {
    set n | n in s.actions && !s.actions[n].held && s.actions[n].created < before && n !in stay
  }

  /** `removeFinishedState`: some of the finished actions made before the time, with the ids they consumed. */
  function Forgotten(s: Store, before: Time, stay: set<nat>): Store {
    var doomed := Doomed(s, before, stay);
    s.(actions := s.actions - doomed, consumed := map x | x in s.consumed && s.consumed[x] !in doomed :: s.consumed[x])
  }

  function Kept(receipts: seq<Receipt>, before: Time, left: set<Receipt>): seq<Receipt> {
    if receipts == [] then []
    else (if receipts[0].at < before && receipts[0] !in left then [] else [receipts[0]]) + Kept(receipts[1..], before, left)
  }

  predicate Duplicate(s: Store, r: Receipt) {
    exists x :: x in KeysOf(r) && x in s.consumed
  }

  function WithReserved(s: Store, n: nat, r: Receipt, created: Time, held: bool): Store {
    s.(actions := s.actions[n := Action(r, created, held)], consumed := s.consumed + map x | x in KeysOf(r) :: n)
  }

  function WithFinished(s: Store, n: nat, held: bool): Store
    requires n in s.actions
  {
    var a := s.actions[n];
    s.(receipts := s.receipts + [a.receipt], actions := s.actions[n := a.(held := held)], ids := Stamped(s.ids, a.receipt))
  }

  /** `removeAuthorizationIds`: some of the ids last named before the time. */
  function WithoutIds(s: Store, before: Time, keep: set<Key>): Store {
    s.(ids := map x | x in s.ids && !(s.ids[x] < before && x !in keep) :: s.ids[x])
  }

  /** `SqliteReceiptStore`, its tables changed in place. Deleting at most so many rows leaves some chosen set. */
  class Tables {
    var receipts: seq<Receipt>
    var actions: map<nat, Action>
    var consumed: map<Key, nat>
    var ids: map<Key, Time>
    var since: Option<Time>

    function Value(): Store
      reads this
    {
      Store(receipts, actions, consumed, ids, since)
    }

    constructor ()
      ensures Value() == Store([], map[], map[], map[], Some(0))
    {
      receipts, actions, consumed, ids, since := [], map[], map[], map[], Some(0);
    }

    /** Whether the id was used; the receipts are read only from before the index was complete. */
    method AuthorizationUsed(kind: Kind, id: string, from: Time) returns (used: bool)
      ensures used == IndexedUse(Value(), kind, id, from)
    {
      if (kind, id) in consumed || (kind, id) in ids {
        return true;
      }
      if since.Some? && from > since.value {
        return false;
      }
      for i := 0 to |receipts|
        invariant forall j :: 0 <= j < i ==> !(receipts[j].at >= from && Names(receipts[j], kind, id))
      {
        if receipts[i].at >= from && Names(receipts[i], kind, id) {
          return true;
        }
      }
      return false;
    }

    method ReserveAction(n: nat, r: Receipt, created: Time, held: bool) returns (duplicate: bool)
      modifies this
      ensures duplicate == (n in old(actions) || Duplicate(old(Value()), r))
      ensures Value() == if duplicate then old(Value()) else WithReserved(old(Value()), n, r, created, held)
    {
      duplicate := n in actions || exists x :: x in KeysOf(r) && x in consumed;
      if !duplicate {
        actions := actions[n := Action(r, created, held)];
        consumed := consumed + map x | x in KeysOf(r) :: n;
      }
    }

    /** False where the code throws. */
    method FinalizeAction(n: nat, held: bool) returns (ok: bool)
      modifies this
      ensures ok == (n in old(actions))
      ensures Value() == if ok then WithFinished(old(Value()), n, held) else old(Value())
    {
      if n !in actions {
        return false;
      }
      var r := actions[n].receipt;
      receipts := receipts + [r];
      ids := map x | x in ids.Keys + IdsOf(r) :: if x !in IdsOf(r) then ids[x] else if x in ids then Max(ids[x], r.at) else r.at;
      actions := actions[n := actions[n].(held := held)];
      return true;
    }

    method RemoveFinishedState(before: Time, stay: set<nat>)
      modifies this
      ensures Value() == Forgotten(old(Value()), before, stay)
    {
      var doomed := set n | n in actions && !actions[n].held && actions[n].created < before && n !in stay;
      consumed := map x | x in consumed && consumed[x] !in doomed :: consumed[x];
      actions := actions - doomed;
    }

    method RemoveAuthorizationIds(before: Time, keep: set<Key>)
      modifies this
      ensures Value() == WithoutIds(old(Value()), before, keep)
    {
      ids := map x | x in ids && !(ids[x] < before && x !in keep) :: ids[x];
    }

    method RemoveReceipts(before: Time, left: set<Receipt>)
      modifies this
      ensures Value() == old(Value()).(receipts := Kept(old(receipts), before, left))
    {
      var kept: seq<Receipt> := [];
      for i := 0 to |receipts|
        invariant kept + Kept(receipts[i..], before, left) == Kept(receipts, before, left)
      {
        assert receipts[i..][0] == receipts[i] && receipts[i..][1..] == receipts[i + 1..];
        if !(receipts[i].at < before && receipts[i] !in left) {
          kept := kept + [receipts[i]];
        }
      }
      receipts := kept;
    }
  }

  function Later(a: Option<Time>, b: Time): Option<Time> {
    if a.Some? && a.value > b then a else Some(b)
  }

  function Apply(w: World, e: Event, c: Config): World {
    match e
    case Looks(n, q, at, scan) =>
      var used := UsedBefore(w.store, q, at, c, scan);
      var r := Authenticate(q, at, c, used.0, used.1);
      if n in w.calls || r.Denied? then w else w.(calls := w.calls[n := r.receipt])
    case Reserves(n, created, held) =>
      if n !in w.calls || n in w.used || Duplicate(w.store, w.calls[n]) then w
      else w.(store := WithReserved(w.store, n, w.calls[n], created, held), used := w.used[n := w.calls[n]])
    case Finishes(n, held) =>
      if n !in w.store.actions then w
      else w.(store := WithFinished(w.store, n, held), written := w.written + [w.store.actions[n].receipt])
    case ForgetsFinished(before, stay) => w.(store := Forgotten(w.store, before, stay), cutoff := Later(w.cutoff, before))
    case ForgetsIds(before, keep) => w.(store := WithoutIds(w.store, before, keep), cutoff := Later(w.cutoff, before))
    case RemovesReceipts(before, left) =>
      w.(store := w.store.(receipts := Kept(w.store.receipts, before, left)), removed := Later(w.removed, before))
  }

  function Run(w: World, events: seq<Event>, c: Config): World
    decreases events
  {
    if events == [] then w else Run(Apply(w, events[0], c), events[1..], c)
  }

  function Newest(receipts: seq<Receipt>): Time
    requires receipts != []
  {
    var last := receipts[|receipts| - 1].at;
    if |receipts| == 1 then last else Max(Newest(receipts[..|receipts| - 1]), last)
  }

  /** The store as its index is made at `made` over the receipts there are. */
  function Start(past: seq<Receipt>, made: Time): World {
    var since := if past == [] then 0 else Max(made, Newest(past));
    World(Store(past, map[], map[], map[], Some(since)), map[], map[], past, past, None, None)
  }

  // ── What upkeep may forget ──

  /** The earliest time at which what is fresh at `now` can have been accepted before. */
  function Bound(now: Time, c: Config): Time {
    now - (c.maxLifetime - 1 + c.maxClockSkew)
  }

  predicate Passed(cutoff: Option<Time>, at: Time) {
    cutoff.Some? && cutoff.value > at
  }

  /** As a call looks or reserves, nothing from its bound on has been removed; and the clock did not go back
      between the two. */
  predicate Timely(w: World, e: Event, c: Config) {
    match e
    case Looks(_, _, at, _) => w.past == [] || !Passed(w.removed, Bound(at, c))
    case Reserves(n, created, _) => n in w.calls ==> created >= w.calls[n].at && !Passed(w.cutoff, Bound(w.calls[n].at, c))
    case _ => true
  }

  predicate AllTimely(w: World, events: seq<Event>, c: Config)
    decreases events
  {
    events == [] || (Timely(w, events[0], c) && AllTimely(Apply(w, events[0], c), events[1..], c))
  }

  // ── What every run keeps ──

  /** A use is remembered by the reservation's row until that is removed by age. */
  predicate Remembered(w: World, n: nat)
    requires n in w.used
  {
    || Passed(w.cutoff, w.used[n].at)
    || (n in w.store.actions && w.store.actions[n].created >= w.used[n].at
        && forall x :: x in KeysOf(w.used[n]) ==> x in w.store.consumed && w.store.consumed[x] == n)
  }

  predicate UseOk(w: World, n: nat, c: Config)
    requires n in w.used
  {
    n in w.calls && w.calls[n] == w.used[n] && Remembered(w, n)
  }

  predicate CallOk(w: World, n: nat, c: Config)
    requires n in w.calls
  {
    FreshThen(w.calls[n], c) && forall r :: r in w.past ==> !Shares(w.calls[n], r)
  }

  /** A receipt from before the index is read as long as the window reaches back to it. */
  predicate OldOk(w: World, r: Receipt, c: Config) {
    && FreshThen(r, c) && w.store.since.Some? && r.at <= w.store.since.value
    && (r in w.store.receipts || Passed(w.removed, r.at))
  }

  ghost predicate Inv(w: World, c: Config) {
    && (forall n :: n in w.used ==> UseOk(w, n, c))
    && (forall n :: n in w.calls ==> CallOk(w, n, c))
    && (forall r :: r in w.past ==> OldOk(w, r, c))
    && (forall n :: n in w.store.actions ==> n in w.used)
    && (forall m, n :: m in w.used && n in w.used && m != n ==> !Shares(w.used[m], w.used[n]))
  }

  /** What is fresh again was used no earlier than the bound, so nothing that old has been removed. */
  lemma SharedIsRecent(a: Receipt, b: Receipt, c: Config)
    requires FreshThen(a, c) && FreshThen(b, c) && Shares(a, b)
    ensures b.at >= Bound(a.at, c) && exists x :: x in KeysOf(a) && x in KeysOf(b)
  {
    if a.agent.Some? && a.agent == b.agent && a.agent.value.id != "" {
      assert (RequestId, a.agent.value.id) in KeysOf(a) && (RequestId, a.agent.value.id) in KeysOf(b);
    } else {
      assert (ApprovalId, a.approval.value.id) in KeysOf(a) && (ApprovalId, a.approval.value.id) in KeysOf(b);
    }
  }

  lemma ReservedIsNew(w: World, n: nat, m: nat, c: Config)
    requires Inv(w, c) && n in w.calls && m in w.used && !Passed(w.cutoff, Bound(w.calls[n].at, c))
    requires !Duplicate(w.store, w.calls[n])
    ensures !Shares(w.calls[n], w.used[m]) && !Shares(w.used[m], w.calls[n])
  {
    assert UseOk(w, m, c) && CallOk(w, n, c) && CallOk(w, m, c);
    if Shares(w.calls[n], w.used[m]) {
      SharedIsRecent(w.calls[n], w.used[m], c);
    }
  }

  /** A receipt from before the index that is fresh again is still there and inside the window. */
  lemma OldIsFound(w: World, kind: Kind, e: Envelope, r: Receipt, at: Time, c: Config)
    requires OldOk(w, r, c) && !Passed(w.removed, Bound(at, c)) && Staleness(e, at, c).None?
    requires if kind.RequestId? then r.agent == Some(e) else r.approval == Some(e)
    ensures IndexedUse(w.store, kind, e.id, Since(at, c))
    ensures e.id != "" ==> e.id in if kind.RequestId? then AllIds(w.store.receipts).0 else AllIds(w.store.receipts).1
  {
    StillFreshMeansInWindow(e, r.at, c, at, c);
    var i :| 0 <= i < |w.store.receipts| && w.store.receipts[i] == r;
    assert Names(w.store.receipts[i], kind, e.id);
  }

  lemma LookedUpIsNew(w: World, q: Request, at: Time, scan: bool, r: Receipt, c: Config)
    requires OldOk(w, r, c) && !Passed(w.removed, Bound(at, c))
    ensures
      var used := UsedBefore(w.store, q, at, c, scan);
      var found := Authenticate(q, at, c, used.0, used.1);
      found.Accepted? ==> !Shares(found.receipt, r)
  {
    hide IndexedUse, AllIds, OldOk, Bound;
    if r.agent == Some(q.agent) && Staleness(q.agent, at, c).None? {
      OldIsFound(w, RequestId, q.agent, r, at, c);
    }
    if q.approval.Some? && r.approval == q.approval && Staleness(q.approval.value, at, c).None? {
      OldIsFound(w, ApprovalId, q.approval.value, r, at, c);
    }
  }

  // ── Each step keeps it ──

  lemma LookKeepsInv(w: World, n: nat, q: Request, at: Time, scan: bool, c: Config)
    requires Inv(w, c) && Timely(w, Looks(n, q, at, scan), c)
    ensures Inv(Apply(w, Looks(n, q, at, scan), c), c)
  {
    hide UsedBefore, Authenticate, Shares, FreshThen;
    var w' := Apply(w, Looks(n, q, at, scan), c);
    AcceptedIsFresh(w, q, at, scan, c);
    forall r | r in w.past ensures OldOk(w', r, c) && (n !in w.calls && n in w'.calls ==> !Shares(w'.calls[n], r)) {
      assert OldOk(w, r, c);
      LookedUpIsNew(w, q, at, scan, r, c);
    }
    forall m | m in w'.calls ensures CallOk(w', m, c) {
      assert m in w.calls ==> CallOk(w, m, c);
    }
    forall m | m in w'.used ensures UseOk(w', m, c) {
      assert UseOk(w, m, c);
    }
  }

  lemma AcceptedIsFresh(w: World, q: Request, at: Time, scan: bool, c: Config)
    ensures
      var used := UsedBefore(w.store, q, at, c, scan);
      var found := Authenticate(q, at, c, used.0, used.1);
      found.Accepted? ==> FreshThen(found.receipt, c) && found.receipt.at == at
  {}

  lemma ReserveKeepsInv(w: World, n: nat, created: Time, held: bool, c: Config)
    requires Inv(w, c) && Timely(w, Reserves(n, created, held), c)
    requires n in w.calls && n !in w.used && !Duplicate(w.store, w.calls[n])
    ensures Inv(Apply(w, Reserves(n, created, held), c), c)
  {
    hide Shares, FreshThen, IdsOf, Bound;
    var w' := Apply(w, Reserves(n, created, held), c);
    forall m | m in w'.used ensures UseOk(w', m, c) {
      if m != n {
        assert UseOk(w, m, c);
      }
    }
    forall m | m in w'.calls ensures CallOk(w', m, c) {
      assert CallOk(w, m, c);
    }
    forall r | r in w'.past ensures OldOk(w', r, c) {
      assert OldOk(w, r, c);
    }
    forall m | m in w.used ensures !Shares(w.calls[n], w.used[m]) && !Shares(w.used[m], w.calls[n]) {
      ReservedIsNew(w, n, m, c);
    }
  }

  lemma FinishKeepsInv(w: World, n: nat, held: bool, c: Config)
    requires Inv(w, c)
    ensures Inv(Apply(w, Finishes(n, held), c), c)
  {
    hide Shares, FreshThen, IdsOf, Stamped;
    var w' := Apply(w, Finishes(n, held), c);
    forall m | m in w'.used ensures UseOk(w', m, c) {
      assert UseOk(w, m, c);
    }
    forall m | m in w'.calls ensures CallOk(w', m, c) {
      assert CallOk(w, m, c);
    }
    forall r | r in w'.past ensures OldOk(w', r, c) {
      assert OldOk(w, r, c);
    }
  }

  lemma {:induction false} WhatStays(receipts: seq<Receipt>, before: Time, left: set<Receipt>, r: Receipt)
    ensures r in Kept(receipts, before, left) <==> r in receipts && (r.at >= before || r in left)
    decreases receipts
  {
    if receipts != [] {
      WhatStays(receipts[1..], before, left, r);
      assert r in receipts <==> r == receipts[0] || r in receipts[1..];
    }
  }

  lemma ForgettingKeepsInv(w: World, e: Event, c: Config)
    requires Inv(w, c) && (e.ForgetsFinished? || e.ForgetsIds? || e.RemovesReceipts?)
    ensures Inv(Apply(w, e, c), c)
  {
    hide Shares, FreshThen, IdsOf, Kept;
    var w' := Apply(w, e, c);
    forall m | m in w'.used ensures UseOk(w', m, c) {
      assert UseOk(w, m, c);
    }
    forall m | m in w'.calls ensures CallOk(w', m, c) {
      assert CallOk(w, m, c);
    }
    forall r | r in w'.past ensures OldOk(w', r, c) {
      assert OldOk(w, r, c);
      if e.RemovesReceipts? {
        WhatStays(w.store.receipts, e.before, e.left, r);
      }
    }
  }

  lemma ApplyKeepsInv(w: World, e: Event, c: Config)
    requires Inv(w, c) && Timely(w, e, c)
    ensures Inv(Apply(w, e, c), c)
  {
    hide Inv, Remembered;
    match e
    case Looks(n, q, at, scan) => LookKeepsInv(w, n, q, at, scan, c);
    case Reserves(n, created, held) =>
      if n in w.calls && n !in w.used && !Duplicate(w.store, w.calls[n]) {
        ReserveKeepsInv(w, n, created, held, c);
      }
    case Finishes(n, held) => FinishKeepsInv(w, n, held, c);
    case _ => ForgettingKeepsInv(w, e, c);
  }

  lemma {:induction false} RunKeepsInv(w: World, events: seq<Event>, c: Config)
    requires Inv(w, c) && AllTimely(w, events, c)
    ensures Inv(Run(w, events, c), c)
    decreases events
  {
    hide Inv, Timely, Apply;
    if events != [] {
      ApplyKeepsInv(w, events[0], c);
      RunKeepsInv(Apply(w, events[0], c), events[1..], c);
    }
  }

  lemma {:induction false} NewestIsLast(receipts: seq<Receipt>, i: nat)
    requires i < |receipts|
    ensures receipts[i].at <= Newest(receipts)
    decreases |receipts|
  {
    if i < |receipts| - 1 {
      NewestIsLast(receipts[..|receipts| - 1], i);
    }
  }

  lemma StartKeepsInv(past: seq<Receipt>, made: Time, c: Config)
    requires forall r :: r in past ==> FreshThen(r, c)
    ensures Inv(Start(past, made), c)
  {
    forall r | r in past ensures OldOk(Start(past, made), r, c) {
      var i :| 0 <= i < |past| && past[i] == r;
      NewestIsLast(past, i);
    }
  }

  /** In every run in which, as a call looks and as it reserves, upkeep has removed nothing from the call's bound
      on, no signed authorization and no approval is used by two calls, nor by a call when a receipt from before
      the index names it: whatever the clocks read, whoever stops half way, and however much is forgotten. */
  lemma {:induction false} NoneAcceptedTwice(past: seq<Receipt>, made: Time, events: seq<Event>, c: Config, m: nat, n: nat)
    requires forall r :: r in past ==> FreshThen(r, c)
    requires AllTimely(Start(past, made), events, c)
    ensures
      var w := Run(Start(past, made), events, c);
      && (m in w.used && n in w.used && m != n ==> !Shares(w.used[m], w.used[n]))
      && (n in w.used ==> forall r :: r in past ==> !Shares(w.used[n], r))
  {
    StartKeepsInv(past, made, c);
    RunKeepsInv(Start(past, made), events, c);
    PastStays(Start(past, made), events, c);
    var w := Run(Start(past, made), events, c);
    if n in w.used {
      assert UseOk(w, n, c) && CallOk(w, n, c);
    }
  }

  lemma {:induction false} PastStays(w: World, events: seq<Event>, c: Config)
    ensures Run(w, events, c).past == w.past && Run(w, events, c).store.since == w.store.since
    decreases events
  {
    if events != [] {
      PastStaysOnce(w, events[0], c);
      PastStays(Apply(w, events[0], c), events[1..], c);
    }
  }

  lemma PastStaysOnce(w: World, e: Event, c: Config)
    ensures Apply(w, e, c).past == w.past && Apply(w, e, c).store.since == w.store.since
  {}

  // ── What it forgets too early is accepted again ──

  /** A call signed by an agent alone that nothing but its age or its use can refuse. */
  function Signed(e: Envelope): Request {
    Request(true, e, true, None, true)
  }

  /** One use of an envelope: the call looks, reserves and writes its receipt. */
  function UseAt(n: nat, q: Request, at: Time): seq<Event> {
    [Looks(n, q, at, false)] + ([Reserves(n, at, false)] + [Finishes(n, false)])
  }

  /** Upkeep removes what it may from before the cutoff, receipts too where `all` says so. */
  function Upkeep(cutoff: Time, all: bool): seq<Event> {
    [ForgetsFinished(cutoff, {})] + ([ForgetsIds(cutoff, {})] + (if all then [RemovesReceipts(cutoff, {})] else []))
  }

  /** A use, upkeep, and the same request again. */
  function AgainAfter(q: Request, used: Time, cutoff: Time, all: bool, now: Time): seq<Event> {
    UseAt(0, q, used) + (Upkeep(cutoff, all) + UseAt(1, q, now))
  }

  predicate Twice(q: Request, used: Time, cutoff: Time, all: bool, now: Time, c: Config) {
    var w := Run(Start([], 0), AgainAfter(q, used, cutoff, all, now), c);
    0 in w.used && 1 in w.used
  }

  lemma {:induction false} OneStep(w: World, e: Event, rest: seq<Event>, c: Config)
    ensures Run(w, [e] + rest, c) == Run(Apply(w, e, c), rest, c)
    ensures rest == [] ==> Run(w, [e], c) == Apply(w, e, c)
  {
    assert ([e] + rest)[1..] == rest;
    assert rest == [] ==> [e] + rest == [e];
  }

  lemma {:induction false} RunConcat(w: World, a: seq<Event>, b: seq<Event>, c: Config)
    ensures Run(w, a + b, c) == Run(Run(w, a, c), b, c)
    decreases a
  {
    if a == [] {
      assert a + b == b;
    } else {
      assert (a + b)[0] == a[0] && (a + b)[1..] == a[1..] + b;
      RunConcat(Apply(w, a[0], c), a[1..], b, c);
    }
  }

  lemma {:induction false} UseUnfolds(w: World, n: nat, q: Request, at: Time, c: Config)
    ensures Run(w, UseAt(n, q, at), c) == Apply(Apply(Apply(w, Looks(n, q, at, false), c), Reserves(n, at, false), c), Finishes(n, false), c)
  {
    hide Apply;
    var w1 := Apply(w, Looks(n, q, at, false), c);
    OneStep(Apply(w1, Reserves(n, at, false), c), Finishes(n, false), [], c);
    OneStep(w1, Reserves(n, at, false), [Finishes(n, false)], c);
    OneStep(w, Looks(n, q, at, false), [Reserves(n, at, false)] + [Finishes(n, false)], c);
  }

  lemma {:induction false} UpkeepUnfolds(w: World, cutoff: Time, all: bool, c: Config)
    ensures
      var w2 := Apply(Apply(w, ForgetsFinished(cutoff, {}), c), ForgetsIds(cutoff, {}), c);
      Run(w, Upkeep(cutoff, all), c) == if all then Apply(w2, RemovesReceipts(cutoff, {}), c) else w2
  {
    hide Apply;
    var w1 := Apply(w, ForgetsFinished(cutoff, {}), c);
    var last := if all then [RemovesReceipts(cutoff, {})] else [];
    if all {
      OneStep(Apply(w1, ForgetsIds(cutoff, {}), c), RemovesReceipts(cutoff, {}), [], c);
    }
    OneStep(w1, ForgetsIds(cutoff, {}), last, c);
    OneStep(w, ForgetsFinished(cutoff, {}), [ForgetsIds(cutoff, {})] + last, c);
  }

  function UseOf(e: Envelope, at: Time): Receipt {
    Receipt(at, Some(e), None)
  }

  /** The store holds no id, and no receipt it would read. */
  predicate KnowsNothing(w: World, now: Time, c: Config) {
    && w.store.consumed == map[] && w.store.ids == map[]
    && (w.store.receipts == [] || (w.store.since.Some? && Since(now, c) > w.store.since.value))
  }

  lemma {:induction false} UnknownIsUsed(w: World, n: nat, e: Envelope, now: Time, c: Config)
    requires KnowsNothing(w, now, c) && n !in w.calls && n !in w.used && Staleness(e, now, c).None?
    ensures
      var r := UseOf(e, now);
      var w' := Run(w, UseAt(n, Signed(e), now), c);
      && w'.used == w.used[n := r] && w'.calls == w.calls[n := r]
      && w'.store.receipts == w.store.receipts + [r] && w'.store.since == w.store.since
      && w'.store.actions == w.store.actions[n := Action(r, now, false)]
      && w'.store.consumed.Keys == (if e.id == "" then {} else {(RequestId, e.id)}) && (forall x :: x in w'.store.consumed ==> w'.store.consumed[x] == n)
      && w'.store.ids == map[(RequestId, e.id) := now]
  {
    hide Run, UseAt;
    var w1 := Apply(w, Looks(n, Signed(e), now, false), c);
    assert w1 == w.(calls := w.calls[n := UseOf(e, now)]);
    UseUnfolds(w, n, Signed(e), now, c);
    ThenReserved(w1, n, e, now, c);
  }

  lemma {:induction false} ThenReserved(w: World, n: nat, e: Envelope, now: Time, c: Config)
    requires w.store.consumed == map[] && w.store.ids == map[] && n in w.calls && n !in w.used && w.calls[n] == UseOf(e, now)
    ensures
      var w' := Apply(Apply(w, Reserves(n, now, false), c), Finishes(n, false), c);
      && w'.used == w.used[n := w.calls[n]] && w'.calls == w.calls
      && w'.store.receipts == w.store.receipts + [w.calls[n]] && w'.store.since == w.store.since
      && w'.store.actions == w.store.actions[n := Action(w.calls[n], now, false)]
      && w'.store.consumed.Keys == (if e.id == "" then {} else {(RequestId, e.id)}) && (forall x :: x in w'.store.consumed ==> w'.store.consumed[x] == n)
      && w'.store.ids == map[(RequestId, e.id) := now]
  {
    assert KeysOf(UseOf(e, now)) == if e.id == "" then {} else {(RequestId, e.id)};
    assert Stamped(map[], UseOf(e, now)) == map[(RequestId, e.id) := now];
  }

  lemma {:induction false} OnlyGoes(r: Receipt, before: Time)
    requires r.at < before
    ensures Kept([r], before, {}) == []
  {
    assert [r][1..] == [];
  }

  lemma {:induction false} UpkeepForgets(w: World, e: Envelope, used: Time, cutoff: Time, all: bool, now: Time, c: Config)
    requires w == Run(Start([], 0), UseAt(0, Signed(e), used), c) && Staleness(e, used, c).None?
    requires used < cutoff && (all || Since(now, c) > 0)
    ensures
      var w' := Run(w, Upkeep(cutoff, all), c);
      KnowsNothing(w', now, c) && 0 in w'.used && 1 !in w'.used && 1 !in w'.calls
  {
    hide Run, UseAt, Upkeep;
    UnknownIsUsed(Start([], 0), 0, e, used, c);
    UpkeepUnfolds(w, cutoff, all, c);
    assert w.store.receipts == [UseOf(e, used)] && w.store.actions[0] == Action(UseOf(e, used), used, false);
    var w1 := Apply(w, ForgetsFinished(cutoff, {}), c);
    assert w1.store.consumed == map[];
    var w2 := Apply(w1, ForgetsIds(cutoff, {}), c);
    assert w2.store.ids == map[];
    if all {
      OnlyGoes(UseOf(e, used), cutoff);
    }
  }

  lemma {:induction false} ForgottenIsUsedAgain(e: Envelope, used: Time, cutoff: Time, all: bool, now: Time, c: Config)
    requires Staleness(e, used, c).None? && Staleness(e, now, c).None? && used < cutoff && (all || Since(now, c) > 0)
    ensures Twice(Signed(e), used, cutoff, all, now, c)
  {
    var first, keep, again := UseAt(0, Signed(e), used), Upkeep(cutoff, all), UseAt(1, Signed(e), now);
    var w1 := Run(Start([], 0), first, c);
    var w2 := Run(w1, keep, c);
    UpkeepForgets(w1, e, used, cutoff, all, now, c);
    UnknownIsUsed(w2, 1, e, now, c);
    RunConcat(Start([], 0), first, keep + again, c);
    RunConcat(w1, keep, again, c);
  }

  lemma {:induction false} UseLeavesOthers(w: World, n: nat, q: Request, at: Time, m: nat, c: Config)
    requires m != n
    ensures m in Run(w, UseAt(n, q, at), c).used <==> m in w.used
  {
    UseUnfolds(w, n, q, at, c);
  }

  /** A call that is refused as it looks uses nothing. */
  lemma {:induction false} RefusedUsesNothing(w: World, n: nat, q: Request, at: Time, c: Config)
    requires n !in w.calls && n !in w.used && Apply(w, Looks(n, q, at, false), c) == w
    ensures n !in Run(w, UseAt(n, q, at), c).used
  {
    UseUnfolds(w, n, q, at, c);
  }

  /** Upkeep changes no call and no use, removes no receipt unless it is to, and no action made from the cutoff on. */
  lemma {:induction false} UpkeepKeeps(w: World, cutoff: Time, all: bool, c: Config)
    ensures
      var w' := Run(w, Upkeep(cutoff, all), c);
      && w'.used == w.used && w'.calls == w.calls && w'.store.since == w.store.since
      && (!all ==> w'.store.receipts == w.store.receipts)
      && (forall x :: x in w.store.consumed && w.store.consumed[x] in w.store.actions && w.store.actions[w.store.consumed[x]].created >= cutoff ==>
            x in w'.store.consumed)
  {
    hide Run, Upkeep, Kept;
    UpkeepUnfolds(w, cutoff, all, c);
  }

  /** An envelope fresh at both times is used a second time after upkeep exactly when it was used before the
      cutoff, and the receipt went too or is not read. */
  lemma {:induction false} TwiceExactlyWhen(e: Envelope, used: Time, cutoff: Time, all: bool, now: Time, c: Config)
    requires e.id != ""
    ensures Twice(Signed(e), used, cutoff, all, now, c) <==>
              Staleness(e, used, c).None? && Staleness(e, now, c).None? && used < cutoff && (all || Since(now, c) > 0)
  {
    hide Run, Apply, Upkeep, UseAt;
    var first, keep, again := UseAt(0, Signed(e), used), Upkeep(cutoff, all), UseAt(1, Signed(e), now);
    var w0 := Start([], 0);
    var w1 := Run(w0, first, c);
    var w2 := Run(w1, keep, c);
    RunConcat(w0, first, keep + again, c);
    RunConcat(w1, keep, again, c);
    UpkeepKeeps(w1, cutoff, all, c);
    UseLeavesOthers(w2, 1, Signed(e), now, 0, c);
    if Staleness(e, used, c).Some? {
      StaleIsRefused(w0, 0, e, used, c);
      RefusedUsesNothing(w0, 0, Signed(e), used, c);
    } else if used < cutoff && (all || Since(now, c) > 0) && Staleness(e, now, c).None? {
      ForgottenIsUsedAgain(e, used, cutoff, all, now, c);
    } else {
      UnknownIsUsed(w0, 0, e, used, c);
      if Staleness(e, now, c).Some? {
        StaleIsRefused(w2, 1, e, now, c);
      } else {
        KnownIsRefused(w2, e, used, now, c);
      }
      RefusedUsesNothing(w2, 1, Signed(e), now, c);
    }
  }

  lemma StaleIsRefused(w: World, n: nat, e: Envelope, now: Time, c: Config)
    requires Staleness(e, now, c).Some?
    ensures Apply(w, Looks(n, Signed(e), now, false), c) == w
  {}

  lemma KnownIsRefused(w: World, e: Envelope, used: Time, now: Time, c: Config)
    requires e.id != "" && Staleness(e, used, c).None? && Staleness(e, now, c).None?
    requires
      || (RequestId, e.id) in w.store.consumed
      || (w.store.receipts == [UseOf(e, used)] && w.store.since.Some? && Since(now, c) <= w.store.since.value)
    ensures Apply(w, Looks(1, Signed(e), now, false), c) == w
  {
    if (RequestId, e.id) !in w.store.consumed {
      StillFreshMeansInWindow(e, used, c, now, c);
      assert Names(w.store.receipts[0], RequestId, e.id);
    }
  }

  /** The bound is exact: after upkeep some envelope can be used again at `now` exactly when the cutoff is past the
      bound of `now` (and anything is fresh then at all); if the receipt stays, as long as the store no longer
      reads it. */
  lemma {:induction false} UsedAgainExactlyWhen(cutoff: Time, all: bool, now: Time, c: Config)
    ensures (exists e: Envelope, used: Time :: e.id != "" && Twice(Signed(e), used, cutoff, all, now, c)) <==>
              && 1 <= c.maxLifetime && 0 <= c.maxLifetime - 1 + c.maxClockSkew
              && cutoff > Bound(now, c) && (all || Since(now, c) > 0)
  {
    hide Twice;
    if 1 <= c.maxLifetime && 0 <= c.maxLifetime - 1 + c.maxClockSkew && cutoff > Bound(now, c) && (all || Since(now, c) > 0) {
      var e := Envelope("id", now + 1 - c.maxLifetime, now + 1);
      TwiceExactlyWhen(e, Bound(now, c), cutoff, all, now, c);
      assert Twice(Signed(e), Bound(now, c), cutoff, all, now, c);
    }
    forall e: Envelope, used: Time | e.id != "" && Twice(Signed(e), used, cutoff, all, now, c)
      ensures 1 <= c.maxLifetime && 0 <= c.maxLifetime - 1 + c.maxClockSkew && cutoff > Bound(now, c) && (all || Since(now, c) > 0)
    {
      TwiceExactlyWhen(e, used, cutoff, all, now, c);
    }
  }

  const DAY_MS := 24 * 60 * 60 * 1000

  /** An envelope is used, the clock is set eight days ahead for one upkeep, which keeps a week, and back: the same
      envelope is used again a minute after, though its receipt is still there. */
  lemma {:induction false} AClockSetAheadForgetsAUse(used: Time) returns (e: Envelope)
    requires used > DAY_MS
    ensures e.id != "" && Twice(Signed(e), used, used + 8 * DAY_MS - 7 * DAY_MS, false, used + 60_000, DEFAULT_CONFIG)
  {
    e := Envelope("request", used, used + 5 * 60_000);
    TwiceExactlyWhen(e, used, used + DAY_MS, false, used + 60_000, DEFAULT_CONFIG);
  }

  // ── What the lookup sees ──

  /** A receipt from before the index is there until it is removed by age; a later one is named by the index until
      that forgets its time. */
  predicate WrittenOk(w: World, k: nat)
    requires k < |w.written|
  {
    var r := w.written[k];
    if k < |w.past| then
      (r in w.store.receipts || Passed(w.removed, r.at)) && w.store.since.Some? && r.at <= w.store.since.value
    else
      Passed(w.cutoff, r.at) || forall x :: x in IdsOf(r) ==> x in w.store.ids && w.store.ids[x] >= r.at
  }

  ghost predicate IndexInv(w: World) {
    && |w.past| <= |w.written|
    && (forall k :: 0 <= k < |w.written| ==> WrittenOk(w, k))
    && (forall x :: x in w.store.ids ==> NamedBy(w.written, x))
    && (forall r :: r in w.store.receipts ==> r in w.written)
  }

  lemma FinishKeepsIndex(w: World, n: nat, held: bool, c: Config)
    requires IndexInv(w) && n in w.store.actions
    ensures IndexInv(Apply(w, Finishes(n, held), c))
  {
    hide IdsOf;
    var w', r := Apply(w, Finishes(n, held), c), w.store.actions[n].receipt;
    assert w'.written[|w.written|] == r;
    forall k | 0 <= k < |w'.written| ensures WrittenOk(w', k) {
      assert k < |w.written| ==> WrittenOk(w, k) && w'.written[k] == w.written[k];
    }
    forall x | x in w'.store.ids ensures NamedBy(w'.written, x) {
      if x !in IdsOf(r) {
        var i :| 0 <= i < |w.written| && x in IdsOf(w.written[i]);
        assert w'.written[i] == w.written[i];
      }
    }
  }

  lemma ForgettingKeepsIndex(w: World, e: Event, c: Config)
    requires IndexInv(w) && (e.ForgetsFinished? || e.ForgetsIds? || e.RemovesReceipts?)
    ensures IndexInv(Apply(w, e, c))
  {
    hide IdsOf, Kept, NamedBy;
    var w' := Apply(w, e, c);
    if e.RemovesReceipts? {
      forall r ensures r in w'.store.receipts <==> r in w.store.receipts && (r.at >= e.before || r in e.left) {
        WhatStays(w.store.receipts, e.before, e.left, r);
      }
    }
    forall k | 0 <= k < |w'.written| ensures WrittenOk(w', k) {
      assert WrittenOk(w, k);
    }
  }

  lemma ApplyKeepsIndex(w: World, e: Event, c: Config)
    requires IndexInv(w)
    ensures IndexInv(Apply(w, e, c))
  {
    hide NamedBy;
    match e
    case Finishes(n, held) => if n in w.store.actions { FinishKeepsIndex(w, n, held, c); }
    case Looks(_, _, _, _) => SameIndex(w, Apply(w, e, c));
    case Reserves(_, _, _) => SameIndex(w, Apply(w, e, c));
    case _ => ForgettingKeepsIndex(w, e, c);
  }

  lemma SameIndex(w: World, w': World)
    requires IndexInv(w) && w'.written == w.written && w'.past == w.past && w'.cutoff == w.cutoff && w'.removed == w.removed
    requires w'.store.ids == w.store.ids && w'.store.receipts == w.store.receipts && w'.store.since == w.store.since
    ensures IndexInv(w')
  {
    hide NamedBy, IdsOf;
    forall k | 0 <= k < |w'.written| ensures WrittenOk(w', k) {
      assert WrittenOk(w, k);
    }
  }

  lemma {:induction false} RunKeepsIndex(w: World, events: seq<Event>, c: Config)
    requires IndexInv(w)
    ensures IndexInv(Run(w, events, c))
    decreases events
  {
    hide IndexInv, Apply;
    if events != [] {
      ApplyKeepsIndex(w, events[0], c);
      RunKeepsIndex(Apply(w, events[0], c), events[1..], c);
    }
  }

  lemma StartIsIndexed(past: seq<Receipt>, made: Time)
    ensures IndexInv(Start(past, made))
  {
    forall k | 0 <= k < |past| ensures WrittenOk(Start(past, made), k) {
      NewestIsLast(past, k);
    }
  }

  /** In every run: while upkeep has removed nothing from `since` on, the lookup finds every consumed id and every
      use from `since` on that was ever written; and whatever was removed, it answers yes only for an id that is
      consumed or that some receipt ever written names. */
  lemma {:induction false} IndexedLookupIsRight(past: seq<Receipt>, made: Time, events: seq<Event>, c: Config, kind: Kind, id: string, since: Time)
    ensures
      var w := Run(Start(past, made), events, c);
      && ((kind, id) in w.store.consumed ==> IndexedUse(w.store, kind, id, since))
      && (!Passed(w.cutoff, since) && (past == [] || !Passed(w.removed, since)) && UsedSince(w.written, kind, id, since) ==>
            IndexedUse(w.store, kind, id, since))
      && (IndexedUse(w.store, kind, id, since) ==> (kind, id) in w.store.consumed || UsedEver(w.written, kind, id))
  {
    hide IndexInv, UsedSince, UsedEver, IndexedUse, Run;
    StartIsIndexed(past, made);
    RunKeepsIndex(Start(past, made), events, c);
    PastStays(Start(past, made), events, c);
    var w := Run(Start(past, made), events, c);
    assert (kind, id) in w.store.consumed ==> IndexedUse(w.store, kind, id, since) by {
      ConsumedIsUsed(w.store, kind, id, since);
    }
    if !Passed(w.cutoff, since) && (past == [] || !Passed(w.removed, since)) && UsedSince(w.written, kind, id, since) {
      RecentIsFound(w, kind, id, since);
    }
    if IndexedUse(w.store, kind, id, since) {
      FoundIsNamed(w, kind, id, since);
    }
  }

  lemma ConsumedIsUsed(s: Store, kind: Kind, id: string, since: Time)
    ensures (kind, id) in s.consumed ==> IndexedUse(s, kind, id, since)
  {}

  lemma RecentIsFound(w: World, kind: Kind, id: string, since: Time)
    requires IndexInv(w) && UsedSince(w.written, kind, id, since)
    requires !Passed(w.cutoff, since) && (w.past == [] || !Passed(w.removed, since))
    ensures IndexedUse(w.store, kind, id, since)
  {
    var k :| 0 <= k < |w.written| && w.written[k].at >= since && Names(w.written[k], kind, id);
    assert WrittenOk(w, k) && (kind, id) in IdsOf(w.written[k]);
    if k < |w.past| {
      var i :| 0 <= i < |w.store.receipts| && w.store.receipts[i] == w.written[k];
      assert Names(w.store.receipts[i], kind, id);
    }
  }

  lemma FoundIsNamed(w: World, kind: Kind, id: string, since: Time)
    requires IndexInv(w) && IndexedUse(w.store, kind, id, since)
    ensures (kind, id) in w.store.consumed || UsedEver(w.written, kind, id)
  {
    hide WrittenOk;
    if (kind, id) in w.store.ids {
      assert NamedBy(w.written, (kind, id));
      var k :| 0 <= k < |w.written| && (kind, id) in IdsOf(w.written[k]);
      assert Names(w.written[k], kind, id);
    } else if (kind, id) !in w.store.consumed {
      var i :| 0 <= i < |w.store.receipts| && w.store.receipts[i].at >= since && Names(w.store.receipts[i], kind, id);
      assert w.store.receipts[i] in w.written;
      var k :| 0 <= k < |w.written| && w.written[k] == w.store.receipts[i];
      assert Names(w.written[k], kind, id);
    }
  }

  // ── What is recorded and what is taken ──

  predicate Carries(r: Receipt, x: Key) {
    match x.0
    case RequestId => r.agent.Some? && r.agent.value.id == x.1
    case ApprovalId => r.approval.Some? && r.approval.value.id == x.1
  }

  /** A reservation records its action, made then and held or not, and gives it each id its receipt carries, empty ones
      apart; finalizing adds the receipt, records whether the action is still held, and stamps each id carried. */
  lemma WhatIsRecorded(s: Store, n: nat, r: Receipt, created: Time, held: bool, finally: bool)
    ensures
      var reserved := WithReserved(s, n, r, created, held);
      var finished := WithFinished(reserved, n, finally);
      && n in reserved.actions && reserved.actions[n] == Action(r, created, held) && reserved.receipts == s.receipts
      && (forall m :: m != n ==> (m in reserved.actions <==> m in s.actions) && (m in s.actions ==> reserved.actions[m] == s.actions[m]))
      && (forall x :: x in reserved.consumed <==> x in s.consumed || (Carries(r, x) && x.1 != ""))
      && (forall x :: Carries(r, x) && x.1 != "" ==> reserved.consumed[x] == n)
      && finished.receipts == s.receipts + [r] && finished.actions == reserved.actions[n := Action(r, created, finally)]
      && finished.consumed == reserved.consumed && finished.since == s.since
      && (forall x :: x in finished.ids <==> x in s.ids || Carries(r, x))
      && (forall x :: Carries(r, x) ==> finished.ids[x] >= r.at && (x !in s.ids ==> finished.ids[x] == r.at))
      && (forall x :: x in s.ids ==> finished.ids[x] >= s.ids[x] && (!Carries(r, x) ==> finished.ids[x] == s.ids[x]))
  {
    forall x ensures Carries(r, x) <==> x in IdsOf(r) {
      assert x == (x.0, x.1);
    }
  }

  /** Upkeep takes just the actions that are not held, were made before its time and were not left over, and with each
      the ids it consumed: no action that is held, and no id of one that stays. */
  lemma WhatUpkeepTakes(s: Store, before: Time, stay: set<nat>)
    ensures
      var s' := Forgotten(s, before, stay);
      && (forall n :: n in s'.actions <==> n in s.actions && (s.actions[n].held || s.actions[n].created >= before || n in stay))
      && (forall n :: n in s'.actions ==> s'.actions[n] == s.actions[n])
      && (forall x :: x in s'.consumed <==> x in s.consumed && (s.consumed[x] in s.actions ==> s.consumed[x] in s'.actions))
      && (forall x :: x in s'.consumed ==> s'.consumed[x] == s.consumed[x])
      && s'.receipts == s.receipts && s'.ids == s.ids && s'.since == s.since
  {}

  predicate IsFinish(e: Event, n: nat) {
    e.Finishes? && e.n == n
  }

  predicate HeldWithIts(s: Store, n: nat, r: Receipt) {
    && n in s.actions && s.actions[n].held && s.actions[n].receipt == r
    && forall x :: x in KeysOf(r) ==> x in s.consumed && s.consumed[x] == n
  }

  lemma StepLeavesTheHeld(w: World, e: Event, c: Config, n: nat, r: Receipt)
    requires HeldWithIts(w.store, n, r) && n in w.used && !IsFinish(e, n)
    ensures HeldWithIts(Apply(w, e, c).store, n, r) && n in Apply(w, e, c).used
  {
    hide UsedBefore, Authenticate, IdsOf, Kept, Stamped;
    if e.ForgetsFinished? {
      WhatUpkeepTakes(w.store, e.before, e.stay);
    }
  }

  /** In any run, while an action is held it keeps its row and the ids it consumed, whatever upkeep and other calls
      do: only its own finalization can let go of it. */
  lemma {:induction false} HeldIsKept(w: World, events: seq<Event>, c: Config, n: nat, r: Receipt)
    requires HeldWithIts(w.store, n, r) && n in w.used && forall i :: 0 <= i < |events| ==> !IsFinish(events[i], n)
    ensures HeldWithIts(Run(w, events, c).store, n, r)
    decreases events
  {
    hide Apply, HeldWithIts;
    if events != [] {
      StepLeavesTheHeld(w, events[0], c, n, r);
      forall i | 0 <= i < |events[1..]| ensures !IsFinish(events[1..][i], n) {
        assert events[1..][i] == events[i + 1];
      }
      HeldIsKept(Apply(w, events[0], c), events[1..], c, n, r);
    }
  }

  /** The index is complete from the start when there were no receipts as it was made, and else from when it was made or
      from the last of them, whichever is later. */
  lemma {:induction false} IndexIsCompleteFrom(past: seq<Receipt>, made: Time, from: Time)
    ensures
      Start(past, made).store.since == Some(from)
      <==> if past == [] then from == 0
           else (forall i | 0 <= i < |past| :: past[i].at <= from) && made <= from && (from == made || exists i | 0 <= i < |past| :: past[i].at == from)
  {
    if past != [] {
      NewestIsThere(past);
      forall i | 0 <= i < |past| ensures past[i].at <= Newest(past) {
        NewestIsLast(past, i);
      }
    }
  }

  lemma {:induction false} NewestIsThere(receipts: seq<Receipt>)
    requires receipts != []
    ensures exists i | 0 <= i < |receipts| :: receipts[i].at == Newest(receipts)
    decreases |receipts|
  {
    var n := |receipts| - 1;
    if n > 0 && Newest(receipts) != receipts[n].at {
      NewestIsThere(receipts[..n]);
      var i :| 0 <= i < n && receipts[..n][i].at == Newest(receipts[..n]);
      assert receipts[i].at == Newest(receipts);
    } else {
      assert receipts[n].at == Newest(receipts);
    }
  }
}
