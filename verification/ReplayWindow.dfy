/** Single use of signed authorizations: freshness, and the bounded lookup of ids already used. Signatures, keys
    and hashes are given as checked or not. */
module ReplayWindow {
  import opened Foundations

  /** A signed intent authorization or approval: its id and its lifetime. */
  datatype Envelope = Envelope(id: string, issued: Time, expires: Time)

  datatype Config = Config(maxLifetime: int, maxClockSkew: int)

  const DEFAULT_CONFIG := Config(5 * 60_000, 30_000)

  const REPLAY_MARGIN_MS := 60 * 60 * 1000

  /** What a stored receipt says was used, and when. */
  datatype Receipt = Receipt(at: Time, agent: Option<Envelope>, approval: Option<Envelope>)

  /** `wellFormed`, `agentHolds` and `approvalHolds` stand for the checks of shape, hash, signer, key and
      signature. */
  datatype Request = Request(wellFormed: bool, agent: Envelope, agentHolds: bool, approval: Option<Envelope>, approvalHolds: bool)

  datatype Problem = NotSigned | IssuedInFuture | Expired | BadLifetime | AlreadyUsed | DoesNotHold

  /** `assertFresh`. */
  function Staleness(e: Envelope, now: Time, c: Config): Option<Problem> {
    if e.issued > now + c.maxClockSkew then Some(IssuedInFuture)
    else if e.expires <= now then Some(Expired)
    else if e.expires <= e.issued || e.expires - e.issued > c.maxLifetime then Some(BadLifetime)
    else None
  }

  datatype Outcome = Accepted(receipt: Receipt) | Denied(problem: Problem)

  /** `authenticateRequest`, given the ids already used. */
  function Authenticate(q: Request, now: Time, c: Config, requestIds: set<string>, approvalIds: set<string>): Outcome {
    if !q.wellFormed then Denied(NotSigned)
    else if Staleness(q.agent, now, c).Some? then Denied(Staleness(q.agent, now, c).value)
    else if q.agent.id in requestIds then Denied(AlreadyUsed)
    else if !q.agentHolds then Denied(DoesNotHold)
    else if q.approval.None? then Accepted(Receipt(now, Some(q.agent), None))
    else if Staleness(q.approval.value, now, c).Some? then Denied(Staleness(q.approval.value, now, c).value)
    else if q.approval.value.id in approvalIds then Denied(AlreadyUsed)
    else if !q.approvalHolds then Denied(DoesNotHold)
    else Accepted(Receipt(now, Some(q.agent), q.approval))
  }

  datatype Kind = RequestId | ApprovalId

  predicate Names(r: Receipt, kind: Kind, id: string) {
    match kind
    case RequestId => r.agent.Some? && r.agent.value.id == id
    case ApprovalId => r.approval.Some? && r.approval.value.id == id
  }

  /** Some receipt from `since` on names the id. */
  predicate UsedSince(log: seq<Receipt>, kind: Kind, id: string, since: Time) {
    exists i | 0 <= i < |log| :: log[i].at >= since && Names(log[i], kind, id)
  }

  function IdsOf(r: Receipt): set<(Kind, string)> {
    (if r.agent.Some? then {(RequestId, r.agent.value.id)} else {})
    + (if r.approval.Some? then {(ApprovalId, r.approval.value.id)} else {})
  }

  predicate UsedEver(log: seq<Receipt>, kind: Kind, id: string) {
    exists i | 0 <= i < |log| :: Names(log[i], kind, id)
  }

  function Since(now: Time, c: Config): Time {
    now - (c.maxLifetime + c.maxClockSkew + REPLAY_MARGIN_MS)
  }

  /** What the store holds: its receipts, and every id an action has consumed, finished or not. */
  datatype Book = Book(receipts: seq<Receipt>, consumed: set<(Kind, string)>)

  const EMPTY_BOOK := Book([], {})

  /** A consumed id is used however old, and so is one a receipt names from `since` on. */
  predicate Used(b: Book, kind: Kind, id: string, since: Time) {
    (kind, id) in b.consumed || UsedSince(b.receipts, kind, id, since)
  }

  function UsedIds(b: Book, q: Request, now: Time, c: Config): (set<string>, set<string>) {
    var since := Since(now, c);
    (if q.agent.id != "" && Used(b, RequestId, q.agent.id, since) then {q.agent.id} else {},
     if q.approval.Some? && q.approval.value.id != "" && Used(b, ApprovalId, q.approval.value.id, since)
     then {q.approval.value.id} else {})
  }

  function AllIds(log: seq<Receipt>): (set<string>, set<string>) {
    (set r | r in log && r.agent.Some? && r.agent.value.id != "" :: r.agent.value.id,
     set r | r in log && r.approval.Some? && r.approval.value.id != "" :: r.approval.value.id)
  }

  /** One call: with a bounded lookup, or over the whole log. */
  function Call(b: Book, q: Request, now: Time, c: Config, bounded: bool): Outcome {
    var used := if bounded then UsedIds(b, q, now, c) else AllIds(b.receipts);
    Authenticate(q, now, c, used.0, used.1)
  }

  /** What an accepted call adds: its receipt, and its ids to the consumed ones. */
  function WithUse(b: Book, r: Receipt): Book {
    Book(b.receipts + [r], b.consumed + set x | x in IdsOf(r) && x.1 != "")
  }

  // ── What is accepted ──

  /** The envelope has begun, up to the skew, has not ended, and lives a positive time within the limit. */
  predicate InItsTime(e: Envelope, now: Time, c: Config) {
    && e.issued - c.maxClockSkew <= now < e.expires
    && 0 < e.expires - e.issued <= c.maxLifetime
  }

  /** An id nothing holds as used: no action consumed it and no receipt named it in the last lifetime, skew and
      hour; or, over the whole log, no receipt named it at all. An empty id is never held as used. */
  predicate Unused(b: Book, kind: Kind, id: string, now: Time, c: Config, bounded: bool) {
    id == "" ||
    (if bounded then
       && (kind, id) !in b.consumed
       && forall i :: 0 <= i < |b.receipts| && b.receipts[i].at >= now - c.maxLifetime - c.maxClockSkew - 3_600_000 ==> !NamesIt(b.receipts[i], kind, id)
     else forall i :: 0 <= i < |b.receipts| ==> !NamesIt(b.receipts[i], kind, id))
  }

  predicate NamesIt(r: Receipt, kind: Kind, id: string) {
    var e := if kind == RequestId then r.agent else r.approval;
    e.Some? && e.value.id == id
  }

  /** Everything a request must show to be accepted. */
  predicate InOrder(b: Book, q: Request, now: Time, c: Config, bounded: bool) {
    && q.wellFormed && q.agentHolds && InItsTime(q.agent, now, c) && Unused(b, RequestId, q.agent.id, now, c, bounded)
    && (q.approval.Some? ==>
          && q.approvalHolds && InItsTime(q.approval.value, now, c)
          && Unused(b, ApprovalId, q.approval.value.id, now, c, bounded))
  }

  lemma UnusedIs(b: Book, q: Request, now: Time, c: Config, bounded: bool)
    ensures
      var used := if bounded then UsedIds(b, q, now, c) else AllIds(b.receipts);
      && (q.agent.id in used.0 <==> !Unused(b, RequestId, q.agent.id, now, c, bounded))
      && (q.approval.Some? ==> (q.approval.value.id in used.1 <==> !Unused(b, ApprovalId, q.approval.value.id, now, c, bounded)))
  {
    forall i, kind, id | 0 <= i < |b.receipts| ensures Names(b.receipts[i], kind, id) <==> NamesIt(b.receipts[i], kind, id) {}
    if !bounded {
      NamedIsInAll(b.receipts, RequestId, q.agent.id);
      if q.approval.Some? {
        NamedIsInAll(b.receipts, ApprovalId, q.approval.value.id);
      }
    }
  }

  lemma NamedIsInAll(log: seq<Receipt>, kind: Kind, id: string)
    ensures
      var all := if kind == RequestId then AllIds(log).0 else AllIds(log).1;
      id in all <==> id != "" && exists i :: 0 <= i < |log| && NamesIt(log[i], kind, id)
  {
    forall i | 0 <= i < |log| ensures log[i] in log {}
    forall r | r in log ensures exists i :: 0 <= i < |log| && log[i] == r {}
  }

  /** What a refusal says of an envelope, or of the request as a whole. */
  predicate IsSo(problem: Problem, b: Book, q: Request, now: Time, c: Config, bounded: bool) {
    match problem
    case NotSigned => !q.wellFormed
    case IssuedInFuture => q.agent.issued - c.maxClockSkew > now || (q.approval.Some? && q.approval.value.issued - c.maxClockSkew > now)
    case Expired => q.agent.expires <= now || (q.approval.Some? && q.approval.value.expires <= now)
    case BadLifetime => BadLife(q.agent, c) || (q.approval.Some? && BadLife(q.approval.value, c))
    case AlreadyUsed =>
      || !Unused(b, RequestId, q.agent.id, now, c, bounded)
      || (q.approval.Some? && !Unused(b, ApprovalId, q.approval.value.id, now, c, bounded))
    case DoesNotHold => !q.agentHolds || (q.approval.Some? && !q.approvalHolds)
  }

  predicate BadLife(e: Envelope, c: Config) {
    e.expires - e.issued <= 0 || e.expires - e.issued > c.maxLifetime
  }

  /** A call is accepted exactly when everything is in order, and then its receipt says when and for which
      envelopes; what a refusal says is so; and it is refused as already used exactly when one of its ids is, and
      nothing before that is wrong. */
  lemma AcceptedExactlyWhen(b: Book, q: Request, now: Time, c: Config, bounded: bool)
    ensures
      var r := Call(b, q, now, c, bounded);
      && (r.Accepted? <==> InOrder(b, q, now, c, bounded))
      && (r.Accepted? ==> r.receipt == Receipt(now, Some(q.agent), q.approval))
      && (r.Denied? ==> IsSo(r.problem, b, q, now, c, bounded))
      && (r == Denied(AlreadyUsed) <==>
            && q.wellFormed && InItsTime(q.agent, now, c)
            && (!Unused(b, RequestId, q.agent.id, now, c, bounded)
                || (q.agentHolds && q.approval.Some? && InItsTime(q.approval.value, now, c)
                    && !Unused(b, ApprovalId, q.approval.value.id, now, c, bounded))))
  {
    hide Unused, UsedIds, AllIds;
    UnusedIs(b, q, now, c, bounded);
  }

  class ReceiptLog {
    var receipts: seq<Receipt>
    var consumed: set<(Kind, string)>

    function Value(): Book
      reads this
    {
      Book(receipts, consumed)
    }

    constructor ()
      ensures Value() == EMPTY_BOOK
    {
      receipts, consumed := [], {};
    }

    method AuthorizationUsed(kind: Kind, id: string, since: Time) returns (used: bool)
      ensures used == Used(Value(), kind, id, since)
    {
      if (kind, id) in consumed {
        return true;
      }
      for i := 0 to |receipts|
        invariant forall j :: 0 <= j < i ==> !(receipts[j].at >= since && Names(receipts[j], kind, id))
      {
        if receipts[i].at >= since && Names(receipts[i], kind, id) {
          return true;
        }
      }
      return false;
    }

    /** `usedAuthorizations`. */
    method UsedAuthorizations(q: Request, now: Time, c: Config, bounded: bool) returns (requestIds: set<string>, approvalIds: set<string>)
      ensures (requestIds, approvalIds) == if bounded then UsedIds(Value(), q, now, c) else AllIds(receipts)
    {
      requestIds, approvalIds := {}, {};
      if bounded {
        var since := now - (c.maxLifetime + c.maxClockSkew + REPLAY_MARGIN_MS);
        if q.agent.id != "" {
          var used := AuthorizationUsed(RequestId, q.agent.id, since);
          requestIds := if used then {q.agent.id} else {};
        }
        if q.approval.Some? && q.approval.value.id != "" {
          var used := AuthorizationUsed(ApprovalId, q.approval.value.id, since);
          approvalIds := if used then {q.approval.value.id} else {};
        }
        return;
      }
      for i := 0 to |receipts|
        invariant requestIds == AllIds(receipts[..i]).0
        invariant approvalIds == AllIds(receipts[..i]).1
      {
        var r := receipts[i];
        assert receipts[..i + 1] == receipts[..i] + [r];
        if r.agent.Some? && r.agent.value.id != "" {
          requestIds := requestIds + {r.agent.value.id};
        }
        if r.approval.Some? && r.approval.value.id != "" {
          approvalIds := approvalIds + {r.approval.value.id};
        }
      }
      assert receipts[..|receipts|] == receipts;
    }

    method Handle(q: Request, now: Time, c: Config, bounded: bool) returns (r: Outcome)
      modifies this
      ensures r == Call(old(Value()), q, now, c, bounded)
      ensures r.Accepted? <==> InOrder(old(Value()), q, now, c, bounded)
      ensures r.Accepted? ==> r.receipt == Receipt(now, Some(q.agent), q.approval)
      ensures Value() == if r.Accepted? then WithUse(old(Value()), r.receipt) else old(Value())
    {
      var requestIds, approvalIds := UsedAuthorizations(q, now, c, bounded);
      r := Authenticate(q, now, c, requestIds, approvalIds);
      AcceptedExactlyWhen(Value(), q, now, c, bounded);
      if r.Accepted? {
        receipts := receipts + [r.receipt];
        consumed := consumed + set x | x in IdsOf(r.receipt) && x.1 != "";
      }
    }
  }

  // ── The window is wide enough ──

  /** The longest life both configurations accept. */
  function SharedLifetime(earlier: Config, c: Config): int {
    Min(earlier.maxLifetime, c.maxLifetime)
  }

  /** What was accepted at `used` and is fresh again at `now` was used inside the window, whichever way the clock
      went and however the configuration changed, as long as the skew then allowed is not over an hour more
      than the one allowed now, or more by what the lifetime has been raised since. */
  lemma StillFreshMeansInWindow(e: Envelope, used: Time, earlier: Config, now: Time, c: Config)
    requires Staleness(e, used, earlier).None? && Staleness(e, now, c).None?
    requires SharedLifetime(earlier, c) - 1 + earlier.maxClockSkew <= c.maxLifetime + c.maxClockSkew + REPLAY_MARGIN_MS
    ensures used >= Since(now, c)
  {}

  /** That bound is exact, unless no envelope is ever fresh now: with a larger skew some envelope is accepted
      before the window and still fresh. */
  lemma WindowIsExact(earlier: Config, c: Config)
    ensures
      var life := SharedLifetime(earlier, c);
      (forall e, used, now :: Staleness(e, used, earlier).None? && Staleness(e, now, c).None? ==> used >= Since(now, c))
      <==>
      || life < 1 || life - 1 + c.maxClockSkew < 0
      || life - 1 + earlier.maxClockSkew <= c.maxLifetime + c.maxClockSkew + REPLAY_MARGIN_MS
  {
    var life := SharedLifetime(earlier, c);
    if life - 1 + earlier.maxClockSkew > c.maxLifetime + c.maxClockSkew + REPLAY_MARGIN_MS && life >= 1 && life - 1 + c.maxClockSkew >= 0 {
      var e := Envelope("", 0, life);
      var used, now := -earlier.maxClockSkew, life - 1;
      assert Staleness(e, used, earlier).None? && Staleness(e, now, c).None? && used < Since(now, c);
    }
  }

  /** A skew of two hours cut to the default: an envelope accepted two hours early is fresh again outside the
      window. */
  lemma ASkewCutByTwoHoursLosesAUse()
    ensures DEFAULT_CONFIG == Config(300_000, 30_000)
    ensures
      var earlier, e := Config(5 * 60_000, 2 * REPLAY_MARGIN_MS), Envelope("request", 0, 5 * 60_000);
      var used, now := -2 * REPLAY_MARGIN_MS, 4 * 60_000;
      && Staleness(e, used, earlier).None? && Staleness(e, now, DEFAULT_CONFIG).None? && used < Since(now, DEFAULT_CONFIG)
  {}

  // ── Bounded lookup and full scan ──

  predicate FreshThen(r: Receipt, c: Config) {
    && (r.agent.Some? ==> Staleness(r.agent.value, r.at, c).None?)
    && (r.approval.Some? ==> Staleness(r.approval.value, r.at, c).None?)
  }

  predicate Shares(a: Receipt, b: Receipt) {
    (a.agent.Some? && a.agent == b.agent && a.agent.value.id != "") || (a.approval.Some? && a.approval == b.approval && a.approval.value.id != "")
  }

  function ConsumedIds(b: Book, kind: Kind): set<string> {
    set x | x in b.consumed && x.0 == kind && x.1 != "" :: x.1
  }

  /** For a request whose ids receipts only ever name for the same signed envelopes, the bounded lookup decides
      as a scan of the whole log and of every consumed id would; so it decides as the scan of the log does when
      receipts name every consumed id. */
  lemma BoundedDecidesLikeTheFullScan(b: Book, q: Request, now: Time, c: Config)
    requires forall i :: 0 <= i < |b.receipts| ==> FreshThen(b.receipts[i], c)
    requires forall i :: 0 <= i < |b.receipts| && Names(b.receipts[i], RequestId, q.agent.id) ==> b.receipts[i].agent == Some(q.agent)
    requires q.approval.Some? ==>
               forall i :: 0 <= i < |b.receipts| && Names(b.receipts[i], ApprovalId, q.approval.value.id) ==> b.receipts[i].approval == q.approval
    ensures
      var all := AllIds(b.receipts);
      && Call(b, q, now, c, true) == Authenticate(q, now, c, all.0 + ConsumedIds(b, RequestId), all.1 + ConsumedIds(b, ApprovalId))
      && (ConsumedIds(b, RequestId) <= all.0 && ConsumedIds(b, ApprovalId) <= all.1 ==> Call(b, q, now, c, true) == Call(b, q, now, c, false))
  {
    var all := AllIds(b.receipts);
    AskedAlike(b.receipts, RequestId, q.agent, now, c);
    assert q.agent.id in all.0 <==> q.agent.id != "" && UsedEver(b.receipts, RequestId, q.agent.id);
    ConsumedIs(b, RequestId, q.agent.id);
    if q.approval.Some? {
      AskedAlike(b.receipts, ApprovalId, q.approval.value, now, c);
      assert q.approval.value.id in all.1 <==> q.approval.value.id != "" && UsedEver(b.receipts, ApprovalId, q.approval.value.id);
      ConsumedIs(b, ApprovalId, q.approval.value.id);
    }
  }

  lemma ConsumedIs(b: Book, kind: Kind, id: string)
    ensures id in ConsumedIds(b, kind) <==> id != "" && (kind, id) in b.consumed
  {
    assert (kind, id).0 == kind && (kind, id).1 == id;
  }

  lemma AskedAlike(log: seq<Receipt>, kind: Kind, e: Envelope, now: Time, c: Config)
    requires forall i :: 0 <= i < |log| ==> FreshThen(log[i], c)
    requires forall i :: 0 <= i < |log| && Names(log[i], kind, e.id) ==>
               if kind.RequestId? then log[i].agent == Some(e) else log[i].approval == Some(e)
    ensures Staleness(e, now, c).None? ==> (UsedSince(log, kind, e.id, Since(now, c)) <==> UsedEver(log, kind, e.id))
  {
    if Staleness(e, now, c).None? && UsedEver(log, kind, e.id) {
      var i :| 0 <= i < |log| && Names(log[i], kind, e.id);
      assert FreshThen(log[i], c);
      StillFreshMeansInWindow(e, log[i].at, c, now, c);
    }
  }

  predicate NamedBy(receipts: seq<Receipt>, x: (Kind, string)) {
    exists i | 0 <= i < |receipts| :: x in IdsOf(receipts[i])
  }

  /** Calls one after another, each finished before the next. */
  function Alone(b: Book, requests: seq<(Request, Time)>, c: Config, bounded: bool): Book
    decreases requests
  {
    if requests == [] then b
    else
      var r := Call(b, requests[0].0, requests[0].1, c, bounded);
      Alone(if r.Accepted? then WithUse(b, r.receipt) else b, requests[1..], c, bounded)
  }

  predicate AllNamed(b: Book) {
    forall x :: x in b.consumed ==> NamedBy(b.receipts, x)
  }

  lemma {:induction false} AloneKeepsNamed(b: Book, requests: seq<(Request, Time)>, c: Config, bounded: bool)
    requires AllNamed(b)
    ensures AllNamed(Alone(b, requests, c, bounded))
    decreases requests
  {
    if requests != [] {
      var r := Call(b, requests[0].0, requests[0].1, c, bounded);
      var b' := if r.Accepted? then WithUse(b, r.receipt) else b;
      forall x | x in b'.consumed ensures NamedBy(b'.receipts, x) {
        if x in b.consumed {
          var i :| 0 <= i < |b.receipts| && x in IdsOf(b.receipts[i]);
          assert b'.receipts[i] == b.receipts[i];
        } else {
          assert x in IdsOf(b'.receipts[|b.receipts|]);
        }
      }
      AloneKeepsNamed(b', requests[1..], c, bounded);
    }
  }

  /** Calls that are never interrupted consume only what their receipts name. */
  lemma {:induction false} UninterruptedConsumesWhatReceiptsName(requests: seq<(Request, Time)>, c: Config, bounded: bool)
    ensures
      var b := Alone(EMPTY_BOOK, requests, c, bounded);
      ConsumedIds(b, RequestId) <= AllIds(b.receipts).0 && ConsumedIds(b, ApprovalId) <= AllIds(b.receipts).1
  {
    AloneKeepsNamed(EMPTY_BOOK, requests, c, bounded);
    var b := Alone(EMPTY_BOOK, requests, c, bounded);
    forall kind, id | (kind, id) in b.consumed && id != ""
      ensures if kind.RequestId? then id in AllIds(b.receipts).0 else id in AllIds(b.receipts).1
    {
      assert NamedBy(b.receipts, (kind, id));
      var i :| 0 <= i < |b.receipts| && (kind, id) in IdsOf(b.receipts[i]);
      assert b.receipts[i] in b.receipts;
    }
    ConsumedAre(b);
  }

  lemma ConsumedAre(b: Book)
    ensures forall kind, id :: id in ConsumedIds(b, kind) ==> id != "" && (kind, id) in b.consumed
  {
    forall kind, id | id in ConsumedIds(b, kind) ensures id != "" && (kind, id) in b.consumed {
      ConsumedIs(b, kind, id);
    }
  }

  lemma {:induction false} AloneKeepsConsumed(b: Book, requests: seq<(Request, Time)>, c: Config, bounded: bool)
    ensures b.consumed <= Alone(b, requests, c, bounded).consumed
    decreases requests
  {
    if requests != [] {
      var r := Call(b, requests[0].0, requests[0].1, c, bounded);
      AloneKeepsConsumed(if r.Accepted? then WithUse(b, r.receipt) else b, requests[1..], c, bounded);
    }
  }

  /** Whatever calls came before and come after one that is accepted, none is accepted with the same request id or
      the same approval id again, at any time and under any configuration, by the bounded lookup. */
  lemma {:induction false} AcceptedForGood(
    b: Book, q: Request, now: Time, c: Config, bounded: bool, requests: seq<(Request, Time)>, again: Request, at': Time, c': Config)
    requires Call(b, q, now, c, bounded).Accepted?
    requires
      || (again.agent.id == q.agent.id && q.agent.id != "")
      || (again.approval.Some? && q.approval.Some? && again.approval.value.id == q.approval.value.id && q.approval.value.id != "")
    ensures !Call(Alone(WithUse(b, Call(b, q, now, c, bounded).receipt), requests, c, bounded), again, at', c', true).Accepted?
  {
    hide Unused, Call, Authenticate, InItsTime;
    var after := WithUse(b, Call(b, q, now, c, bounded).receipt);
    var later := Alone(after, requests, c, bounded);
    AcceptedExactlyWhen(b, q, now, c, bounded);
    AloneKeepsConsumed(after, requests, c, bounded);
    AcceptedExactlyWhen(later, again, at', c', true);
    assert (RequestId, q.agent.id) in after.consumed || q.agent.id == "";
    assert q.approval.Some? ==> (ApprovalId, q.approval.value.id) in after.consumed || q.approval.value.id == "";
    ConsumedIsUsed(later, RequestId, q.agent.id, at', c');
    if q.approval.Some? {
      ConsumedIsUsed(later, ApprovalId, q.approval.value.id, at', c');
    }
  }

  lemma ConsumedIsUsed(b: Book, kind: Kind, id: string, now: Time, c: Config)
    ensures (kind, id) in b.consumed && id != "" ==> !Unused(b, kind, id, now, c, true)
  {}
}
