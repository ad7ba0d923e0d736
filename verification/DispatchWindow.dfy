/** The sliding-window bound over every interleaved run, whatever the wall clocks read. */
module DispatchWindow {
  import opened Foundations
  import opened DispatchRules
  import opened DispatchStore
  import opened DispatchGuard
  import opened DispatchRuns
  import opened DispatchAtomicity

  /** The positions of a budget's charges in the full history with a time in (lo, hi]. */
  ghost function Window(h: seq<Charge>, b: string, lo: Time, hi: Time): set<nat> {
    set i: nat | i < |h| && h[i].budget == b && lo < h[i].at <= hi
  }

  /** How long a row outlives its charge at least: two windows. */
  function Keep(w: nat): int {
    Max(w, 1) * 1000 * 2
  }

  /** Every charge to the budget is made under one enforcing limit. */
  ghost predicate OnePolicy(policies: seq<BudgetPolicy>, b: string, m: nat, w: nat) {
    forall p :: p in policies && p.budgetId == b ==> p.enforce && p.max == m && p.windowSeconds == w
  }

  ghost predicate Governed(e: Event, b: string, m: nat, w: nat) {
    e.Begin? ==> OnePolicy(e.inp.budgets, b, m, w)
  }

  ghost predicate PhaseGoverned(ph: Phase, b: string, m: nat, w: nat) {
    ph.Done? || OnePolicy(ph.call.policies, b, m, w)
  }

  // ── The ledger invariant: the table and the full history agree on recent charges ──

  ghost predicate InOrder(h: seq<Charge>, mark: Time) {
    && (forall i, j :: 0 <= i < j < |h| ==> h[i].at <= h[j].at)
    && (forall i :: 0 <= i < |h| ==> h[i].at <= mark)
  }

  ghost predicate Recorded(h: seq<Charge>, k: (string, string), at: Time) {
    exists i :: 0 <= i < |h| && h[i] == Charge(k.0, k.1, at)
  }

  ghost predicate RowsAreCharges(db: Db, h: seq<Charge>, b: string) {
    forall k :: k in db.reservations && k.0 == b ==> Recorded(h, k, db.reservations[k].at)
  }

  ghost predicate Recent(db: Db, h: seq<Charge>, b: string, w: nat, i: int) {
    0 <= i < |h| && h[i].budget == b && h[i].at > db.highWater - Keep(w)
  }

  ghost predicate RecentAreRows(db: Db, h: seq<Charge>, b: string, w: nat) {
    forall i :: Recent(db, h, b, w, i) ==>
      (b, h[i].group) in db.reservations && db.reservations[(b, h[i].group)].at == h[i].at
  }

  ghost predicate RecentGroupsDiffer(db: Db, h: seq<Charge>, b: string, w: nat) {
    forall i, j :: Recent(db, h, b, w, i) && Recent(db, h, b, w, j) && i != j ==> h[i].group != h[j].group
  }

  ghost predicate Ledger(db: Db, h: seq<Charge>, b: string, w: nat) {
    InOrder(h, db.highWater) && RowsAreCharges(db, h, b) && RecentAreRows(db, h, b, w) && RecentGroupsDiffer(db, h, b, w)
  }

  /** Rows deleted as old never change a count: the table counts what the full history would. */
  lemma TableCountIsHistoryCount(db: Db, h: seq<Charge>, b: string, w: nat, now: Time)
    requires Ledger(db, h, b, w) && now >= db.highWater
    ensures |RowsAfter(db, b, now - w * 1000)| == |Window(h, b, now - w * 1000, now)|
  {
    hide Ledger, RowsAfter, Window;
    RowsAtMostCharges(db, h, b, w, now);
    ChargesAtMostRows(db, h, b, w, now);
  }

  function RowOf(h: seq<Charge>, b: string): nat -> (string, string) {
    (i: nat) => if i < |h| then (b, h[i].group) else (b, "")
  }

  lemma RowsAtMostCharges(db: Db, h: seq<Charge>, b: string, w: nat, now: Time)
    requires Ledger(db, h, b, w) && now >= db.highWater
    ensures |RowsAfter(db, b, now - w * 1000)| <= |Window(h, b, now - w * 1000, now)|
  {
    var lo, f := now - w * 1000, RowOf(h, b);
    var positions := Window(h, b, lo, now);
    forall k | k in RowsAfter(db, b, lo) ensures exists i :: i in positions && f(i) == k {
      var i :| 0 <= i < |h| && h[i] == Charge(k.0, k.1, db.reservations[k].at);
      assert i in positions && f(i) == k;
    }
    OntoAtMost(positions, RowsAfter(db, b, lo), f);
  }

  lemma ChargesAtMostRows(db: Db, h: seq<Charge>, b: string, w: nat, now: Time)
    requires Ledger(db, h, b, w) && now >= db.highWater
    ensures |Window(h, b, now - w * 1000, now)| <= |RowsAfter(db, b, now - w * 1000)|
  {
    var lo, f := now - w * 1000, RowOf(h, b);
    var positions := Window(h, b, lo, now);
    forall i, j | i in positions && j in positions && f(i) == f(j) ensures i == j {
      assert Recent(db, h, b, w, i) && Recent(db, h, b, w, j);
    }
    forall i | i in positions ensures f(i) in RowsAfter(db, b, lo) {
      assert Recent(db, h, b, w, i);
    }
    IntoAtMost(positions, RowsAfter(db, b, lo), f);
  }

  /** The positions up to `i` of the budget's charges in the window that ends with charge `i`. */
  ghost function Ending(h: seq<Charge>, b: string, w: nat, i: nat): set<nat>
    requires i < |h|
  {
    set j: nat | j <= i && h[j].budget == b && h[j].at > h[i].at - w * 1000
  }

  ghost predicate FitsAt(h: seq<Charge>, b: string, m: nat, w: nat, i: nat) {
    i < |h| && h[i].budget == b ==> |Ending(h, b, w, i)| <= m
  }

  ghost predicate EveryChargeFits(h: seq<Charge>, b: string, m: nat, w: nat) {
    forall i {:trigger FitsAt(h, b, m, w, i)} :: FitsAt(h, b, m, w, i)
  }

  // ── One insertion ──

  lemma ReservingElsewhere(db: Db, h: seq<Charge>, p: BudgetPolicy, group: string, b: string, m: nat, w: nat, lo: Time)
    requires Ledger(db, h, b, w) && EveryChargeFits(h, b, m, w)
    requires p.budgetId != b && Reserved(db, p, group, db.highWater).Some?
    ensures
      var after, h' := Reserved(db, p, group, db.highWater).value, h + [Charge(p.budgetId, group, db.highWater)];
      Ledger(after, h', b, w) && EveryChargeFits(h', b, m, w) && RowsAfter(after, b, lo) == RowsAfter(db, b, lo)
  {
    var after, h' := Reserved(db, p, group, db.highWater).value, h + [Charge(p.budgetId, group, db.highWater)];
    RowsStayRecorded(db, after, h, h', b);
    assert forall i :: Recent(after, h', b, w, i) ==> Recent(db, h, b, w, i) && h'[i] == h[i];
    HistoryStillFits(h, h', b, m, w);
  }

  lemma RowsStayRecorded(db: Db, after: Db, h: seq<Charge>, h': seq<Charge>, b: string)
    requires RowsAreCharges(db, h, b) && |h'| == |h| + 1 && h'[..|h|] == h
    requires forall k :: k in after.reservations && k.0 == b ==>
               (k in db.reservations && after.reservations[k] == db.reservations[k]) || h'[|h|] == Charge(k.0, k.1, after.reservations[k].at)
    ensures RowsAreCharges(after, h', b)
  {
    forall k | k in after.reservations && k.0 == b ensures Recorded(h', k, after.reservations[k].at) {
      if k in db.reservations && after.reservations[k] == db.reservations[k] {
        var i :| 0 <= i < |h| && h[i] == Charge(k.0, k.1, db.reservations[k].at);
        assert h'[i] == h[i];
      } else {
        assert h'[|h|] == Charge(k.0, k.1, after.reservations[k].at);
      }
    }
  }

  lemma HistoryStillFits(h: seq<Charge>, h': seq<Charge>, b: string, m: nat, w: nat)
    requires EveryChargeFits(h, b, m, w) && |h'| == |h| + 1 && h'[..|h|] == h
    requires FitsAt(h', b, m, w, |h|)
    ensures EveryChargeFits(h', b, m, w)
  {
    forall i: nat ensures FitsAt(h', b, m, w, i) {
      if i < |h| && h'[i].budget == b {
        assert forall j :: 0 <= j <= i ==> h'[j] == h'[..|h|][j];
        assert FitsAt(h, b, m, w, i) && Ending(h', b, w, i) == Ending(h, b, w, i);
      }
    }
  }

  lemma ReservingHere(db: Db, h: seq<Charge>, p: BudgetPolicy, group: string, b: string, m: nat, w: nat)
    requires Ledger(db, h, b, w) && EveryChargeFits(h, b, m, w)
    requires p.budgetId == b && p.windowSeconds == w && Reserved(db, p, group, db.highWater).Some?
    requires |RowsAfter(db, b, db.highWater - w * 1000)| < m
    ensures
      var after, h' := Reserved(db, p, group, db.highWater).value, h + [Charge(b, group, db.highWater)];
      Ledger(after, h', b, w) && EveryChargeFits(h', b, m, w) && (b, group) in after.reservations
  {
    var h' := h + [Charge(b, group, db.highWater)];
    RowsStayRecorded(db, Reserved(db, p, group, db.highWater).value, h, h', b);
    RecentStaysExact(db, h, p, group, b, w);
    OneMoreFits(db, h, group, b, m, w);
    HistoryStillFits(h, h', b, m, w);
  }

  lemma RecentStaysExact(db: Db, h: seq<Charge>, p: BudgetPolicy, group: string, b: string, w: nat)
    requires RecentAreRows(db, h, b, w) && RecentGroupsDiffer(db, h, b, w)
    requires p.budgetId == b && p.windowSeconds == w && Reserved(db, p, group, db.highWater).Some?
    ensures
      var after, h' := Reserved(db, p, group, db.highWater).value, h + [Charge(b, group, db.highWater)];
      RecentAreRows(after, h', b, w) && RecentGroupsDiffer(after, h', b, w)
  {
    var after, h' := Reserved(db, p, group, db.highWater).value, h + [Charge(b, group, db.highWater)];
    forall i | Recent(after, h', b, w, i) && i < |h|
      ensures Recent(db, h, b, w, i) && h'[i] == h[i] && h[i].group != group
    {
      assert Recent(db, h, b, w, i);
    }
  }

  lemma OneMoreFits(db: Db, h: seq<Charge>, group: string, b: string, m: nat, w: nat)
    requires Ledger(db, h, b, w) && |RowsAfter(db, b, db.highWater - w * 1000)| < m
    ensures FitsAt(h + [Charge(b, group, db.highWater)], b, m, w, |h|)
  {
    var now, top: nat := db.highWater, |h|;
    TableCountIsHistoryCount(db, h, b, w, now);
    OneMoreInWindow(h, Charge(b, group, now), b, w, now);
  }

  lemma OneMoreInWindow(h: seq<Charge>, c: Charge, b: string, w: nat, now: Time)
    requires InOrder(h, now) && c.at == now
    ensures |Ending(h + [c], b, w, |h|)| <= |Window(h, b, now - w * 1000, now)| + 1
  {
    var h', last: nat := h + [c], |h|;
    var rest := Ending(h', b, w, last) - {last};
    forall j | j in rest ensures j in Window(h, b, now - w * 1000, now) {
      assert j < |h| && h'[j] == h[j];
    }
    SubsetAtMost(rest, Window(h, b, now - w * 1000, now));
    SubsetAtMost(Ending(h', b, w, last), rest + {last});
  }

  /** The budget has the action group already, or has room for it. */
  ghost predicate Room(db: Db, charges: seq<BudgetPolicy>, group: string, b: string, m: nat, w: nat) {
    && OnePolicy(charges, b, m, w)
    && (Names(charges, b) ==> (b, group) in db.reservations || |RowsAfter(db, b, db.highWater - w * 1000)| < m)
  }

  lemma ReservingOne(db: Db, h: seq<Charge>, charges: seq<BudgetPolicy>, group: string, b: string, m: nat, w: nat)
    requires Ledger(db, h, b, w) && EveryChargeFits(h, b, m, w)
    requires charges != [] && Room(db, charges, group, b, m, w) && Reserved(db, charges[0], group, db.highWater).Some?
    ensures
      var after, h' := Reserved(db, charges[0], group, db.highWater).value, h + [Charge(charges[0].budgetId, group, db.highWater)];
      Ledger(after, h', b, w) && EveryChargeFits(h', b, m, w) && Room(after, charges[1..], group, b, m, w)
  {
    var p := charges[0];
    assert p in charges && (Names(charges[1..], b) ==> Names(charges, b));
    if p.budgetId == b {
      assert Names(charges, b);
      ReservingHere(db, h, p, group, b, m, w);
    } else {
      ReservingElsewhere(db, h, p, group, b, m, w, db.highWater - w * 1000);
    }
  }

  /** All of one transaction's insertions. */
  lemma {:induction false} ReservingAll(db: Db, h: seq<Charge>, charges: seq<BudgetPolicy>, group: string, b: string, m: nat, w: nat)
    requires Ledger(db, h, b, w) && EveryChargeFits(h, b, m, w)
    requires Room(db, charges, group, b, m, w) && ReserveAll(db, charges, group, db.highWater).Some?
    ensures
      var after, h' := ReserveAll(db, charges, group, db.highWater).value, h + Entries(charges, group, db.highWater);
      Ledger(after, h', b, w) && EveryChargeFits(h', b, m, w)
    decreases charges
  {
    if charges == [] {
      assert h + [] == h;
    } else {
      var first, rest := Charge(charges[0].budgetId, group, db.highWater), Entries(charges[1..], group, db.highWater);
      assert (h + [first]) + rest == h + Entries(charges, group, db.highWater);
      ReservingOne(db, h, charges, group, b, m, w);
      ReservingAll(Reserved(db, charges[0], group, db.highWater).value, h + [first], charges[1..], group, b, m, w);
    }
  }

  // ── Every run ──

  ghost predicate Inv(w: World, b: string, m: nat, win: nat) {
    && Ledger(w.db, w.charges, b, win)
    && EveryChargeFits(w.charges, b, m, win)
    && forall p :: p in w.procs ==> PhaseGoverned(w.procs[p], b, m, win)
  }

  lemma LedgerSurvives(db: Db, after: Db, h: seq<Charge>, b: string, w: nat)
    requires Ledger(db, h, b, w) && after.reservations == db.reservations && after.highWater >= db.highWater
    ensures Ledger(after, h, b, w)
  {
    assert forall i :: Recent(after, h, b, w, i) ==> Recent(db, h, b, w, i);
  }

  lemma CommitsHaveRoom(before: Db, call: Call, wall: Time, b: string, m: nat, w: nat)
    requires Decide(before, call, wall).Commit? && OnePolicy(call.policies, b, m, w)
    ensures Room(Mark(before, wall), ChargedBy(before, call, wall), call.req.actionGroup, b, m, w)
  {
    var charges, db, lo := ChargedBy(before, call, wall), Mark(before, wall), EffectiveNow(before, wall) - w * 1000;
    assert RowsAfter(db, b, lo) == RowsAfter(before, b, lo);
    forall q | q in charges && q.budgetId == b
      ensures q.enforce && q.max == m && q.windowSeconds == w && |RowsAfter(db, b, lo)| < m
    {
      WhatACallCharges(before, call, wall, q);
    }
  }

  lemma CommitKeeps(before: Db, h: seq<Charge>, call: Call, wall: Time, b: string, m: nat, w: nat)
    requires Ledger(before, h, b, w) && EveryChargeFits(h, b, m, w)
    requires Decide(before, call, wall).Commit? && OnePolicy(call.policies, b, m, w)
    ensures
      var after := Decide(before, call, wall).db;
      var h' := h + Entries(ChargedBy(before, call, wall), call.req.actionGroup, EffectiveNow(before, wall));
      Ledger(after, h', b, w) && EveryChargeFits(h', b, m, w)
  {
    var charges, group, db := ChargedBy(before, call, wall), call.req.actionGroup, Mark(before, wall);
    LedgerSurvives(before, db, h, b, w);
    CommitsHaveRoom(before, call, wall, b, m, w);
    ReservingAll(db, h, charges, group, b, m, w);
    WhatReservingInserts(db, charges, group, db.highWater);
    var reserved := ReserveAll(db, charges, group, db.highWater).value;
    WhatConsumingWrites(reserved, call.local, group, db.highWater);
    LedgerSurvives(reserved, Decide(before, call, wall).db, h + Entries(charges, group, db.highWater), b, w);
  }

  lemma FinishKeeps(w: World, p: nat, wall: Time, b: string, m: nat, win: nat)
    requires Inv(w, b, m, win) && MayFinish(w, p)
    ensures Inv(Apply(w, Finish(p, wall)), b, m, win)
  {
    if Decide(w.db, w.procs[p].call, wall).Commit? {
      CommitKeeps(w.db, w.charges, w.procs[p].call, wall, b, m, win);
    } else {
      assert Finished(w, p, w.procs[p].call, wall).charges == w.charges;
    }
  }

  lemma StepKeeps(w: World, e: Event, b: string, m: nat, win: nat)
    requires Inv(w, b, m, win) && Governed(e, b, m, win)
    ensures Inv(Apply(w, e), b, m, win)
  {
    if e.Finish? && MayFinish(w, e.p) {
      FinishKeeps(w, e.p, e.wall, b, m, win);
    } else {
      var w' := Apply(w, e);
      if e.ImportMany? {
        ImportTouchesRevocationsOnly(w.db, e.ids);
      }
      LedgerSurvives(w.db, w'.db, w.charges, b, win);
    }
  }

  lemma {:induction false} RunKeeps(w: World, events: seq<Event>, b: string, m: nat, win: nat)
    requires Inv(w, b, m, win) && forall e :: e in events ==> Governed(e, b, m, win)
    ensures Inv(RunFrom(w, events), b, m, win)
    decreases events
  {
    if events != [] {
      StepKeeps(w, events[0], b, m, win);
      RunKeeps(Apply(w, events[0]), events[1..], b, m, win);
    }
  }

  /** The bound. When every charge to a budget is made under one enforcing policy, then in any interleaving
      of any processes, with any wall clocks, the full history of its charged slots never holds more than
      `m` in any window (t - w seconds, t], rows since deleted included. */
  lemma SlidingWindowBound(events: seq<Event>, b: string, m: nat, w: nat, t: Time)
    requires forall e :: e in events ==> Governed(e, b, m, w)
    ensures |Window(Run(events).charges, b, t - w * 1000, t)| <= m
  {
    RunKeeps(INITIAL, events, b, m, w);
    var h := Run(events).charges;
    var inside := Window(h, b, t - w * 1000, t);
    if inside != {} {
      var last := Latest(inside);
      assert FitsAt(h, b, m, w, last);
      assert inside <= Ending(h, b, w, last);
      SubsetAtMost(inside, Ending(h, b, w, last));
    }
  }

  lemma {:induction false} Latest(s: set<nat>) returns (top: nat)
    requires s != {}
    ensures top in s && forall i :: i in s ==> i <= top
  {
    var one :| one in s;
    var rest := s - {one};
    assert forall i :: i in s ==> i == one || i in rest;
    if rest == {} {
      top := one;
    } else {
      var top' := Latest(rest);
      top := Max(one, top');
    }
  }

  /** In every run, at every later reading of the clock, the count the store answers for the budget is the
      count of its full history. */
  lemma CountsNeverForget(events: seq<Event>, b: string, m: nat, w: nat, now: Time)
    requires forall e :: e in events ==> Governed(e, b, m, w)
    requires now >= Run(events).db.highWater
    ensures |RowsAfter(Run(events).db, b, now - w * 1000)| == |Window(Run(events).charges, b, now - w * 1000, now)|
  {
    RunKeeps(INITIAL, events, b, m, w);
    TableCountIsHistoryCount(Run(events).db, Run(events).charges, b, w, now);
  }
}
