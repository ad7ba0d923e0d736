/** The greedy assignment of presented approvals to the intents that need one: sound always, and complete exactly
    when ids valid for two subjects are valid for both alike. */
module DispatchApprovals {
  import opened Foundations
  import opened DispatchRules
  import opened DispatchStore
  import opened DispatchGuard
  import opened DispatchRuns

  /** Some presented approval with this id is valid for the subject now. */
  ghost predicate ValidFor(cfg: Config, inp: Inputs, now: Time, id: string, s: Subject) {
    cfg.hasKeys && exists c :: c in inp.candidates && CheckApproval(c, s, now, cfg.maxLifetime).Valid? && c.approval.id == id
  }

  predicate Needs(cfg: Config, req: Request, i: nat) {
    i < |req.intents| && Requires(cfg, req.intents[i].actionType)
  }

  /** An assignment: every intent that needs one has an approval id valid for it, and no two share one. */
  ghost predicate Assigns(cfg: Config, inp: Inputs, req: Request, now: Time, f: map<nat, string>) {
    && (forall i :: Needs(cfg, req, i) ==> i in f && ValidFor(cfg, inp, now, f[i], SubjectOf(req, i)))
    && (forall i, j :: Needs(cfg, req, i) && Needs(cfg, req, j) && i in f && j in f && f[i] == f[j] ==> i == j)
  }

  /** The same ids are valid for both subjects. */
  ghost predicate SameIds(cfg: Config, inp: Inputs, now: Time, s: Subject, t: Subject) {
    forall id :: ValidFor(cfg, inp, now, id, s) <==> ValidFor(cfg, inp, now, id, t)
  }

  /** Two subjects of this request with one valid id in common have all of them in common. */
  ghost predicate SharedIdsAgree(cfg: Config, inp: Inputs, req: Request, now: Time) {
    forall id, i, j :: Needs(cfg, req, i) && Needs(cfg, req, j)
      && ValidFor(cfg, inp, now, id, SubjectOf(req, i)) && ValidFor(cfg, inp, now, id, SubjectOf(req, j))
      ==> SameIds(cfg, inp, now, SubjectOf(req, i), SubjectOf(req, j))
  }

  lemma {:induction false} FirstFreeIsFree(candidates: seq<Candidate>, s: Subject, now: Time, life: Option<int>, taken: seq<string>)
    ensures
      var r := FirstFree(candidates, s, now, life, taken);
      if r.Some? then
        && r.value.id !in taken && r.value.subject == s && now < r.value.expiresAt
        && exists c :: c in candidates && CheckApproval(c, s, now, life) == Valid(r.value) && c.approval == r.value
      else forall c :: c in candidates && CheckApproval(c, s, now, life).Valid? ==> c.approval.id in taken
    decreases candidates
  {
    if candidates != [] {
      FirstFreeIsFree(candidates[1..], s, now, life, taken);
      assert candidates[0] in candidates;
      assert forall c :: c in candidates <==> c == candidates[0] || c in candidates[1..];
    }
  }

  /** What the loop has chosen so far: one valid approval for each earlier intent that needs one, no id twice. */
  ghost predicate ChosenSoFar(cfg: Config, inp: Inputs, req: Request, now: Time, n: nat, local: seq<(nat, Approval)>) {
    && Distinct(Ids(local))
    && (forall c :: c in local ==>
          && c.0 < n && Needs(cfg, req, c.0) && c.1.subject == SubjectOf(req, c.0) && now < c.1.expiresAt
          && ValidFor(cfg, inp, now, c.1.id, SubjectOf(req, c.0)))
    && (forall a, b :: 0 <= a < |local| && 0 <= b < |local| && local[a].0 == local[b].0 ==> a == b)
  }

  ghost predicate AllServed(cfg: Config, req: Request, n: nat, local: seq<(nat, Approval)>) {
    forall i: nat :: i < n && Needs(cfg, req, i) ==> exists c :: c in local && c.0 == i
  }

  lemma ChoosingOneMore(cfg: Config, inp: Inputs, req: Request, now: Time, i: nat, local: seq<(nat, Approval)>, a: Approval)
    requires ChosenSoFar(cfg, inp, req, now, i, local) && Needs(cfg, req, i)
    requires LocalChoice(cfg, inp, req, now, Ids(local), i) == Some(a)
    ensures ChosenSoFar(cfg, inp, req, now, i + 1, local + [(i, a)])
  {
    var more := local + [(i, a)];
    FirstFreeIsFree(inp.candidates, SubjectOf(req, i), now, cfg.maxLifetime, Ids(local));
    assert Ids(more) == Ids(local) + [a.id];
    DistinctByIndex(Ids(local));
    DistinctByIndex(Ids(more));
    assert forall c :: c in more <==> c in local || c == (i, a);
    forall k | 0 <= k < |local| ensures local[k].0 < i {
      assert local[k] in local;
    }
  }

  /** Whatever the loop returns, each local approval it chose is valid for its own intent and used for no
      other: the two facts the transaction relies on. */
  lemma {:induction false} ChoiceIsSound(cfg: Config, inp: Inputs, req: Request, now: Time, i: nat, local: seq<(nat, Approval)>, cloud: seq<(nat, string)>)
    requires i <= |req.intents| && ChosenSoFar(cfg, inp, req, now, i, local)
    ensures
      var c := ChooseFrom(cfg, inp, req, now, i, local, cloud);
      c.Chosen? ==> ChosenSoFar(cfg, inp, req, now, |req.intents|, c.local)
    decreases |req.intents| - i
  {
    if i < |req.intents| {
      if !Needs(cfg, req, i) {
        ChoiceIsSound(cfg, inp, req, now, i + 1, local, cloud);
      } else {
        var mine := LocalChoice(cfg, inp, req, now, Ids(local), i);
        if mine.Some? {
          ChoosingOneMore(cfg, inp, req, now, i, local, mine.value);
          ChoiceIsSound(cfg, inp, req, now, i + 1, local + [(i, mine.value)], cloud);
        } else if CloudChoice(cfg, inp, cloud, i).Some? {
          ChoiceIsSound(cfg, inp, req, now, i + 1, local, cloud + [(i, CloudChoice(cfg, inp, cloud, i).value)]);
        }
      }
    }
  }

  // ── Completeness without a workspace ──

  /** The intents among the first `n` that need an approval and can use just the ids a subject can. */
  ghost function Sharing(cfg: Config, inp: Inputs, req: Request, now: Time, n: nat, s: Subject): set<nat> {
    set i: nat | i < n && Needs(cfg, req, i) && SameIds(cfg, inp, now, SubjectOf(req, i), s)
  }

  /** The id an intent was served with, if any. */
  ghost function Served(local: seq<(nat, Approval)>, i: nat): string {
    if local == [] then "" else if local[0].0 == i then local[0].1.id else Served(local[1..], i)
  }

  lemma {:induction false} ServedIs(local: seq<(nat, Approval)>, at: nat)
    requires at < |local|
    requires forall a, b :: 0 <= a < |local| && 0 <= b < |local| && local[a].0 == local[b].0 ==> a == b
    ensures Served(local, local[at].0) == local[at].1.id
    decreases local
  {
    if at > 0 {
      assert local[0].0 != local[at].0;
      forall a, b | 0 <= a < |local[1..]| && 0 <= b < |local[1..]| && local[1..][a].0 == local[1..][b].0 ensures a == b {
        assert local[a + 1].0 == local[b + 1].0;
      }
      ServedIs(local[1..], at - 1);
    }
  }

  /** When the loop cannot serve intent `i`, every id valid for its subject went to an earlier intent that
      can use the same ids. */
  lemma TakenByASharer(cfg: Config, inp: Inputs, req: Request, now: Time, i: nat, local: seq<(nat, Approval)>, id: string)
    requires ChosenSoFar(cfg, inp, req, now, i, local) && Needs(cfg, req, i)
    requires LocalChoice(cfg, inp, req, now, Ids(local), i).None?
    requires SharedIdsAgree(cfg, inp, req, now) && ValidFor(cfg, inp, now, id, SubjectOf(req, i))
    ensures exists k :: k in Sharing(cfg, inp, req, now, i, SubjectOf(req, i)) && Served(local, k) == id
  {
    FirstFreeIsFree(inp.candidates, SubjectOf(req, i), now, cfg.maxLifetime, Ids(local));
    var at :| 0 <= at < |local| && Ids(local)[at] == id;
    assert local[at] in local;
    ServedIs(local, at);
    assert ValidFor(cfg, inp, now, id, SubjectOf(req, local[at].0));
    assert local[at].0 in Sharing(cfg, inp, req, now, i, SubjectOf(req, i));
  }

  /** The ids valid for a subject the loop cannot serve number no more than the earlier intents sharing them. */
  lemma ValidIdsAreFew(cfg: Config, inp: Inputs, req: Request, now: Time, i: nat, local: seq<(nat, Approval)>, ids: set<string>)
    requires ChosenSoFar(cfg, inp, req, now, i, local) && Needs(cfg, req, i)
    requires LocalChoice(cfg, inp, req, now, Ids(local), i).None? && SharedIdsAgree(cfg, inp, req, now)
    requires forall id :: id in ids ==> ValidFor(cfg, inp, now, id, SubjectOf(req, i))
    ensures |ids| <= |Sharing(cfg, inp, req, now, i, SubjectOf(req, i))|
  {
    var owner := (k: nat) => Served(local, k);
    forall id | id in ids ensures exists k :: k in Sharing(cfg, inp, req, now, i, SubjectOf(req, i)) && owner(k) == id {
      TakenByASharer(cfg, inp, req, now, i, local, id);
      var k :| k in Sharing(cfg, inp, req, now, i, SubjectOf(req, i)) && Served(local, k) == id;
      assert owner(k) == id;
    }
    OntoAtMost(Sharing(cfg, inp, req, now, i, SubjectOf(req, i)), ids, owner);
  }

  /** Then no assignment exists: the intents sharing its ids, this one included, are one too many. */
  lemma StuckMeansNoAssignment(cfg: Config, inp: Inputs, req: Request, now: Time, i: nat, local: seq<(nat, Approval)>, f: map<nat, string>)
    requires ChosenSoFar(cfg, inp, req, now, i, local) && Needs(cfg, req, i)
    requires LocalChoice(cfg, inp, req, now, Ids(local), i).None? && SharedIdsAgree(cfg, inp, req, now)
    ensures !Assigns(cfg, inp, req, now, f)
  {
    hide ValidFor, LocalChoice, ChosenSoFar, SharedIdsAgree, Requires;
    if Assigns(cfg, inp, req, now, f) {
      var earlier := Sharing(cfg, inp, req, now, i, SubjectOf(req, i));
      var sharing := Sharing(cfg, inp, req, now, i + 1, SubjectOf(req, i));
      assert sharing == earlier + {i};
      var pick := (k: nat) => if k in f then f[k] else "";
      var ids := set k | k in sharing :: pick(k);
      ValidIdsAreFew(cfg, inp, req, now, i, local, ids);
      IntoAtMost(sharing, ids, pick);
    }
  }

  lemma {:induction false} GreedyFrom(cfg: Config, inp: Inputs, req: Request, now: Time, i: nat, local: seq<(nat, Approval)>, f: map<nat, string>)
    requires !cfg.cloud && SharedIdsAgree(cfg, inp, req, now)
    requires i <= |req.intents| && ChosenSoFar(cfg, inp, req, now, i, local) && AllServed(cfg, req, i, local)
    ensures
      var c := ChooseFrom(cfg, inp, req, now, i, local, []);
      if c.Chosen?
      then c.cloud == [] && ChosenSoFar(cfg, inp, req, now, |req.intents|, c.local) && AllServed(cfg, req, |req.intents|, c.local)
      else !Assigns(cfg, inp, req, now, f)
    decreases |req.intents| - i
  {
    if i < |req.intents| {
      if !Needs(cfg, req, i) {
        GreedyFrom(cfg, inp, req, now, i + 1, local, f);
      } else {
        var mine := LocalChoice(cfg, inp, req, now, Ids(local), i);
        if mine.Some? {
          var more := local + [(i, mine.value)];
          ChoosingOneMore(cfg, inp, req, now, i, local, mine.value);
          assert forall c :: c in local ==> c in more;
          assert (i, mine.value) in more;
          GreedyFrom(cfg, inp, req, now, i + 1, more, f);
        } else {
          StuckMeansNoAssignment(cfg, inp, req, now, i, local, f);
        }
      }
    }
  }

  lemma ChosenIsAnAssignment(cfg: Config, inp: Inputs, req: Request, now: Time, local: seq<(nat, Approval)>, f: map<nat, string>)
    requires ChosenSoFar(cfg, inp, req, now, |req.intents|, local) && AllServed(cfg, req, |req.intents|, local)
    requires forall i :: Needs(cfg, req, i) ==> i in f && f[i] == Served(local, i)
    ensures Assigns(cfg, inp, req, now, f)
  {
    DistinctByIndex(Ids(local));
    forall i | Needs(cfg, req, i)
      ensures exists at :: 0 <= at < |local| && local[at].0 == i && f[i] == Ids(local)[at] && local[at] in local
    {
      var pick :| pick in local && pick.0 == i;
      var at :| 0 <= at < |local| && local[at] == pick;
      ServedIs(local, at);
    }
  }

  /** Without a workspace, and when ids that are shared at all are shared alike, the loop gives every intent that
      needs an approval its own exactly when that is possible at all. */
  lemma GreedyAssignsIffPossible(cfg: Config, inp: Inputs, req: Request, now: Time)
    requires !cfg.cloud && SharedIdsAgree(cfg, inp, req, now)
    ensures Choose(cfg, inp, req, now).Chosen? <==> exists f :: Assigns(cfg, inp, req, now, f)
  {
    var c := Choose(cfg, inp, req, now);
    assert Ids([]) == [];
    if c.Chosen? {
      GreedyFrom(cfg, inp, req, now, 0, [], map[]);
      var f := map i: nat | i < |req.intents| && Needs(cfg, req, i) :: Served(c.local, i);
      ChosenIsAnAssignment(cfg, inp, req, now, c.local, f);
    } else {
      forall f ensures !Assigns(cfg, inp, req, now, f) {
        GreedyFrom(cfg, inp, req, now, 0, [], f);
      }
    }
  }

  /** The condition is needed: with one id signed for two subjects, the loop takes it for the first intent
      and refuses a request an assignment exists for. */
  lemma OneIdForTwoSubjectsDefeatsGreedy()
    ensures exists cfg: Config, inp: Inputs, req: Request, now: Time, f: map<nat, string> ::
              !cfg.cloud && Assigns(cfg, inp, req, now, f) && Choose(cfg, inp, req, now).Missing?
  {
    var s1, s2 := Subject("agent", "git.push", "a", "d", "h1"), Subject("agent", "git.push", "b", "d", "h2");
    var c1 := Signed(Approval("shared", "approver", s1, 0, 1000), true, true);
    var c2 := Signed(Approval("shared", "approver", s2, 0, 1000), true, true);
    var c3 := Signed(Approval("spare", "approver", s1, 0, 1000), true, true);
    var cfg := Config(true, ["git.push"], None, false, false);
    var inp := Inputs([c1, c2, c3], [], map[], []);
    var req := Request("agent", "g", "d", [Intent("git.push", "a", "h1"), Intent("git.push", "b", "h2")], None);
    var f: map<nat, string> := map[0 := "spare", 1 := "shared"];
    assert "git.push" in cfg.requireApproval;
    assert SubjectOf(req, 0) == s1 && SubjectOf(req, 1) == s2;
    assert inp.candidates[2] == c3 && CheckApproval(c3, s1, 10, None).Valid?;
    assert inp.candidates[1] == c2 && CheckApproval(c2, s2, 10, None).Valid?;
    assert ValidFor(cfg, inp, 10, "spare", s1) && ValidFor(cfg, inp, 10, "shared", s2);
    assert Assigns(cfg, inp, req, 10, f);
    TheLoopIsStuck(cfg, inp, req, s1, s2);
  }

  lemma TheLoopIsStuck(cfg: Config, inp: Inputs, req: Request, s1: Subject, s2: Subject)
    requires s1 == Subject("agent", "git.push", "a", "d", "h1") && s2 == Subject("agent", "git.push", "b", "d", "h2")
    requires cfg == Config(true, ["git.push"], None, false, false)
    requires inp == Inputs([
      Signed(Approval("shared", "approver", s1, 0, 1000), true, true),
      Signed(Approval("shared", "approver", s2, 0, 1000), true, true),
      Signed(Approval("spare", "approver", s1, 0, 1000), true, true)], [], map[], [])
    requires req == Request("agent", "g", "d", [Intent("git.push", "a", "h1"), Intent("git.push", "b", "h2")], None)
    ensures Choose(cfg, inp, req, 10).Missing?
  {
    var c1, c2, c3 := inp.candidates[0], inp.candidates[1], inp.candidates[2];
    var first := [(0, c1.approval)];
    assert SubjectOf(req, 0) == s1 && SubjectOf(req, 1) == s2;
    assert "git.push" in cfg.requireApproval;
    assert Ids([]) == [] && Ids(first) == ["shared"];
    assert LocalChoice(cfg, inp, req, 10, [], 0) == Some(c1.approval);
    assert inp.candidates[1..] == [c2, c3] && [c2, c3][1..] == [c3] && [c3][1..] == [];
    assert FirstFree([c3], s2, 10, None, ["shared"]) == None;
    assert FirstFree([c2, c3], s2, 10, None, ["shared"]) == None;
    assert LocalChoice(cfg, inp, req, 10, ["shared"], 1) == None;
    assert [] + first == first;
    assert ChooseFrom(cfg, inp, req, 10, 1, first, []).Missing?;
  }

  // ── In every run ──

  /** Each intent that needs an approval has a local one valid for its exact subject, or a workspace one. */
  ghost predicate Covered(call: Call) {
    && Distinct(Ids(call.local))
    && (forall c :: c in call.local ==> c.0 < |call.req.intents| && c.1.subject == SubjectOf(call.req, c.0))
    && (forall i :: Needs(call.cfg, call.req, i) ==>
          || (exists c :: c in call.local && c.0 == i)
          || (exists c :: c in call.cloud && c.0 == i))
  }

  lemma {:induction false} ChoiceCovers(cfg: Config, inp: Inputs, req: Request, now: Time, i: nat, local: seq<(nat, Approval)>, cloud: seq<(nat, string)>)
    requires i <= |req.intents|
    requires forall k: nat :: k < i && Needs(cfg, req, k) ==> (exists c :: c in local && c.0 == k) || (exists c :: c in cloud && c.0 == k)
    ensures
      var r := ChooseFrom(cfg, inp, req, now, i, local, cloud);
      r.Chosen? ==> forall k: nat :: Needs(cfg, req, k) ==> (exists c :: c in r.local && c.0 == k) || (exists c :: c in r.cloud && c.0 == k)
    decreases |req.intents| - i
  {
    if i < |req.intents| {
      if !Needs(cfg, req, i) {
        ChoiceCovers(cfg, inp, req, now, i + 1, local, cloud);
      } else {
        var mine, theirs := LocalChoice(cfg, inp, req, now, Ids(local), i), CloudChoice(cfg, inp, cloud, i);
        if mine.Some? {
          assert forall c :: c in local ==> c in local + [(i, mine.value)];
          assert (i, mine.value) in local + [(i, mine.value)];
          ChoiceCovers(cfg, inp, req, now, i + 1, local + [(i, mine.value)], cloud);
        } else if theirs.Some? {
          assert forall c :: c in cloud ==> c in cloud + [(i, theirs.value)];
          assert (i, theirs.value) in cloud + [(i, theirs.value)];
          ChoiceCovers(cfg, inp, req, now, i + 1, local, cloud + [(i, theirs.value)]);
        }
      }
    }
  }

  ghost predicate CallsCovered(w: World) {
    forall p :: p in w.procs && !w.procs[p].Done? ==> Covered(w.procs[p].call)
  }

  lemma StepKeepsCalls(w: World, e: Event)
    requires CallsCovered(w)
    ensures CallsCovered(Apply(w, e))
  {
    if e.Begin? && Free(w, e.p) {
      var now := EffectiveNow(w.db, e.wall);
      assert Ids([]) == [];
      ChoiceIsSound(e.cfg, e.inp, e.req, now, 0, [], []);
      ChoiceCovers(e.cfg, e.inp, e.req, now, 0, [], []);
    }
  }

  lemma {:induction false} RunKeepsCalls(w: World, events: seq<Event>)
    requires CallsCovered(w)
    ensures CallsCovered(RunFrom(w, events))
    decreases events
  {
    if events != [] {
      StepKeepsCalls(w, events[0]);
      RunKeepsCalls(Apply(w, events[0]), events[1..]);
    }
  }

  /** In any interleaving, a call reaches its last transaction only with an approval for every intent that
      needs one: a local one made out to exactly this actor, action, target, policy and request, no id twice;
      or a workspace one, and by then every workspace one has been consumed there. */
  lemma NoDispatchWithoutApproval(events: seq<Event>, p: nat)
    requires MayFinish(Run(events), p)
    ensures Covered(Run(events).procs[p].call)
    ensures Run(events).procs[p].call.cloud != [] ==> Run(events).procs[p] == Spending(Run(events).procs[p].call, |Run(events).procs[p].call.cloud|)
  {
    RunKeepsCalls(INITIAL, events);
  }
}
