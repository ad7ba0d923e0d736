/** For which presented approvals the greedy loop finds an assignment whenever there is one. */
module DispatchGreedy {
  import opened Foundations
  import opened DispatchRules
  import opened DispatchGuard
  import opened DispatchApprovals

  /** Two subjects one request can have, both of actions that need an approval. */
  predicate Together(cfg: Config, s: Subject, t: Subject) {
    s.actor == t.actor && s.policyDigest == t.policyDigest && Requires(cfg, s.actionType) && Requires(cfg, t.actionType)
  }

  /** The ids of the presented approvals that are valid for the subject. */
  ghost function IdsFor(cfg: Config, pool: seq<Candidate>, now: Time, s: Subject): set<string> {
    if cfg.hasKeys then set c | c in pool && CheckApproval(c, s, now, cfg.maxLifetime).Valid? :: c.approval.id else {}
  }

  lemma IdsForAreValid(cfg: Config, inp: Inputs, pool: seq<Candidate>, now: Time, s: Subject, id: string)
    requires multiset(inp.candidates) == multiset(pool)
    ensures id in IdsFor(cfg, pool, now, s) <==> ValidFor(cfg, inp, now, id, s)
  {
    forall c ensures c in pool <==> c in inp.candidates {
      assert c in pool <==> c in multiset(pool);
      assert c in inp.candidates <==> c in multiset(inp.candidates);
    }
  }

  /** Any two subjects of one request have either no valid id in common or all of them. */
  ghost predicate DisjointOrEqual(cfg: Config, pool: seq<Candidate>, now: Time) {
    forall s, t :: Together(cfg, s, t) ==>
      IdsFor(cfg, pool, now, s) !! IdsFor(cfg, pool, now, t) || IdsFor(cfg, pool, now, s) == IdsFor(cfg, pool, now, t)
  }

  /** The loop serves the request exactly when some assignment does. */
  ghost predicate FindsOne(cfg: Config, inp: Inputs, req: Request, now: Time) {
    Choose(cfg, inp, req, now).Chosen? <==> exists f :: Assigns(cfg, inp, req, now, f)
  }

  /** Whatever the request, and in whatever order these approvals are presented. */
  ghost predicate AlwaysFindsOne(cfg: Config, pool: seq<Candidate>, now: Time) {
    forall inp: Inputs, req: Request :: multiset(inp.candidates) == multiset(pool) ==> FindsOne(cfg, inp, req, now)
  }

  lemma AgreeingIsEnough(cfg: Config, pool: seq<Candidate>, now: Time, inp: Inputs, req: Request)
    requires !cfg.cloud && DisjointOrEqual(cfg, pool, now) && multiset(inp.candidates) == multiset(pool)
    ensures FindsOne(cfg, inp, req, now)
  {
    forall id, i, j | Needs(cfg, req, i) && Needs(cfg, req, j)
                      && ValidFor(cfg, inp, now, id, SubjectOf(req, i)) && ValidFor(cfg, inp, now, id, SubjectOf(req, j))
      ensures SameIds(cfg, inp, now, SubjectOf(req, i), SubjectOf(req, j))
    {
      var s, t := SubjectOf(req, i), SubjectOf(req, j);
      assert Together(cfg, s, t);
      IdsForAreValid(cfg, inp, pool, now, s, id);
      IdsForAreValid(cfg, inp, pool, now, t, id);
      forall other ensures ValidFor(cfg, inp, now, other, s) <==> ValidFor(cfg, inp, now, other, t) {
        IdsForAreValid(cfg, inp, pool, now, s, other);
        IdsForAreValid(cfg, inp, pool, now, t, other);
      }
    }
    GreedyAssignsIffPossible(cfg, inp, req, now);
  }

  // ── A request the loop refuses although it could be served ──

  function IntentOf(s: Subject): Intent {
    Intent(s.actionType, s.target, s.requestHash)
  }

  /** One intent of the first subject, then `n` of the second. */
  function OneThenMany(s: Subject, t: Subject, n: nat): Request {
    Request(s.actor, "", s.policyDigest, [IntentOf(s)] + seq(n, _ => IntentOf(t)), None)
  }

  lemma SubjectsOf(cfg: Config, s: Subject, t: Subject, n: nat, k: nat)
    requires Together(cfg, s, t) && k <= n
    ensures
      var req := OneThenMany(s, t, n);
      |req.intents| == n + 1 && Needs(cfg, req, k) && SubjectOf(req, k) == if k == 0 then s else t
  {}

  ghost function Listed(s: set<string>): (r: seq<string>)
    ensures |r| == |s| && (forall x :: x in r <==> x in s) && (forall i, j :: 0 <= i < j < |r| ==> r[i] != r[j])
  {
    if s == {} then [] else
    var x :| x in s;
    [x] + Listed(s - {x})
  }

  /** The same approvals with number `i` first. */
  function FirstOf(pool: seq<Candidate>, i: nat): (r: seq<Candidate>)
    requires i < |pool|
    ensures multiset(r) == multiset(pool) && |r| > 0 && r[0] == pool[i]
  {
    assert pool == pool[..i] + ([pool[i]] + pool[i + 1..]);
    [pool[i]] + (pool[..i] + pool[i + 1..])
  }

  /** With the other id for the first intent, every id of the second subject has its own. */
  lemma Assignable(cfg: Config, inp: Inputs, now: Time, s: Subject, t: Subject, b: string, ids: set<string>) returns (f: map<nat, string>)
    requires Together(cfg, s, t) && b !in ids && ValidFor(cfg, inp, now, b, s)
    requires forall id :: id in ids ==> ValidFor(cfg, inp, now, id, t)
    ensures Assigns(cfg, inp, OneThenMany(s, t, |ids|), now, f)
  {
    var req, list := OneThenMany(s, t, |ids|), Listed(ids);
    f := map k: nat | k <= |ids| && Needs(cfg, req, k) :: if k == 0 then b else list[k - 1];
    forall k: nat | k <= |ids| ensures Needs(cfg, req, k) && SubjectOf(req, k) == if k == 0 then s else t {
      SubjectsOf(cfg, s, t, |ids|, k);
    }
    forall k | Needs(cfg, req, k) ensures k in f && ValidFor(cfg, inp, now, f[k], SubjectOf(req, k)) {
      assert k > 0 ==> list[k - 1] in list;
    }
    forall i, j | Needs(cfg, req, i) && Needs(cfg, req, j) && i in f && j in f && f[i] == f[j] ensures i == j {
      assert i > 0 ==> list[i - 1] in list;
      assert j > 0 ==> list[j - 1] in list;
    }
  }

  /** What the loop has chosen it keeps, and it serves every intent it passes. */
  lemma {:induction false} ChoiceExtends(cfg: Config, inp: Inputs, req: Request, now: Time, i: nat, local: seq<(nat, Approval)>)
    requires !cfg.cloud && i <= |req.intents| && AllServed(cfg, req, i, local)
    ensures
      var c := ChooseFrom(cfg, inp, req, now, i, local, []);
      c.Chosen? ==> local <= c.local && AllServed(cfg, req, |req.intents|, c.local)
    decreases |req.intents| - i
  {
    if i < |req.intents| {
      if !Needs(cfg, req, i) {
        ChoiceExtends(cfg, inp, req, now, i + 1, local);
      } else {
        var mine := LocalChoice(cfg, inp, req, now, Ids(local), i);
        if mine.Some? {
          var more := local + [(i, mine.value)];
          assert forall c :: c in local ==> c in more;
          assert (i, mine.value) in more;
          ChoiceExtends(cfg, inp, req, now, i + 1, more);
        }
      }
    }
  }

  /** If the loop served it with the shared id first, the ids left for the second subject would be too few. */
  lemma SharedFirstIsStuck(cfg: Config, inp: Inputs, now: Time, s: Subject, t: Subject, ids: set<string>)
    requires !cfg.cloud && cfg.hasKeys && Together(cfg, s, t) && inp.candidates != []
    requires forall id :: id in ids <==> ValidFor(cfg, inp, now, id, t)
    requires CheckApproval(inp.candidates[0], s, now, cfg.maxLifetime).Valid? && inp.candidates[0].approval.id in ids
    ensures Choose(cfg, inp, OneThenMany(s, t, |ids|), now).Missing?
  {
    var req, a := OneThenMany(s, t, |ids|), inp.candidates[0].approval;
    var c := Choose(cfg, inp, req, now);
    if c.Chosen? {
      var first := [(0, a)];
      SubjectsOf(cfg, s, t, |ids|, 0);
      assert Ids([]) == [] && LocalChoice(cfg, inp, req, now, [], 0) == Some(a);
      assert [] + first == first && c == ChooseFrom(cfg, inp, req, now, 1, first, []);
      ChoosingOneMore(cfg, inp, req, now, 0, [], a);
      assert (0, a) in first;
      ChoiceExtends(cfg, inp, req, now, 1, first);
      ChoiceIsSound(cfg, inp, req, now, 1, first, []);
      var f := map i: nat | i < |req.intents| && Needs(cfg, req, i) :: Served(c.local, i);
      ChosenIsAnAssignment(cfg, inp, req, now, c.local, f);
      assert c.local[0] == first[0];
      ServedIs(c.local, 0);
      TooFewLeft(cfg, inp, now, s, t, ids, f, a.id);
    }
  }

  lemma TooFewLeft(cfg: Config, inp: Inputs, now: Time, s: Subject, t: Subject, ids: set<string>, f: map<nat, string>, a: string)
    requires Together(cfg, s, t) && a in ids && (forall id :: id in ids <==> ValidFor(cfg, inp, now, id, t))
    requires 0 in f && f[0] == a
    ensures !Assigns(cfg, inp, OneThenMany(s, t, |ids|), now, f)
  {
    var req := OneThenMany(s, t, |ids|);
    if Assigns(cfg, inp, req, now, f) {
      var many := set k: nat | 1 <= k <= |ids| && Needs(cfg, req, k);
      var pick := (k: nat) => if k in f then f[k] else "";
      AsManyIntents(cfg, s, t, ids, many);
      SubjectsOf(cfg, s, t, |ids|, 0);
      forall k | k in many ensures k in f && pick(k) in ids - {a} {
        SubjectsOf(cfg, s, t, |ids|, k);
      }
      IntoAtMost(many, ids - {a}, pick);
    }
  }

  lemma AsManyIntents(cfg: Config, s: Subject, t: Subject, ids: set<string>, many: set<nat>)
    requires Together(cfg, s, t)
    requires many == set k: nat | 1 <= k <= |ids| && Needs(cfg, OneThenMany(s, t, |ids|), k)
    ensures |ids| <= |many|
  {
    var list := Listed(ids);
    var back := (k: nat) => if 1 <= k <= |list| then list[k - 1] else "";
    forall id | id in ids ensures exists k :: k in many && back(k) == id {
      var at :| 0 <= at < |list| && list[at] == id;
      SubjectsOf(cfg, s, t, |ids|, at + 1);
      assert back(at + 1) == id && at + 1 in many;
    }
    OntoAtMost(many, ids, back);
  }

  /** An id valid for both subjects and one valid for the first only: then some request is refused that could
      be served. */
  lemma SharingDefeatsTheLoop(cfg: Config, pool: seq<Candidate>, now: Time, s: Subject, t: Subject, a: string, b: string)
    requires !cfg.cloud && Together(cfg, s, t)
    requires a in IdsFor(cfg, pool, now, s) && a in IdsFor(cfg, pool, now, t)
    requires b in IdsFor(cfg, pool, now, s) && b !in IdsFor(cfg, pool, now, t)
    ensures !AlwaysFindsOne(cfg, pool, now)
  {
    var ids := IdsFor(cfg, pool, now, t);
    var i :| 0 <= i < |pool| && CheckApproval(pool[i], s, now, cfg.maxLifetime).Valid? && pool[i].approval.id == a;
    var inp := Inputs(FirstOf(pool, i), [], map[], []);
    forall id ensures id in ids <==> ValidFor(cfg, inp, now, id, t) {
      IdsForAreValid(cfg, inp, pool, now, t, id);
    }
    IdsForAreValid(cfg, inp, pool, now, s, b);
    var f := Assignable(cfg, inp, now, s, t, b, ids);
    SharedFirstIsStuck(cfg, inp, now, s, t, ids);
    assert !FindsOne(cfg, inp, OneThenMany(s, t, |ids|), now);
  }

  /** Without a workspace, the loop serves every request that can be served, in whatever order these approvals
      come, exactly when any two subjects of one request have no valid id in common or all of them. */
  lemma GreedyIsCompleteExactlyWhen(cfg: Config, pool: seq<Candidate>, now: Time)
    requires !cfg.cloud
    ensures AlwaysFindsOne(cfg, pool, now) <==> DisjointOrEqual(cfg, pool, now)
  {
    if DisjointOrEqual(cfg, pool, now) {
      forall inp: Inputs, req: Request | multiset(inp.candidates) == multiset(pool) ensures FindsOne(cfg, inp, req, now) {
        AgreeingIsEnough(cfg, pool, now, inp, req);
      }
    } else {
      var s, t :| Together(cfg, s, t) && !(IdsFor(cfg, pool, now, s) !! IdsFor(cfg, pool, now, t)) && IdsFor(cfg, pool, now, s) != IdsFor(cfg, pool, now, t);
      var mine, theirs := IdsFor(cfg, pool, now, s), IdsFor(cfg, pool, now, t);
      var a :| a in mine && a in theirs;
      if b :| b in mine && b !in theirs {
        SharingDefeatsTheLoop(cfg, pool, now, s, t, a, b);
      } else {
        var b :| b in theirs && b !in mine;
        SharingDefeatsTheLoop(cfg, pool, now, t, s, a, b);
      }
    }
  }
}
