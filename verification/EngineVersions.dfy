/** Which engine bundle the agent uses: one maintenance pass, and what holds over any number of them. Files are
    written without fail; downloads, signatures, disk checks and vector runs are answers given to a pass. */
module EngineVersions {
  import opened Foundations

  /** `x.y.z` in canonical digits, so equal versions are equal text. */
  datatype Version = Version(major: nat, minor: nat, patch: nat)

  /** `compareEngineVersions`. */
  function Compare(a: Version, b: Version): int {
    if a.major != b.major then a.major - b.major
    else if a.minor != b.minor then a.minor - b.minor
    else a.patch - b.patch
  }

  /** The minor number outranks any patch number, and the major any minor. */
  predicate Older(a: Version, b: Version): (r: bool)
    ensures
      r <==>
        || a.major < b.major
        || (a.major == b.major && a.minor < b.minor)
        || (a.major == b.major && a.minor == b.minor && a.patch < b.patch)
  {
    Compare(a, b) < 0
  }

  lemma OlderIsAnOrder(a: Version, b: Version, c: Version)
    ensures !Older(a, a) && (Older(a, b) && Older(b, c) ==> Older(a, c))
    ensures Older(a, b) || a == b || Older(b, a)
  {}

  datatype Current = Current(version: Version, previous: Option<Version>)

  datatype Engine = Engine(current: Option<Current>, bad: set<Version>)

  /** How an installation ends: refused before it is tried, tried and found wanting, or in use. */
  datatype Attempt = RefusedEarly | FailsVectors | Passes

  /** What a pass is told. `checksOut` are the bundles that verify on disk, `startsFailing` whether the bundle
      in use failed to start too often. */
  datatype Pass = Pass(
    npm: bool, baseline: Version, startsFailing: bool, checksOut: set<Version>,
    recommended: bool, wanted: Option<Version>, attempt: Attempt)

  datatype Action = Nothing | Installed | Refused | RolledBack | Baseline

  predicate ReturnsTo(e: Engine, previous: Option<Version>, p: Pass, failed: Version) {
    previous.Some? && previous.value !in e.bad + {failed} && Older(p.baseline, previous.value) && previous.value in p.checksOut
  }

  function RolledBackFrom(e: Engine, c: Current, p: Pass): Engine {
    var bad := e.bad + {c.version};
    Engine(if ReturnsTo(e, c.previous, p, c.version) then Some(Current(c.previous.value, None)) else None, bad)
  }

  function Forgotten(e: Engine, p: Pass): Engine {
    if e.current.Some? && !Older(p.baseline, e.current.value.version) then e.(current := None) else e
  }

  function Maintained(e: Engine, p: Pass): (Engine, Action) {
    if p.npm then (e, Nothing)
    else
      var f := Forgotten(e, p);
      if f.current.Some? && (p.startsFailing || f.current.value.version !in p.checksOut) then
        (RolledBackFrom(f, f.current.value, p), RolledBack)
      else if !p.recommended || p.wanted.None? then (f, Nothing)
      else
        var want := p.wanted.value;
        if !Older(p.baseline, want) then
          if f.current.None? then (f, Nothing) else (f.(current := None), Baseline)
        else if f.current.Some? && f.current.value.version == want then (f, Nothing)
        else if f.current.Some? && Older(want, f.current.value.version) then (f, Refused)
        else if want in f.bad then (f, Nothing)
        else match p.attempt
          case RefusedEarly => (f, Refused)
          case FailsVectors => (f.(bad := f.bad + {want}), Refused)
          case Passes =>
            (f.(current := Some(Current(want, if f.current.Some? then Some(f.current.value.version) else None))), Installed)
  }

  class Agent {
    var current: Option<Current>
    var bad: set<Version>

    constructor ()
      ensures current.None? && bad == {}
    {
      current, bad := None, {};
    }

    function Value(): Engine
      reads this
    {
      Engine(current, bad)
    }

    method RollBack(c: Current, p: Pass)
      modifies this
      ensures Value() == RolledBackFrom(old(Value()), c, p)
    {
      bad := bad + {c.version};
      var previous := c.previous;
      if previous.Some? && previous.value !in bad && Compare(previous.value, p.baseline) > 0 && previous.value in p.checksOut {
        current := Some(Current(previous.value, None));
      } else {
        current := None;
      }
    }

    method Install(want: Version, attempt: Attempt) returns (action: Action)
      modifies this
      ensures
        match attempt
        case RefusedEarly => action == Refused && Value() == old(Value())
        case FailsVectors => action == Refused && current == old(current) && bad == old(bad) + {want}
        case Passes =>
          && action == Installed && bad == old(bad)
          && current == Some(Current(want, if old(current).Some? then Some(old(current).value.version) else None))
    {
      match attempt
      case RefusedEarly => return Refused;
      case FailsVectors =>
        bad := bad + {want};
        return Refused;
      case Passes =>
        var previous := if current.Some? then Some(current.value.version) else None;
        current := Some(Current(want, previous));
        return Installed;
    }

    /** `maintainEngine`. */
    method Maintain(p: Pass) returns (action: Action)
      modifies this
      ensures (Value(), action) == Maintained(old(Value()), p)
    {
      if p.npm {
        return Nothing;
      }
      if current.Some? && Compare(current.value.version, p.baseline) <= 0 {
        current := None;
      }
      if current.Some? && (p.startsFailing || current.value.version !in p.checksOut) {
        RollBack(current.value, p);
        return RolledBack;
      }
      if !p.recommended || p.wanted.None? {
        return Nothing;
      }
      var want := p.wanted.value;
      if Compare(want, p.baseline) <= 0 {
        if current.None? {
          return Nothing;
        }
        current := None;
        return Baseline;
      }
      if current.Some? && current.value.version == want {
        return Nothing;
      }
      if current.Some? && Compare(want, current.value.version) < 0 {
        return Refused;
      }
      if want in bad {
        return Nothing;
      }
      action := Install(want, p.attempt);
    }
  }

  // ── What a pass does ──

  /** The bundle in use when a pass starts: one no newer than the engine the install carries is not loaded. */
  predicate Loaded(e: Engine, p: Pass, v: Version) {
    e.current.Some? && e.current.value.version == v && Older(p.baseline, v)
  }

  /** A pass rolls back exactly when the bundle in use fails to start or does not check out. It is bad from then
      on, and in use is the one before it when that is not bad, newer than the baseline and checks out, else none. */
  lemma RollsBackExactlyWhen(e: Engine, p: Pass)
    ensures
      var (after, action) := Maintained(e, p);
      action.RolledBack? <==>
        !p.npm && exists v :: Loaded(e, p, v) && (p.startsFailing || v !in p.checksOut)
    ensures
      var (after, action) := Maintained(e, p);
      action.RolledBack? ==>
        && e.current.Some? && after.bad == e.bad + {e.current.value.version}
        && (after.current.Some? ==> after.current.value.previous.None? && e.current.value.previous == Some(after.current.value.version))
        && (after.current.None? <==>
              match e.current.value.previous
              case None => true
              case Some(v) => v in e.bad || v == e.current.value.version || !Older(p.baseline, v) || v !in p.checksOut)
  {
    if e.current.Some? && Older(p.baseline, e.current.value.version) {
      assert Loaded(e, p, e.current.value.version);
    }
  }

  /** The workspace names a bundle that is newer than the baseline and than what is in use, and not bad. */
  predicate Due(e: Engine, p: Pass, v: Version) {
    && p.recommended && p.wanted == Some(v) && v !in e.bad && Older(p.baseline, v)
    && (e.current.Some? && Older(p.baseline, e.current.value.version) ==> Older(e.current.value.version, v))
  }

  /** A bundle comes into use exactly when it is due, no rollback is, and its attempt passes; the one in use until
      then is kept as the one before it. A bundle that was tried and failed is bad from then on. */
  lemma InstallsExactlyWhen(e: Engine, p: Pass, v: Version)
    requires !p.npm && Due(e, p, v)
    requires forall u :: Loaded(e, p, u) ==> !p.startsFailing && u in p.checksOut
    ensures
      var (after, action) := Maintained(e, p);
      && (action.Installed? <==> p.attempt.Passes?) && (action.Refused? <==> !p.attempt.Passes?)
      && (p.attempt.Passes? ==>
            && after.current.Some? && after.current.value.version == v
            && forall u :: after.current.value.previous == Some(u) <==> Loaded(e, p, u))
      && (!p.attempt.Passes? ==> forall u :: (after.current.Some? && after.current.value.version == u) <==> Loaded(e, p, u))
      && (after.bad == if p.attempt.FailsVectors? then e.bad + {v} else e.bad)
  {
    if e.current.Some? && Older(p.baseline, e.current.value.version) {
      assert Loaded(e, p, e.current.value.version);
    }
  }

  /** Only a bundle that is due is ever installed. */
  lemma OnlyADueBundleIsInstalled(e: Engine, p: Pass)
    requires Maintained(e, p).1.Installed?
    ensures !p.npm && p.attempt.Passes? && p.wanted.Some? && Due(e, p, p.wanted.value)
    ensures Maintained(e, p).0.bad == e.bad
  {
    if e.current.Some? && Older(p.baseline, e.current.value.version) {
      assert Loaded(e, p, e.current.value.version);
    }
  }

  /** A bundle stays in use, with the one before it. */
  predicate Stays(e: Engine, p: Pass, v: Version) {
    || p.npm
    || (Older(p.baseline, v) && !p.startsFailing && v in p.checksOut
        && (p.recommended && p.wanted.Some? ==>
              Older(p.baseline, p.wanted.value) && !(Older(v, p.wanted.value) && p.wanted.value !in e.bad && p.attempt.Passes?)))
  }

  lemma StaysExactlyWhen(e: Engine, p: Pass)
    requires Good(e) && e.current.Some?
    ensures Maintained(e, p).0.current == e.current <==> Stays(e, p, e.current.value.version)
    ensures Maintained(e, p).1.Baseline? <==>
      && !p.npm && Older(p.baseline, e.current.value.version) && !p.startsFailing && e.current.value.version in p.checksOut
      && p.recommended && p.wanted.Some? && !Older(p.baseline, p.wanted.value)
  {
    if e.current.value.previous.Some? {
      assert e.current.value.previous.value != e.current.value.version;
    }
  }

  // ── Every run ──

  function Run(e: Engine, passes: seq<Pass>): Engine
    decreases passes
  {
    if passes == [] then e else Run(Maintained(e, passes[0]).0, passes[1..])
  }

  const FRESH := Engine(None, {})

  /** The bundle in use is not bad, and the one before it is older. */
  predicate Good(e: Engine) {
    e.current.Some? ==>
      && e.current.value.version !in e.bad
      && (e.current.value.previous.Some? ==> Older(e.current.value.previous.value, e.current.value.version))
  }

  lemma PassKeepsGood(e: Engine, p: Pass)
    requires Good(e)
    ensures Good(Maintained(e, p).0) && e.bad <= Maintained(e, p).0.bad
    ensures !p.npm && Maintained(e, p).0.current.Some? ==> Older(p.baseline, Maintained(e, p).0.current.value.version)
  {}

  lemma {:induction false} RunKeepsGood(e: Engine, passes: seq<Pass>)
    requires Good(e)
    ensures Good(Run(e, passes)) && e.bad <= Run(e, passes).bad
    decreases passes
  {
    if passes != [] {
      PassKeepsGood(e, passes[0]);
      RunKeepsGood(Maintained(e, passes[0]).0, passes[1..]);
    }
  }

  lemma {:induction false} RunConcat(e: Engine, a: seq<Pass>, b: seq<Pass>)
    ensures Run(e, a + b) == Run(Run(e, a), b)
    decreases a
  {
    if a == [] {
      assert a + b == b;
    } else {
      assert (a + b)[1..] == a[1..] + b;
      RunConcat(Maintained(e, a[0]).0, a[1..], b);
    }
  }

  /** Over any passes, whatever the baselines: a version once recorded as bad is never in use again, what is in
      use is older than nothing recorded before it, and after a pass that is not an npm install's it is newer
      than that pass's baseline. */
  lemma {:induction false} BadIsNeverUsedAgain(before: seq<Pass>, after: seq<Pass>, v: Version)
    requires v in Run(FRESH, before).bad
    ensures
      var e := Run(FRESH, before + after);
      && Good(e) && v in e.bad && (e.current.Some? ==> e.current.value.version != v)
      && (after != [] && !after[|after| - 1].npm && e.current.Some? ==>
            Older(after[|after| - 1].baseline, e.current.value.version))
  {
    RunConcat(FRESH, before, after);
    RunKeepsGood(FRESH, before);
    RunKeepsGood(Run(FRESH, before), after);
    if after != [] {
      var n := |after| - 1;
      RunKeepsGood(Run(FRESH, before), after[..n]);
      RunConcat(Run(FRESH, before), after[..n], [after[n]]);
      assert after == after[..n] + [after[n]];
      assert [after[n]][1..] == [];
      var e := Run(Run(FRESH, before), after[..n]);
      assert Run(e, [after[n]]) == Run(Maintained(e, after[n]).0, []);
      PassKeepsGood(e, after[n]);
    }
  }

  /** Through any passes that each let it stay, a bundle stays in use. */
  predicate StaysThrough(e: Engine, passes: seq<Pass>, v: Version)
    decreases passes
  {
    passes == [] || (Stays(e, passes[0], v) && StaysThrough(Maintained(e, passes[0]).0, passes[1..], v))
  }

  lemma {:induction false} StaysThroughKeeps(e: Engine, passes: seq<Pass>)
    requires Good(e) && e.current.Some? && StaysThrough(e, passes, e.current.value.version)
    ensures Run(e, passes).current == e.current
    decreases passes
  {
    if passes != [] {
      StaysExactlyWhen(e, passes[0]);
      PassKeepsGood(e, passes[0]);
      StaysThroughKeeps(Maintained(e, passes[0]).0, passes[1..]);
    }
  }

  /** After any run, a due bundle whose attempt passes comes into use, with the former one behind it, and is still
      in use after any passes that let it stay; the first that finds it failing rolls it back for good. */
  lemma {:induction false} RecommendedComesIntoUse(before: seq<Pass>, p: Pass, v: Version, more: seq<Pass>)
    requires
      var e := Run(FRESH, before);
      && !p.npm && Due(e, p, v) && p.attempt.Passes?
      && (forall u :: Loaded(e, p, u) ==> !p.startsFailing && u in p.checksOut)
    requires StaysThrough(Run(FRESH, before + [p]), more, v)
    ensures
      var now := Run(FRESH, before + [p] + more);
      && now.current.Some? && now.current.value.version == v
      && (forall u :: now.current.value.previous == Some(u) <==> Loaded(Run(FRESH, before), p, u))
      && forall q: Pass :: !q.npm && Older(q.baseline, v) && (q.startsFailing || v !in q.checksOut) ==>
           Maintained(now, q).1.RolledBack? && v in Maintained(now, q).0.bad
  {
    hide Stays;
    var e := Run(FRESH, before);
    RunConcat(FRESH, before, [p]);
    assert [p][1..] == [];
    assert Run(e, [p]) == Run(Maintained(e, p).0, []);
    RunConcat(FRESH, before + [p], more);
    RunKeepsGood(FRESH, before);
    PassKeepsGood(e, p);
    InstallsExactlyWhen(e, p, v);
    StaysThroughKeeps(Maintained(e, p).0, more);
  }

  /** The engine in use: the bundle, or the one the install carries. */
  function InUse(e: Engine, baseline: Version): Version {
    if e.current.Some? then e.current.value.version else baseline
  }

  /** In any reachable state, a pass moves to an older engine only by rolling back or by the workspace naming
      the engine the install carries; and an installation only ever moves to a newer one. */
  lemma {:induction false} FallsOnlyByRollback(passes: seq<Pass>, p: Pass)
    requires !p.npm
    ensures
      var e := Run(FRESH, passes);
      var (after, action) := Maintained(e, p);
      var was := InUse(Forgotten(e, p), p.baseline);
      && (Older(InUse(after, p.baseline), was) <==> action.RolledBack? || action.Baseline?)
      && (action.Installed? ==> Older(was, InUse(after, p.baseline)))
  {
    RunKeepsGood(FRESH, passes);
  }

  function RollbacksOf(e: Engine, passes: seq<Pass>, v: Version): nat
    decreases passes
  {
    if passes == [] then 0
    else
      var (after, action) := Maintained(e, passes[0]);
      (if action.RolledBack? && Forgotten(e, passes[0]).current.value.version == v then 1 else 0) + RollbacksOf(after, passes[1..], v)
  }

  lemma {:induction false} BadIsNotRolledBack(e: Engine, passes: seq<Pass>, v: Version)
    requires Good(e) && v in e.bad
    ensures RollbacksOf(e, passes, v) == 0
    decreases passes
  {
    if passes != [] {
      PassKeepsGood(e, passes[0]);
      BadIsNotRolledBack(Maintained(e, passes[0]).0, passes[1..], v);
    }
  }

  /** Each version is rolled back at most once, so the agent cannot go back and forth between two bundles. */
  lemma {:induction false} RolledBackAtMostOnce(e: Engine, passes: seq<Pass>, v: Version)
    requires Good(e)
    ensures RollbacksOf(e, passes, v) <= 1
    decreases passes
  {
    if passes != [] {
      var (after, action) := Maintained(e, passes[0]);
      PassKeepsGood(e, passes[0]);
      if action.RolledBack? && Forgotten(e, passes[0]).current.value.version == v {
        BadIsNotRolledBack(after, passes[1..], v);
      } else {
        RolledBackAtMostOnce(after, passes[1..], v);
      }
    }
  }
}
