/** The pure half of the dispatch boundary: delegated scopes, approvals and budget policies. */
module DispatchRules {
  import opened Foundations

  // ── Delegated scope ──

  /** What a session may do. A target ending in `*` is a prefix; no target list means any target. */
  datatype Scope = Scope(actionTypes: seq<string>, targets: Option<seq<string>>)

  predicate EndsWithStar(s: string) {
    |s| > 0 && s[|s| - 1] == '*'
  }

  predicate Covers(parent: string, child: string) {
    parent == child || (EndsWithStar(parent) && parent[..|parent| - 1] <= child)
  }

  predicate TargetInScope(scope: Scope, target: string) {
    scope.targets.None? || exists t :: t in scope.targets.value && Covers(t, target)
  }

  predicate ActionInScope(scope: Scope, actionType: string, target: string) {
    actionType in scope.actionTypes && TargetInScope(scope, target)
  }

  predicate IsSubScope(child: Scope, parent: Scope) {
    && child.actionTypes != []
    && (forall t :: t in child.actionTypes ==> t in parent.actionTypes)
    && (parent.targets.Some? ==>
          && child.targets.Some?
          && child.targets.value != []
          && forall t :: t in child.targets.value ==> exists p :: p in parent.targets.value && Covers(p, t))
  }

  /** Accepting one pattern under another keeps every target the child reaches inside the parent,
      except for one family: the parent is the child pattern with another `*` after it. There the
      parent reads the child's own `*` as a letter, and the child reaches targets the parent does not. */
  lemma CoveredPatternReachesNoFurther(parent: string, child: string)
    requires Covers(parent, child)
    ensures (forall x: string :: Covers(child, x) ==> Covers(parent, x))
       <==> !(EndsWithStar(child) && parent == child + "*")
  {
    if EndsWithStar(child) && parent == child + "*" {
      var x := child[..|child| - 1];
      assert parent[..|parent| - 1] == child;
      assert Covers(child, x) && !Covers(parent, x);
    } else {
      forall x: string | Covers(child, x)
        ensures Covers(parent, x)
      {
        if parent != child && x != child {
          var stem := parent[..|parent| - 1];
          assert parent == stem + "*";
          assert stem <= child[..|child| - 1] <= x;
        }
      }
    }
  }

  /** No target ends in two stars, so no target can be another pattern with a star after it. */
  predicate PlainTargets(scope: Scope) {
    scope.targets.Some? ==> forall t :: t in scope.targets.value && EndsWithStar(t) ==> !EndsWithStar(t[..|t| - 1])
  }

  /** What each target that ends in two stars would reach with one of them, the scope permits anyway. */
  ghost predicate DoubleStarsAreCovered(scope: Scope) {
    scope.targets.Some? ==>
      forall t, x :: t in scope.targets.value && EndsWithStar(t) && EndsWithStar(t[..|t| - 1]) && Covers(t[..|t| - 1], x) ==>
        TargetInScope(scope, x)
  }

  /** A sub-scope of such a scope permits no action its parent does not. */
  lemma SubScopeStaysWithin(child: Scope, parent: Scope, actionType: string, target: string)
    requires IsSubScope(child, parent) && DoubleStarsAreCovered(parent)
    requires ActionInScope(child, actionType, target)
    ensures ActionInScope(parent, actionType, target)
  {
    if parent.targets.Some? {
      var c :| c in child.targets.value && Covers(c, target);
      var p :| p in parent.targets.value && Covers(p, c);
      CoveredPatternReachesNoFurther(p, c);
      if EndsWithStar(c) && p == c + "*" {
        assert p[..|p| - 1] == c;
      }
    }
  }

  /** Below a scope with a doubled star that is not covered there is a sub-scope that permits more. */
  lemma WiderBelow(parent: Scope) returns (c: string, x: string)
    requires parent.actionTypes != [] && !DoubleStarsAreCovered(parent)
    ensures
      var child, actionType := Scope(parent.actionTypes, Some([c])), parent.actionTypes[0];
      && c != "" && IsSubScope(child, parent)
      && ActionInScope(child, actionType, x) && !ActionInScope(parent, actionType, x)
  {
    var p: string;
    p, x :| p in parent.targets.value && EndsWithStar(p) && EndsWithStar(p[..|p| - 1]) && Covers(p[..|p| - 1], x)
      && !TargetInScope(parent, x);
    c := p[..|p| - 1];
    var child := Scope(parent.actionTypes, Some([c]));
    assert Covers(p, c) && c in child.targets.value;
    assert parent.actionTypes[0] in parent.actionTypes;
  }

  ghost predicate SubScopesStayWithin(parent: Scope) {
    forall child: Scope, actionType: string, target: string ::
      IsSubScope(child, parent) && ActionInScope(child, actionType, target) ==> ActionInScope(parent, actionType, target)
  }

  /** No sub-scope of a scope permits more than it does, exactly when its doubled stars are covered (or it has no
      sub-scope at all). */
  lemma SubScopesPermitNoMoreExactlyWhen(parent: Scope)
    ensures SubScopesStayWithin(parent) <==> parent.actionTypes == [] || DoubleStarsAreCovered(parent)
  {
    if parent.actionTypes != [] && DoubleStarsAreCovered(parent) {
      forall child: Scope, actionType: string, target: string
        | IsSubScope(child, parent) && ActionInScope(child, actionType, target)
        ensures ActionInScope(parent, actionType, target)
      {
        SubScopeStaysWithin(child, parent, actionType, target);
      }
    }
    if parent.actionTypes != [] && !DoubleStarsAreCovered(parent) {
      var c, x := WiderBelow(parent);
    }
  }

  /** In particular, a sub-scope of a scope with plain targets permits no action its parent does not. */
  lemma SubScopePermitsNoMore(child: Scope, parent: Scope, actionType: string, target: string)
    requires IsSubScope(child, parent) && PlainTargets(parent)
    requires ActionInScope(child, actionType, target)
    ensures ActionInScope(parent, actionType, target)
  {
    SubScopeStaysWithin(child, parent, actionType, target);
  }

  /** Without plain targets the subset test accepts a child that reaches further than its parent. */
  lemma DoubleStarWidensAScope()
    ensures exists child: Scope, parent: Scope, target: string ::
              IsSubScope(child, parent) && ActionInScope(child, "git.push", target) && !ActionInScope(parent, "git.push", target)
  {
    var parent := Scope(["git.push"], Some(["ab**"]));
    var child := Scope(["git.push"], Some(["ab*"]));
    assert "ab**"[..3] == "ab*" && "ab*"[..2] == "ab" && "abz"[..2] == "ab";
    assert "ab**" in parent.targets.value && Covers("ab**", "ab*");
    assert "ab*" in child.targets.value && Covers("ab*", "abz");
    assert IsSubScope(child, parent);
    assert ActionInScope(child, "git.push", "abz");
    assert "abz"[2] != "ab*"[2];
    assert !Covers("ab**", "abz");
    assert !ActionInScope(parent, "git.push", "abz");
  }

  // ── Delegations ──

  datatype Delegation = Delegation(
    id: string, parent: Option<string>, actor: string, scope: Scope, scopeDigest: string, issuedAt: Time, expiresAt: Time)

  const MAX_DELEGATION_DEPTH := 16

  predicate ValidId(id: string) {
    8 <= |id| <= 200 && forall c :: c in id ==> '\U{21}' <= c <= '\U{7e}'
  }

  predicate ValidDelegation(d: Delegation) {
    && ValidId(d.id)
    && (d.parent.Some? ==> ValidId(d.parent.value))
    && d.actor != ""
    && d.scope.actionTypes != [] && "" !in d.scope.actionTypes
    && (d.scope.targets.Some? ==> "" !in d.scope.targets.value)
    && d.expiresAt > d.issuedAt
  }

  // ── Approvals ──

  const APPROVAL_MAX_LIFETIME_MS := 300_000
  const APPROVAL_MAX_SKEW_MS := 30_000

  /** What an action presents for an approval to be judged against. */
  datatype Subject = Subject(actor: string, actionType: string, target: string, policyDigest: string, requestHash: string)

  datatype Approval = Approval(id: string, approver: string, subject: Subject, issuedAt: Time, expiresAt: Time)

  /** One presented approval. Whether its approver's key is known and its signature verifies is the
      answer of the key registry and of Ed25519, taken as given. */
  datatype Candidate = Unreadable | Signed(approval: Approval, approverKnown: bool, signatureValid: bool)

  datatype Rejection =
    | Malformed | BadLifetime | NotYetValid | Expired | WrongActor | WrongAction | WrongTarget | WrongPolicy
    | ChangedRequest | SelfApproval | UnknownApprover | BadSignature

  datatype Checked = Valid(approval: Approval) | Rejected(reason: Rejection)

  /** The lifetime allowed: the configured one when it is a number, never more than the maximum. */
  function LifetimeLimit(configured: Option<int>): int {
    if configured.None? then APPROVAL_MAX_LIFETIME_MS else Min(configured.value, APPROVAL_MAX_LIFETIME_MS)
  }

  /** What a rejection says of an approval, or of how it was signed. */
  predicate Explains(reason: Rejection, c: Candidate, s: Subject, now: Time, maxLifetime: Option<int>) {
    if reason == Malformed then c.Unreadable?
    else
      && c.Signed?
      && var a := c.approval;
         match reason
         case BadLifetime =>
           a.expiresAt <= a.issuedAt || a.expiresAt - a.issuedAt > 300_000 || (maxLifetime.Some? && a.expiresAt - a.issuedAt > maxLifetime.value)
         case NotYetValid => now < a.issuedAt - 30_000
         case Expired => a.expiresAt <= now
         case WrongActor => a.subject.actor != s.actor
         case WrongAction => a.subject.actionType != s.actionType
         case WrongTarget => a.subject.target != s.target
         case WrongPolicy => a.subject.policyDigest != s.policyDigest
         case ChangedRequest => a.subject.requestHash != s.requestHash
         case SelfApproval => a.approver == s.actor
         case UnknownApprover => !c.approverKnown
         case BadSignature => !c.signatureValid
         case _ => false
  }

  /** Valid for exactly the approvals that are signed by a known approver other than the actor, for this very
      subject, with a positive lifetime within the shorter limit, and whose lifetime has begun, up to the skew,
      and not ended; and what a rejection says is so. */
  function CheckApproval(c: Candidate, s: Subject, now: Time, maxLifetime: Option<int>): (r: Checked)
    ensures r.Valid? ==> c == Signed(r.approval, true, true)
    ensures r.Rejected? ==> Explains(r.reason, c, s, now, maxLifetime)
    ensures r.Valid? <==>
              && c.Signed? && c.approverKnown && c.signatureValid
              && c.approval.subject == s && c.approval.approver != s.actor
              && c.approval.issuedAt - 30_000 <= now < c.approval.expiresAt
              && 0 < c.approval.expiresAt - c.approval.issuedAt <= 300_000
              && (maxLifetime.Some? ==> c.approval.expiresAt - c.approval.issuedAt <= maxLifetime.value)
  {
    if c.Unreadable? then Rejected(Malformed) else
    var a := c.approval;
    if a.expiresAt <= a.issuedAt || a.expiresAt - a.issuedAt > LifetimeLimit(maxLifetime) then Rejected(BadLifetime)
    else if a.issuedAt > now + APPROVAL_MAX_SKEW_MS then Rejected(NotYetValid)
    else if a.expiresAt <= now then Rejected(Expired)
    else if a.subject.actor != s.actor then Rejected(WrongActor)
    else if a.subject.actionType != s.actionType then Rejected(WrongAction)
    else if a.subject.target != s.target then Rejected(WrongTarget)
    else if a.subject.policyDigest != s.policyDigest then Rejected(WrongPolicy)
    else if a.subject.requestHash != s.requestHash then Rejected(ChangedRequest)
    else if a.approver == s.actor then Rejected(SelfApproval)
    else if !c.approverKnown then Rejected(UnknownApprover)
    else if !c.signatureValid then Rejected(BadSignature)
    else Valid(a)
  }

  // ── Requests, budgets and decisions ──

  /** One action about to be dispatched; `requestHash` is the hash of the exact request forwarded. */
  datatype Intent = Intent(actionType: string, target: string, requestHash: string)

  datatype Request = Request(
    actor: string, actionGroup: string, policyDigest: string, intents: seq<Intent>, delegation: Option<string>)

  function SubjectOf(req: Request, i: nat): Subject
    requires i < |req.intents|
  {
    Subject(req.actor, req.intents[i].actionType, req.intents[i].target, req.policyDigest, req.intents[i].requestHash)
  }

  /** A reviewed limit. `enforce` is the mode (false: monitor); `shared` the shared-gateway authority scope;
      `acknowledged` whether the acknowledgement echoes this policy's digest. */
  datatype BudgetPolicy = BudgetPolicy(
    budgetId: string, actor: string, operations: seq<string>, shared: bool, max: nat, windowSeconds: nat,
    enforce: bool, version: nat, expiresAt: Time, acknowledged: bool, revoked: bool)

  datatype Reason =
    | Ok | ApprovalRequired | ApprovalRejected | ApprovalReplayed | ApprovalUnavailable
    | DelegationUnknown | DelegationRevoked | DelegationExpired | DelegationOutOfScope | DelegationWrongActor
    | BudgetExceeded | BudgetUnacknowledged | BudgetExpired | BudgetRevoked | BudgetCapabilityUnsupported
    | ClockRollback | CounterUnavailable

  datatype BudgetState = Within | AtLimit | Over | Unavailable | Unenforceable

  datatype Observation = Observation(budgetId: string, count: nat, state: BudgetState, repeated: bool)

  datatype Decision = Decision(allow: bool, reason: Reason, consumed: seq<string>, budgets: seq<Observation>)

  function Deny(reason: Reason, budgets: seq<Observation>): Decision {
    Decision(false, reason, [], budgets)
  }
}
