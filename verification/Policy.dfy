/** The policy evaluator and the static feasibility check of the route inventory, which claims to
    decide without an input whether a role's grant and a route's selector can both be met. */
module Policy {
  import opened Wrappers

  type Id = nat

  datatype PrimaryRole = Admin | Contribute | User

  datatype ResourceKind = AgentTeam | Skill | Plugin | Workflow | Command

  datatype LifecycleState = Draft | Beta | Published | Archived | Deprecated

  const RESOURCE_KINDS: seq<ResourceKind> := [AgentTeam, Skill, Plugin, Workflow, Command]
  const LIFECYCLES: seq<LifecycleState> := [Draft, Beta, Published, Archived, Deprecated]

  datatype TargetConstraint =
    | Any
    | SelfActor
    | OwnerActor
    | EffectiveAudience
    | SameProject
    | AggregateOnly
    | ResourceKindIn(kinds: seq<ResourceKind>)
    | LifecycleIn(lifecycles: seq<LifecycleState>)

  datatype ConstraintExpr =
    | Atom(constraint: TargetConstraint)
    | AllOf(items: seq<ConstraintExpr>)
    | AnyOf(items: seq<ConstraintExpr>)

  /** What a deserialized or constructed expression guarantees: no empty collection anywhere. */
  predicate IsValid(e: ConstraintExpr) {
    match e
    case Atom(_) => true
    case AllOf(items) => items != [] && forall i | 0 <= i < |items| :: IsValid(items[i])
    case AnyOf(items) => items != [] && forall i | 0 <= i < |items| :: IsValid(items[i])
  }

  datatype AuthenticationKind = BrowserSession | ConnectionToken

  datatype AuthorizationTarget = AuthorizationTarget(
    projectId: Option<Id>,
    targetId: Option<Id>,
    ownerId: Option<Id>,
    resourceKind: Option<ResourceKind>,
    lifecycle: Option<LifecycleState>,
    effectiveAudience: Option<bool>)

  datatype PolicyInput = PolicyInput(
    actorId: Id,
    actorProjectId: Option<Id>,
    role: PrimaryRole,
    authenticationKind: AuthenticationKind,
    target: AuthorizationTarget,
    aggregateOnly: Option<bool>)

  // ---- The evaluator --------------------------------------------------------------------

  datatype ConstraintResult =
    ConstraintResult(allowed: bool, matched: seq<TargetConstraint>, failed: Option<TargetConstraint>)

  predicate AtomHolds(c: TargetConstraint, input: PolicyInput) {
    match c
    case Any => true
    case SelfActor => input.target.targetId == Some(input.actorId)
    case OwnerActor => input.target.ownerId == Some(input.actorId)
    case EffectiveAudience => input.target.effectiveAudience == Some(true)
    case SameProject => input.actorProjectId.Some? && input.actorProjectId == input.target.projectId
    case AggregateOnly => input.aggregateOnly == Some(true)
    case ResourceKindIn(kinds) => input.target.resourceKind.Some? && input.target.resourceKind.value in kinds
    case LifecycleIn(lifecycles) => input.target.lifecycle.Some? && input.target.lifecycle.value in lifecycles
  }

  const REFUSED := ConstraintResult(false, [], None)

  function Evaluate(e: ConstraintExpr, input: PolicyInput): ConstraintResult
    decreases e, 0
  {
    match e
    case Atom(c) =>
      if AtomHolds(c, input) then ConstraintResult(true, [c], None) else ConstraintResult(false, [], Some(c))
    case AllOf(items) => if items == [] then REFUSED else EvaluateAll(items, input, [])
    case AnyOf(items) => if items == [] then REFUSED else EvaluateAny(items, input, None)
  }

  function EvaluateAll(items: seq<ConstraintExpr>, input: PolicyInput, matched: seq<TargetConstraint>): ConstraintResult
    decreases items, 0
  {
    if items == [] then ConstraintResult(true, matched, None)
    else
      var first := Evaluate(items[0], input);
      if !first.allowed then ConstraintResult(false, matched, first.failed)
      else EvaluateAll(items[1..], input, matched + first.matched)
  }

  function EvaluateAny(items: seq<ConstraintExpr>, input: PolicyInput,
                       failure: Option<TargetConstraint>): ConstraintResult
    decreases items, 0
  {
    if items == [] then ConstraintResult(false, [], failure)
    else
      var first := Evaluate(items[0], input);
      if first.allowed then first
      else EvaluateAny(items[1..], input, if failure.None? then first.failed else failure)
  }

  /** The evaluator as written: recursion over the expression, one loop per collection. */
  method EvaluateConstraint(e: ConstraintExpr, input: PolicyInput) returns (r: ConstraintResult)
    ensures r == Evaluate(e, input)
    decreases e
  {
    match e {
      case Atom(c) =>
        var allowed := AtomHolds(c, input);
        r := ConstraintResult(allowed, if allowed then [c] else [], if allowed then None else Some(c));
      case AllOf(items) =>
        if items == [] {
          return REFUSED;
        }
        var matched := [];
        for i := 0 to |items|
          invariant EvaluateAll(items[i..], input, matched) == EvaluateAll(items, input, [])
        {
          var result := EvaluateConstraint(items[i], input);
          assert items[i..][1..] == items[i + 1..];
          if !result.allowed {
            return ConstraintResult(false, matched, result.failed);
          }
          matched := matched + result.matched;
        }
        r := ConstraintResult(true, matched, None);
      case AnyOf(items) =>
        if items == [] {
          return REFUSED;
        }
        var firstFailure := None;
        for i := 0 to |items|
          invariant EvaluateAny(items[i..], input, firstFailure) == EvaluateAny(items, input, None)
        {
          var result := EvaluateConstraint(items[i], input);
          assert items[i..][1..] == items[i + 1..];
          if result.allowed {
            return result;
          }
          if firstFailure.None? {
            firstFailure := result.failed;
          }
        }
        r := ConstraintResult(false, [], firstFailure);
    }
  }

  // ---- What the evaluator means ---------------------------------------------------------

  /** The Boolean reading of an expression: AND, OR, and no empty collection ever holds. */
  predicate Holds(e: ConstraintExpr, input: PolicyInput) {
    match e
    case Atom(c) => AtomHolds(c, input)
    case AllOf(items) => items != [] && forall i | 0 <= i < |items| :: Holds(items[i], input)
    case AnyOf(items) => exists i | 0 <= i < |items| :: Holds(items[i], input)
  }

  predicate Occurs(c: TargetConstraint, e: ConstraintExpr) {
    match e
    case Atom(a) => a == c
    case AllOf(items) => exists i | 0 <= i < |items| :: Occurs(c, items[i])
    case AnyOf(items) => exists i | 0 <= i < |items| :: Occurs(c, items[i])
  }

  predicate AllHold(cs: seq<TargetConstraint>, input: PolicyInput) {
    forall i | 0 <= i < |cs| :: AtomHolds(cs[i], input)
  }

  /** The evaluator allows exactly what the Boolean reading does; the constraints it reports as
      matched are true and are evidence enough on their own: any input that satisfies them is
      allowed too. What it reports as failed is a false constraint of the expression, and for a
      valid expression it always reports one. */
  lemma {:induction false} EvaluatorMeaning(e: ConstraintExpr, input: PolicyInput)
    ensures var r := Evaluate(e, input);
            && r.allowed == Holds(e, input)
            && AllHold(r.matched, input)
            && (r.allowed ==> r.failed.None? && forall other :: AllHold(r.matched, other) ==> Holds(e, other))
            && (r.failed.Some? ==> !AtomHolds(r.failed.value, input) && Occurs(r.failed.value, e))
            && (!r.allowed && IsValid(e) ==> r.failed.Some?)
    decreases e, 0
  {
    match e {
      case Atom(c) =>
        forall other: PolicyInput | AllHold([c], other)
          ensures Holds(e, other)
        {
          assert AtomHolds([c][0], other);
        }
      case AllOf(items) => AllMeaning(items, input, []);
      case AnyOf(items) => AnyMeaning(items, input, None);
    }
  }

  lemma {:induction false} AllMeaning(items: seq<ConstraintExpr>, input: PolicyInput, before: seq<TargetConstraint>)
    requires AllHold(before, input)
    ensures var r := EvaluateAll(items, input, before);
            && r.allowed == (forall i | 0 <= i < |items| :: Holds(items[i], input))
            && AllHold(r.matched, input)
            && (r.allowed ==> r.failed.None? && before <= r.matched)
            && (r.allowed ==> forall other: PolicyInput | AllHold(r.matched, other) :: forall i | 0 <= i < |items| ::
                  Holds(items[i], other))
            && (r.failed.Some? ==> !AtomHolds(r.failed.value, input))
            && (r.failed.Some? ==> exists i | 0 <= i < |items| :: Occurs(r.failed.value, items[i]))
            && (!r.allowed && (forall i | 0 <= i < |items| :: IsValid(items[i])) ==> r.failed.Some?)
    decreases items, 0
  {
    if items != [] {
      EvaluatorMeaning(items[0], input);
      var first := Evaluate(items[0], input);
      if first.allowed {
        var rest := items[1..];
        AllMeaning(rest, input, before + first.matched);
        var r := EvaluateAll(items, input, before);
        if r.allowed {
          forall other: PolicyInput | AllHold(r.matched, other)
            ensures forall i | 0 <= i < |items| :: Holds(items[i], other)
          {
            assert forall i | 0 <= i < |first.matched| :: first.matched[i] == r.matched[|before| + i];
            assert AllHold(first.matched, other);
            forall i | 0 <= i < |items|
              ensures Holds(items[i], other)
            {
              if i > 0 {
                assert Holds(rest[i - 1], other);
              }
            }
          }
        } else {
          var i :| 0 <= i < |rest| && !Holds(rest[i], input);
          assert !Holds(items[i + 1], input);
        }
        if r.failed.Some? {
          var i :| 0 <= i < |rest| && Occurs(r.failed.value, rest[i]);
          assert Occurs(r.failed.value, items[i + 1]);
        }
      }
    }
  }

  lemma {:induction false} AnyMeaning(items: seq<ConstraintExpr>, input: PolicyInput, failure: Option<TargetConstraint>)
    ensures var r := EvaluateAny(items, input, failure);
            && r.allowed == (exists i | 0 <= i < |items| :: Holds(items[i], input))
            && AllHold(r.matched, input)
            && (r.allowed ==> r.failed.None?)
            && (r.allowed ==> forall other: PolicyInput | AllHold(r.matched, other) :: exists i | 0 <= i < |items| ::
                  Holds(items[i], other))
            && (r.failed.Some? && r.failed != failure ==> !AtomHolds(r.failed.value, input))
            && (r.failed.Some? && r.failed != failure ==> exists i | 0 <= i < |items| ::
                  Occurs(r.failed.value, items[i]))
            && (!r.allowed && failure.Some? ==> r.failed == failure)
            && (!r.allowed && items != [] && (forall i | 0 <= i < |items| :: IsValid(items[i])) ==> r.failed.Some?)
    decreases items, 0
  {
    if items != [] {
      EvaluatorMeaning(items[0], input);
      var first := Evaluate(items[0], input);
      var rest := items[1..];
      if !first.allowed {
        var next := if failure.None? then first.failed else failure;
        AnyMeaning(rest, input, next);
        var r := EvaluateAny(items, input, failure);
        if r.allowed {
          var i :| 0 <= i < |rest| && Holds(rest[i], input);
          assert Holds(items[i + 1], input);
          forall other: PolicyInput | AllHold(r.matched, other)
            ensures exists i | 0 <= i < |items| :: Holds(items[i], other)
          {
            var k :| 0 <= k < |rest| && Holds(rest[k], other);
            assert Holds(items[k + 1], other);
          }
        } else if r.failed.Some? && r.failed != failure {
          if r.failed != next {
            var i :| 0 <= i < |rest| && Occurs(r.failed.value, rest[i]);
            assert Occurs(r.failed.value, items[i + 1]);
          }
        }
      }
    }
  }

  // ---- The static check -----------------------------------------------------------------

  predicate ConstraintMatches(e: ConstraintExpr, kind: ResourceKind, lifecycle: LifecycleState) {
    match e
    case Atom(ResourceKindIn(kinds)) => kind in kinds
    case Atom(LifecycleIn(lifecycles)) => lifecycle in lifecycles
    case Atom(_) => true
    case AllOf(items) => forall i | 0 <= i < |items| :: ConstraintMatches(items[i], kind, lifecycle)
    case AnyOf(items) => exists i | 0 <= i < |items| :: ConstraintMatches(items[i], kind, lifecycle)
  }

  predicate ConstraintsCanOverlap(left: ConstraintExpr, right: ConstraintExpr) {
    exists k, l | 0 <= k < |RESOURCE_KINDS| && 0 <= l < |LIFECYCLES| ::
      && ConstraintMatches(left, RESOURCE_KINDS[k], LIFECYCLES[l])
      && ConstraintMatches(right, RESOURCE_KINDS[k], LIFECYCLES[l])
  }

  lemma {:induction false} TablesAreComplete(kind: ResourceKind, lifecycle: LifecycleState)
    ensures kind in RESOURCE_KINDS && lifecycle in LIFECYCLES
  {
    assert RESOURCE_KINDS[0].AgentTeam? && RESOURCE_KINDS[1].Skill? && RESOURCE_KINDS[2].Plugin?;
    assert RESOURCE_KINDS[3].Workflow? && RESOURCE_KINDS[4].Command?;
    assert LIFECYCLES[0].Draft? && LIFECYCLES[1].Beta? && LIFECYCLES[2].Published?;
    assert LIFECYCLES[3].Archived? && LIFECYCLES[4].Deprecated?;
  }

  /** Every actor, owner, project, audience and aggregate fact true at once. */
  function Permissive(role: PrimaryRole, kind: ResourceKind, lifecycle: LifecycleState): PolicyInput {
    PolicyInput(1, Some(1), role, BrowserSession,
                AuthorizationTarget(Some(1), Some(1), Some(1), Some(kind), Some(lifecycle), Some(true)), Some(true))
  }

  /** Every fact of `low` is one of `high` too, with the same kind and lifecycle. */
  predicate AtLeastAsPermissive(low: PolicyInput, high: PolicyInput) {
    && (AtomHolds(SelfActor, low) ==> AtomHolds(SelfActor, high))
    && (AtomHolds(OwnerActor, low) ==> AtomHolds(OwnerActor, high))
    && (AtomHolds(EffectiveAudience, low) ==> AtomHolds(EffectiveAudience, high))
    && (AtomHolds(SameProject, low) ==> AtomHolds(SameProject, high))
    && (AtomHolds(AggregateOnly, low) ==> AtomHolds(AggregateOnly, high))
    && (low.target.resourceKind.Some? ==> high.target.resourceKind == low.target.resourceKind)
    && (low.target.lifecycle.Some? ==> high.target.lifecycle == low.target.lifecycle)
  }

  /** Learning more true facts never turns an allowed input into a denied one. */
  lemma {:induction false} MoreFactsNeverDeny(e: ConstraintExpr, low: PolicyInput, high: PolicyInput)
    requires AtLeastAsPermissive(low, high) && Holds(e, low)
    ensures Holds(e, high)
    decreases e
  {
    match e {
      case Atom(_) =>
      case AllOf(items) =>
        forall i | 0 <= i < |items|
          ensures Holds(items[i], high)
        {
          MoreFactsNeverDeny(items[i], low, high);
        }
      case AnyOf(items) =>
        var i :| 0 <= i < |items| && Holds(items[i], low);
        MoreFactsNeverDeny(items[i], low, high);
    }
  }

  /** The static match as it would be with an empty AND read as never met. */
  predicate StrictMatches(e: ConstraintExpr, kind: ResourceKind, lifecycle: LifecycleState) {
    match e
    case Atom(_) => ConstraintMatches(e, kind, lifecycle)
    case AllOf(items) => items != [] && forall i | 0 <= i < |items| :: StrictMatches(items[i], kind, lifecycle)
    case AnyOf(items) => exists i | 0 <= i < |items| :: StrictMatches(items[i], kind, lifecycle)
  }

  /** No empty AND anywhere; an empty OR does no harm. */
  predicate NoEmptyAllOf(e: ConstraintExpr) {
    match e
    case Atom(_) => true
    case AllOf(items) => items != [] && forall i | 0 <= i < |items| :: NoEmptyAllOf(items[i])
    case AnyOf(items) => forall i | 0 <= i < |items| :: NoEmptyAllOf(items[i])
  }

  lemma {:induction false} ValidHasNoEmptyAllOf(e: ConstraintExpr)
    requires IsValid(e)
    ensures NoEmptyAllOf(e)
    decreases e
  {
    match e {
      case Atom(_) =>
      case AllOf(items) =>
        forall i | 0 <= i < |items|
          ensures NoEmptyAllOf(items[i])
        {
          ValidHasNoEmptyAllOf(items[i]);
        }
      case AnyOf(items) =>
        forall i | 0 <= i < |items|
          ensures NoEmptyAllOf(items[i])
        {
          ValidHasNoEmptyAllOf(items[i]);
        }
    }
  }

  /** Read strictly, the static match is the evaluator on the permissive input. */
  lemma {:induction false} MatchIsPermissive(e: ConstraintExpr, role: PrimaryRole, kind: ResourceKind,
                                             lifecycle: LifecycleState)
    ensures Holds(e, Permissive(role, kind, lifecycle)) <==> StrictMatches(e, kind, lifecycle)
    decreases e
  {
    var input := Permissive(role, kind, lifecycle);
    match e {
      case Atom(_) =>
      case AllOf(items) =>
        forall i | 0 <= i < |items|
          ensures Holds(items[i], input) <==> StrictMatches(items[i], kind, lifecycle)
        {
          MatchIsPermissive(items[i], role, kind, lifecycle);
        }
      case AnyOf(items) =>
        forall i | 0 <= i < |items|
          ensures Holds(items[i], input) <==> StrictMatches(items[i], kind, lifecycle)
        {
          MatchIsPermissive(items[i], role, kind, lifecycle);
        }
    }
  }

  /** Read as written it can only say yes too often, and does not without an empty AND. */
  lemma {:induction false} MatchIsLoose(e: ConstraintExpr, kind: ResourceKind, lifecycle: LifecycleState)
    ensures StrictMatches(e, kind, lifecycle) ==> ConstraintMatches(e, kind, lifecycle)
    ensures NoEmptyAllOf(e) && ConstraintMatches(e, kind, lifecycle) ==> StrictMatches(e, kind, lifecycle)
    decreases e
  {
    match e {
      case Atom(_) =>
      case AllOf(items) =>
        forall i | 0 <= i < |items|
          ensures StrictMatches(items[i], kind, lifecycle) ==> ConstraintMatches(items[i], kind, lifecycle)
          ensures NoEmptyAllOf(items[i]) && ConstraintMatches(items[i], kind, lifecycle)
                  ==> StrictMatches(items[i], kind, lifecycle)
        {
          MatchIsLoose(items[i], kind, lifecycle);
        }
      case AnyOf(items) =>
        forall i | 0 <= i < |items|
          ensures StrictMatches(items[i], kind, lifecycle) ==> ConstraintMatches(items[i], kind, lifecycle)
          ensures NoEmptyAllOf(items[i]) && ConstraintMatches(items[i], kind, lifecycle)
                  ==> StrictMatches(items[i], kind, lifecycle)
        {
          MatchIsLoose(items[i], kind, lifecycle);
        }
    }
  }

  predicate OfRole(input: PolicyInput, role: PrimaryRole) {
    input.role == role && input.authenticationKind.BrowserSession?
  }

  ghost predicate BothAllowed(left: ConstraintExpr, right: ConstraintExpr, input: PolicyInput) {
    Evaluate(left, input).allowed && Evaluate(right, input).allowed
  }

  predicate StrictlyOverlap(left: ConstraintExpr, right: ConstraintExpr) {
    exists k, l | 0 <= k < |RESOURCE_KINDS| && 0 <= l < |LIFECYCLES| ::
      && StrictMatches(left, RESOURCE_KINDS[k], LIFECYCLES[l])
      && StrictMatches(right, RESOURCE_KINDS[k], LIFECYCLES[l])
  }

  /** Some input of the role makes the evaluator allow both. */
  ghost predicate CanBoth(left: ConstraintExpr, right: ConstraintExpr, role: PrimaryRole) {
    exists input: PolicyInput :: OfRole(input, role) && BothAllowed(left, right, input)
  }

  lemma {:induction false} HoldsStrictly(e: ConstraintExpr, input: PolicyInput, kind: ResourceKind,
                                         lifecycle: LifecycleState)
    requires Evaluate(e, input).allowed
    requires input.target.resourceKind.Some? ==> input.target.resourceKind.value == kind
    requires input.target.lifecycle.Some? ==> input.target.lifecycle.value == lifecycle
    ensures StrictMatches(e, kind, lifecycle)
  {
    EvaluatorMeaning(e, input);
    MoreFactsNeverDeny(e, input, Permissive(input.role, kind, lifecycle));
    MatchIsPermissive(e, input.role, kind, lifecycle);
  }

  lemma {:induction false} AllowedStrictly(left: ConstraintExpr, right: ConstraintExpr, input: PolicyInput)
    requires BothAllowed(left, right, input)
    ensures StrictlyOverlap(left, right)
  {
    var kind := if input.target.resourceKind.Some? then input.target.resourceKind.value else Skill;
    var lifecycle := if input.target.lifecycle.Some? then input.target.lifecycle.value else Draft;
    HoldsStrictly(left, input, kind, lifecycle);
    HoldsStrictly(right, input, kind, lifecycle);
    TablesAreComplete(kind, lifecycle);
    var k :| 0 <= k < |RESOURCE_KINDS| && RESOURCE_KINDS[k] == kind;
    var l :| 0 <= l < |LIFECYCLES| && LIFECYCLES[l] == lifecycle;
  }

  lemma {:induction false} StrictOverlapIsMet(left: ConstraintExpr, right: ConstraintExpr, role: PrimaryRole)
    requires StrictlyOverlap(left, right)
    ensures CanBoth(left, right, role)
  {
    var k, l :| 0 <= k < |RESOURCE_KINDS| && 0 <= l < |LIFECYCLES|
      && StrictMatches(left, RESOURCE_KINDS[k], LIFECYCLES[l])
      && StrictMatches(right, RESOURCE_KINDS[k], LIFECYCLES[l]);
    var input := Permissive(role, RESOURCE_KINDS[k], LIFECYCLES[l]);
    MatchIsPermissive(left, role, RESOURCE_KINDS[k], LIFECYCLES[l]);
    MatchIsPermissive(right, role, RESOURCE_KINDS[k], LIFECYCLES[l]);
    EvaluatorMeaning(left, input);
    EvaluatorMeaning(right, input);
    assert OfRole(input, role) && BothAllowed(left, right, input);
  }

  lemma {:induction false} StrictIsNarrower(left: ConstraintExpr, right: ConstraintExpr)
    ensures StrictlyOverlap(left, right) ==> ConstraintsCanOverlap(left, right)
    ensures NoEmptyAllOf(left) && NoEmptyAllOf(right) && ConstraintsCanOverlap(left, right)
            ==> StrictlyOverlap(left, right)
  {
    forall k, l | 0 <= k < |RESOURCE_KINDS| && 0 <= l < |LIFECYCLES|
      ensures StrictMatches(left, RESOURCE_KINDS[k], LIFECYCLES[l])
              ==> ConstraintMatches(left, RESOURCE_KINDS[k], LIFECYCLES[l])
      ensures StrictMatches(right, RESOURCE_KINDS[k], LIFECYCLES[l])
              ==> ConstraintMatches(right, RESOURCE_KINDS[k], LIFECYCLES[l])
      ensures NoEmptyAllOf(left) && ConstraintMatches(left, RESOURCE_KINDS[k], LIFECYCLES[l])
              ==> StrictMatches(left, RESOURCE_KINDS[k], LIFECYCLES[l])
      ensures NoEmptyAllOf(right) && ConstraintMatches(right, RESOURCE_KINDS[k], LIFECYCLES[l])
              ==> StrictMatches(right, RESOURCE_KINDS[k], LIFECYCLES[l])
    {
      MatchIsLoose(left, RESOURCE_KINDS[k], LIFECYCLES[l]);
      MatchIsLoose(right, RESOURCE_KINDS[k], LIFECYCLES[l]);
    }
  }

  /** For all expressions: the evaluator can allow both for a role exactly when they overlap with
      empty ANDs read as never met. So the static check is exact unless only such an AND makes it
      say yes, and whatever can be allowed it foresees. */
  lemma {:induction false} OverlapExactly(left: ConstraintExpr, right: ConstraintExpr, role: PrimaryRole)
    ensures CanBoth(left, right, role) <==> StrictlyOverlap(left, right)
    ensures CanBoth(left, right, role) ==> ConstraintsCanOverlap(left, right)
    ensures (ConstraintsCanOverlap(left, right) <==> CanBoth(left, right, role))
            <==> (ConstraintsCanOverlap(left, right) ==> StrictlyOverlap(left, right))
  {
    StrictIsNarrower(left, right);
    if CanBoth(left, right, role) {
      var input: PolicyInput :| OfRole(input, role) && BothAllowed(left, right, input);
      AllowedStrictly(left, right, input);
    }
    if StrictlyOverlap(left, right) {
      StrictOverlapIsMet(left, right, role);
    }
  }

  /** Whatever the evaluator can allow, the static check foresees, valid expression or not. */
  lemma {:induction false} OverlapIsForeseen(left: ConstraintExpr, right: ConstraintExpr, input: PolicyInput)
    requires BothAllowed(left, right, input)
    ensures ConstraintsCanOverlap(left, right)
  {
    AllowedStrictly(left, right, input);
    StrictIsNarrower(left, right);
  }

  /** The static check is exact for expressions without an empty AND, hence for all valid ones: it
      says yes precisely when some input of the given role makes the evaluator allow both. */
  lemma {:induction false} OverlapIsExact(left: ConstraintExpr, right: ConstraintExpr, role: PrimaryRole)
    requires NoEmptyAllOf(left) && NoEmptyAllOf(right)
    ensures ConstraintsCanOverlap(left, right) <==>
            exists input: PolicyInput :: OfRole(input, role) && BothAllowed(left, right, input)
  {
    StrictIsNarrower(left, right);
    OverlapExactly(left, right, role);
  }

  /** With an empty AND it is not: that overlaps everything statically and is never allowed. */
  lemma {:induction false} EmptyAllOfDisagrees(input: PolicyInput)
    ensures ConstraintsCanOverlap(AllOf([]), Atom(Any))
    ensures !BothAllowed(AllOf([]), Atom(Any), input)
  {
    assert ConstraintMatches(AllOf([]), RESOURCE_KINDS[0], LIFECYCLES[0]);
    assert ConstraintMatches(Atom(Any), RESOURCE_KINDS[0], LIFECYCLES[0]);
  }

  // ---- Role grants ----------------------------------------------------------------------

  datatype PermissionKey =
    | AuthorizationGrantsReadSelf | SessionSelfRead | SessionPasswordChange | ProjectBrandingRead
    | ProjectDashboardRead | ProjectSettingsRead | ProjectSettingsManage | MemberDirectoryRead | MemberManage
    | MemberPrivateReadSelf | MemberPrivateReadAny | TelemetryProjectRead | TelemetryMemberReadSelf
    | TelemetryMemberReadAny | TaxonomyRead | TaxonomyDefinitionManage | MemberTagAssignmentManage
    | ResourceConsume | ResourceAuthor | ResourceAccessManage | ResourceLifecycleManage
    | ResourceReleaseNonExecutable | ResourceReleaseRestricted | ResourceMonitoringAggregateRead
    | ResourceMonitoringMemberDetailRead | ResourceFeedbackSubmit | ResourceFeedbackRead | AnalyticsViewRead
    | AnalyticsViewManageSelf | AnalyticsViewManageAny | ConnectionTokenIssueSelf | ConnectionTokenReadSelf
    | ConnectionTokenRevokeSelf | ConnectionTokenReadAny | ConnectionTokenRevokeAny | AuditRead | AuditExport

  datatype ResponseProjection = Full | DirectorySafe | AggregateOnlyProjection

  datatype PermissionGrant =
    PermissionGrant(permission: PermissionKey, constraints: ConstraintExpr, projection: Option<ResponseProjection>)

  predicate RoleMayHold(role: PrimaryRole, permission: PermissionKey) {
    match permission
    case AuthorizationGrantsReadSelf | SessionSelfRead | SessionPasswordChange | ProjectBrandingRead
      | MemberPrivateReadSelf | ResourceConsume | ResourceFeedbackSubmit | TelemetryMemberReadSelf
      | ConnectionTokenIssueSelf | ConnectionTokenReadSelf | ConnectionTokenRevokeSelf => true
    case ProjectDashboardRead | MemberDirectoryRead | TelemetryProjectRead | TaxonomyRead | ResourceAuthor
      | ResourceAccessManage | ResourceLifecycleManage | ResourceReleaseNonExecutable
      | ResourceMonitoringAggregateRead | ResourceFeedbackRead | AnalyticsViewRead | AnalyticsViewManageSelf =>
      role.Admin? || role.Contribute?
    case _ => role.Admin?
  }

  const NON_EXECUTABLE := Atom(ResourceKindIn([AgentTeam, Skill]))

  function GrantConstraints(role: PrimaryRole, permission: PermissionKey): ConstraintExpr {
    match permission
    case AuthorizationGrantsReadSelf | SessionSelfRead | SessionPasswordChange | MemberPrivateReadSelf
      | TelemetryMemberReadSelf => Atom(SelfActor)
    case ConnectionTokenIssueSelf | ConnectionTokenReadSelf | ConnectionTokenRevokeSelf => Atom(OwnerActor)
    case ResourceConsume | ResourceFeedbackSubmit | AnalyticsViewRead => Atom(EffectiveAudience)
    case ResourceAuthor | ResourceAccessManage | ResourceFeedbackRead | ResourceMonitoringAggregateRead =>
      if role.Contribute? then Atom(OwnerActor) else Atom(Any)
    case AnalyticsViewManageSelf => Atom(OwnerActor)
    case ResourceLifecycleManage =>
      if role.Contribute? then OwnedAndNonExecutable() else Atom(Any)
    case ResourceReleaseNonExecutable =>
      if role.Contribute? then OwnedAndNonExecutable() else NON_EXECUTABLE
    case ResourceReleaseRestricted => Atom(ResourceKindIn([Plugin, Workflow, Command]))
    case ProjectBrandingRead | ProjectDashboardRead | ProjectSettingsRead | ProjectSettingsManage
      | MemberDirectoryRead | MemberManage | MemberPrivateReadAny | TelemetryProjectRead | TelemetryMemberReadAny
      | TaxonomyRead | TaxonomyDefinitionManage | MemberTagAssignmentManage | AnalyticsViewManageAny
      | ConnectionTokenReadAny | ConnectionTokenRevokeAny | AuditRead | AuditExport => Atom(SameProject)
    case ResourceMonitoringMemberDetailRead => Atom(Any)
  }

  function GrantForRole(role: PrimaryRole, permission: PermissionKey): Option<PermissionGrant> {
    if !RoleMayHold(role, permission) then None
    else
      var projection :=
        if role.Contribute? && permission.MemberDirectoryRead? then Some(DirectorySafe)
        else if role.Contribute? && (permission.ProjectDashboardRead? || permission.TelemetryProjectRead?)
        then Some(AggregateOnlyProjection)
        else if permission.ResourceMonitoringAggregateRead? then Some(AggregateOnlyProjection)
        else None;
      Some(PermissionGrant(permission, GrantConstraints(role, permission), projection))
  }

  ghost predicate Granted(role: PrimaryRole, permission: PermissionKey, input: PolicyInput) {
    GrantForRole(role, permission).Some? && Holds(GrantForRole(role, permission).value.constraints, input)
  }

  lemma {:induction false} GrantsAreValid(role: PrimaryRole, permission: PermissionKey)
    ensures IsValid(GrantConstraints(role, permission))
  {
    assert IsValid(NON_EXECUTABLE);
  }

  function OwnedAndNonExecutable(): ConstraintExpr {
    AllOf([Atom(OwnerActor), NON_EXECUTABLE])
  }

  lemma {:induction false} ConstraintsLoosen(permission: PermissionKey)
    ensures RoleMayHold(User, permission) ==>
              RoleMayHold(Contribute, permission)
                && GrantConstraints(User, permission) == GrantConstraints(Contribute, permission)
    ensures RoleMayHold(Contribute, permission) ==>
              && RoleMayHold(Admin, permission)
              && var (lower, higher) := (GrantConstraints(Contribute, permission), GrantConstraints(Admin, permission));
                 lower == higher || higher == Atom(Any)
                   || (lower == OwnedAndNonExecutable() && higher == NON_EXECUTABLE)
  {
  }

  lemma {:induction false} OwnershipNarrows(input: PolicyInput)
    ensures Holds(OwnedAndNonExecutable(), input) ==> Holds(NON_EXECUTABLE, input)
  {
    var items := [Atom(OwnerActor), NON_EXECUTABLE];
    assert Holds(AllOf(items), input) ==> Holds(items[1], input);
  }

  /** The roles form a hierarchy: on every input an admin is granted whatever a contributor is,
      and a contributor whatever a plain user is. */
  lemma {:induction false} RolesAreNested(permission: PermissionKey, input: PolicyInput)
    ensures Granted(User, permission, input) ==> Granted(Contribute, permission, input)
    ensures Granted(Contribute, permission, input) ==> Granted(Admin, permission, input)
  {
    ConstraintsLoosen(permission);
    OwnershipNarrows(input);
    GrantIsItsConstraints(User, permission, input);
    GrantIsItsConstraints(Contribute, permission, input);
    GrantIsItsConstraints(Admin, permission, input);
  }

  lemma {:induction false} GrantIsItsConstraints(role: PrimaryRole, permission: PermissionKey, input: PolicyInput)
    ensures Granted(role, permission, input) <==>
            RoleMayHold(role, permission) && Holds(GrantConstraints(role, permission), input)
  {
  }

  // ---- The grants as a table of facts ---------------------------------------------------

  /** What every member may do. */
  predicate SelfService(permission: PermissionKey) {
    permission in {
      AuthorizationGrantsReadSelf, SessionSelfRead, SessionPasswordChange, ProjectBrandingRead, MemberPrivateReadSelf,
      ResourceConsume, ResourceFeedbackSubmit, TelemetryMemberReadSelf, ConnectionTokenIssueSelf,
      ConnectionTokenReadSelf, ConnectionTokenRevokeSelf
    }
  }

  /** What a contributor may do besides. */
  predicate Contributing(permission: PermissionKey) {
    permission in {
      ProjectDashboardRead, MemberDirectoryRead, TelemetryProjectRead, TaxonomyRead, ResourceAuthor,
      ResourceAccessManage, ResourceLifecycleManage, ResourceReleaseNonExecutable,
      ResourceMonitoringAggregateRead, ResourceFeedbackRead,
      AnalyticsViewRead, AnalyticsViewManageSelf
    }
  }

  predicate AboutOneself(permission: PermissionKey) {
    permission in {
      AuthorizationGrantsReadSelf, SessionSelfRead, SessionPasswordChange, MemberPrivateReadSelf,
      TelemetryMemberReadSelf
    }
  }

  predicate OnesOwn(permission: PermissionKey) {
    permission in {
      ConnectionTokenIssueSelf, ConnectionTokenReadSelf, ConnectionTokenRevokeSelf, AnalyticsViewManageSelf
    }
  }

  /** What a contributor may do to resources of his own only, and an admin to any. */
  predicate OwnResources(permission: PermissionKey) {
    permission in {
      ResourceAuthor, ResourceAccessManage, ResourceFeedbackRead, ResourceMonitoringAggregateRead,
      ResourceLifecycleManage, ResourceReleaseNonExecutable
    }
  }

  predicate ForTheAudience(permission: PermissionKey) {
    permission in {ResourceConsume, ResourceFeedbackSubmit, AnalyticsViewRead}
  }

  predicate WithinTheProject(permission: PermissionKey) {
    permission in {
      ProjectBrandingRead, ProjectDashboardRead, ProjectSettingsRead, ProjectSettingsManage, MemberDirectoryRead,
      MemberManage, MemberPrivateReadAny, TelemetryProjectRead, TelemetryMemberReadAny, TaxonomyRead,
      TaxonomyDefinitionManage, MemberTagAssignmentManage, AnalyticsViewManageAny, ConnectionTokenReadAny,
      ConnectionTokenRevokeAny, AuditRead, AuditExport
    }
  }

  /** Everything else is for admins. */
  predicate Holder(role: PrimaryRole, permission: PermissionKey) {
    SelfService(permission) || role.Admin? || (role.Contribute? && Contributing(permission))
  }

  /** What has to be known of the session and the target for the permission to be the session's. */
  predicate Entitled(permission: PermissionKey, input: PolicyInput) {
    && Holder(input.role, permission)
    && (AboutOneself(permission) ==> input.target.targetId == Some(input.actorId))
    && (OnesOwn(permission) || (OwnResources(permission) && !input.role.Admin?) ==>
          input.target.ownerId == Some(input.actorId))
    && (ForTheAudience(permission) ==> input.target.effectiveAudience == Some(true))
    && (WithinTheProject(permission) ==>
          input.actorProjectId.Some? && input.target.projectId == input.actorProjectId)
    && (permission.ResourceReleaseNonExecutable? || (permission.ResourceLifecycleManage? && !input.role.Admin?) ==>
          input.target.resourceKind == Some(AgentTeam) || input.target.resourceKind == Some(Skill))
    && (permission.ResourceReleaseRestricted? ==>
          || input.target.resourceKind == Some(Plugin) || input.target.resourceKind == Some(Workflow)
          || input.target.resourceKind == Some(Command))
  }

  /** How far the response is cut down. */
  predicate CutDownTo(role: PrimaryRole, permission: PermissionKey, projection: Option<ResponseProjection>) {
    && projection != Some(Full)
    && (projection == Some(DirectorySafe) <==> role.Contribute? && permission.MemberDirectoryRead?)
    && (projection == Some(AggregateOnlyProjection) <==>
        || permission.ResourceMonitoringAggregateRead?
        || (role.Contribute? && (permission.ProjectDashboardRead? || permission.TelemetryProjectRead?)))
  }

  lemma {:induction false} HolderIsRole(role: PrimaryRole, permission: PermissionKey)
    ensures RoleMayHold(role, permission) <==> Holder(role, permission)
  {
  }

  lemma {:induction false} OwnedMeaning(input: PolicyInput)
    ensures Holds(OwnedAndNonExecutable(), input) <==>
            && input.target.ownerId == Some(input.actorId)
            && (input.target.resourceKind == Some(AgentTeam) || input.target.resourceKind == Some(Skill))
  {
    var items := [Atom(OwnerActor), NON_EXECUTABLE];
    assert Holds(AllOf(items), input) <==> Holds(items[0], input) && Holds(items[1], input);
  }

  lemma {:induction false} ConstraintsOfAll(permission: PermissionKey, input: PolicyInput)
    requires Holder(input.role, permission) && !Contributing(permission)
    ensures Holds(GrantConstraints(input.role, permission), input) <==> Entitled(permission, input)
  {
  }

  lemma {:induction false} ConstraintsOfContributing(permission: PermissionKey, input: PolicyInput)
    requires Holder(input.role, permission) && Contributing(permission)
    ensures Holds(GrantConstraints(input.role, permission), input) <==> Entitled(permission, input)
  {
    OwnedMeaning(input);
  }

  /** The role table, for every permission and input: granted exactly when the listed facts hold. */
  lemma {:induction false} GrantedExactly(permission: PermissionKey, input: PolicyInput)
    ensures Granted(input.role, permission, input) <==> Entitled(permission, input)
    ensures GrantForRole(input.role, permission).Some? ==>
              CutDownTo(input.role, permission, GrantForRole(input.role, permission).value.projection)
  {
    HolderIsRole(input.role, permission);
    GrantIsItsConstraints(input.role, permission, input);
    if Holder(input.role, permission) {
      if Contributing(permission) {
        ConstraintsOfContributing(permission, input);
      } else {
        ConstraintsOfAll(permission, input);
      }
    }
  }

  /** A fact that is unknown meets no constraint on it, and a known one meets only the constraints that
      accept it. */
  lemma {:induction false} UnknownFactsAreRefused(input: PolicyInput, kinds: seq<ResourceKind>,
                                                  states: seq<LifecycleState>)
    ensures Holds(Atom(EffectiveAudience), input) <==> input.target.effectiveAudience == Some(true)
    ensures Holds(Atom(AggregateOnly), input) <==> input.aggregateOnly == Some(true)
    ensures Holds(Atom(ResourceKindIn(kinds)), input) <==>
            exists k | k in kinds :: input.target.resourceKind == Some(k)
    ensures Holds(Atom(LifecycleIn(states)), input) <==> exists l | l in states :: input.target.lifecycle == Some(l)
    ensures Holds(Atom(SelfActor), input) <==> Some(input.actorId) == input.target.targetId
    ensures Holds(Atom(OwnerActor), input) <==> Some(input.actorId) == input.target.ownerId
    ensures Holds(Atom(SameProject), input) <==>
            input.actorProjectId.Some? && input.target.projectId.Some?
            && input.actorProjectId.value == input.target.projectId.value
    ensures Holds(Atom(Any), input)
  {
    if input.target.resourceKind.Some? && input.target.resourceKind.value in kinds {
      assert Some(input.target.resourceKind.value) == input.target.resourceKind;
    }
    if input.target.lifecycle.Some? && input.target.lifecycle.value in states {
      assert Some(input.target.lifecycle.value) == input.target.lifecycle;
    }
  }

  // ---- Browser requirements -------------------------------------------------------------

  datatype PermissionAlternative =
    PermissionAlternative(permission: PermissionKey, constraints: ConstraintExpr,
                          projection: Option<ResponseProjection>)

  datatype DenyReason = AuthenticationKindDenied | UnknownPolicy | RoleDenied | ConstraintFailed(c: TargetConstraint)

  datatype PolicyDecision =
    | Allow(permission: PermissionKey, matched: seq<TargetConstraint>, projection: Option<ResponseProjection>)
    | Deny(reason: DenyReason)

  /** The evaluator's own refusal of a malformed requirement; `blankId` is its blank identifier test. */
  predicate Malformed(alternatives: seq<PermissionAlternative>, blankId: bool) {
    blankId || alternatives == [] || exists i | 0 <= i < |alternatives| :: !IsValid(alternatives[i].constraints)
  }

  predicate AlternativeAllows(a: PermissionAlternative, input: PolicyInput) {
    && GrantForRole(input.role, a.permission).Some?
    && Holds(GrantForRole(input.role, a.permission).value.constraints, input)
    && Holds(a.constraints, input)
  }

  function Merge(matched: seq<TargetConstraint>, more: seq<TargetConstraint>): seq<TargetConstraint>
    decreases |more|
  {
    if more == [] then matched
    else Merge(if more[0] in matched then matched else matched + [more[0]], more[1..])
  }

  lemma {:induction false} MergeKeepsBoth(matched: seq<TargetConstraint>, more: seq<TargetConstraint>,
                                          input: PolicyInput)
    ensures AllHold(Merge(matched, more), input) <==> AllHold(matched, input) && AllHold(more, input)
    decreases |more|
  {
    if more != [] {
      var next := if more[0] in matched then matched else matched + [more[0]];
      MergeKeepsBoth(next, more[1..], input);
      assert AllHold(more, input) <==> AtomHolds(more[0], input) && AllHold(more[1..], input) by {
        assert more == [more[0]] + more[1..];
      }
      assert AllHold(next, input) <==> AllHold(matched, input) && AtomHolds(more[0], input) by {
        if more[0] !in matched && AllHold(next, input) {
          assert next[|matched|] == more[0] && forall i | 0 <= i < |matched| :: next[i] == matched[i];
        }
      }
    }
  }

  predicate NoneTwice(cs: seq<TargetConstraint>) {
    forall i, j | 0 <= i < j < |cs| :: cs[i] != cs[j]
  }

  /** Merging appends what is new, once. */
  lemma {:induction false} MergeIsUnion(matched: seq<TargetConstraint>, more: seq<TargetConstraint>)
    ensures matched <= Merge(matched, more)
    ensures forall c :: c in Merge(matched, more) <==> c in matched || c in more
    ensures NoneTwice(matched) ==> NoneTwice(Merge(matched, more))
    decreases |more|
  {
    if more != [] {
      MergeIsUnion(if more[0] in matched then matched else matched + [more[0]], more[1..]);
      assert more == [more[0]] + more[1..];
    }
  }

  method MergeMatched(matched: seq<TargetConstraint>, more: seq<TargetConstraint>) returns (all: seq<TargetConstraint>)
    ensures all == Merge(matched, more)
  {
    all := matched;
    for i := 0 to |more|
      invariant Merge(all, more[i..]) == Merge(matched, more)
    {
      assert more[i..][1..] == more[i + 1..];
      if more[i] !in all {
        all := all + [more[i]];
      }
    }
  }

  /** The permission is the session's and the route's own constraints hold. */
  predicate Permits(a: PermissionAlternative, input: PolicyInput) {
    Entitled(a.permission, input) && Holds(a.constraints, input)
  }

  predicate FirstToPermit(alternatives: seq<PermissionAlternative>, input: PolicyInput, i: nat) {
    i < |alternatives| && Permits(alternatives[i], input) && forall k | 0 <= k < i :: !Permits(alternatives[k], input)
  }

  lemma {:induction false} AllowsExactly(a: PermissionAlternative, input: PolicyInput)
    ensures AlternativeAllows(a, input) <==> Permits(a, input)
    ensures RoleMayHold(input.role, a.permission) <==> Holder(input.role, a.permission)
    ensures GrantForRole(input.role, a.permission).Some? ==>
              CutDownTo(input.role, a.permission, GrantForRole(input.role, a.permission).value.projection)
  {
    GrantedExactly(a.permission, input);
    HolderIsRole(input.role, a.permission);
  }

  /** The first alternative that allows the input decides. */
  function FirstAllowing(alternatives: seq<PermissionAlternative>, input: PolicyInput): (i: nat)
    ensures i <= |alternatives|
    ensures forall k | 0 <= k < i :: !AlternativeAllows(alternatives[k], input)
    ensures i < |alternatives| ==> AlternativeAllows(alternatives[i], input)
  {
    if alternatives == [] || AlternativeAllows(alternatives[0], input) then 0
    else
      var rest := FirstAllowing(alternatives[1..], input);
      assert forall k | 1 <= k < rest + 1 :: alternatives[k] == alternatives[1..][k - 1];
      rest + 1
  }

  /** The first alternative whose permission the role may hold. */
  predicate FirstHeld(alternatives: seq<PermissionAlternative>, role: PrimaryRole, i: nat) {
    && i < |alternatives| && Holder(role, alternatives[i].permission)
    && forall k | 0 <= k < i :: !Holder(role, alternatives[k].permission)
  }

  /** What fails an alternative the role holds: its grant's failed constraint, or else its own. */
  function FailedIn(a: PermissionAlternative, input: PolicyInput): Option<TargetConstraint> {
    var grant := GrantForRole(input.role, a.permission);
    if grant.None? then None
    else
      var r := Evaluate(grant.value.constraints, input);
      if !r.allowed then r.failed else Evaluate(a.constraints, input).failed
  }

  lemma {:induction false} FactsDecide(alternatives: seq<PermissionAlternative>, input: PolicyInput)
    ensures var i := FirstAllowing(alternatives, input);
            && (i < |alternatives| <==> exists k | 0 <= k < |alternatives| :: Permits(alternatives[k], input))
            && (forall k: nat | FirstToPermit(alternatives, input, k) :: k == i)
            && (i < |alternatives| ==>
                  var permission := alternatives[i].permission;
                  && GrantForRole(input.role, permission).Some?
                  && CutDownTo(input.role, permission, GrantForRole(input.role, permission).value.projection))
    ensures forall k | 0 <= k < |alternatives| ::
              RoleMayHold(input.role, alternatives[k].permission) <==> Holder(input.role, alternatives[k].permission)
  {
    forall a {
      AllowsExactly(a, input);
    }
  }

  /** On their own the matched constraints are enough for the alternative to allow the role. */
  ghost predicate Evidence(matched: seq<TargetConstraint>, role: PrimaryRole, a: PermissionAlternative) {
    forall other: PolicyInput | other.role == role && AllHold(matched, other) :: AlternativeAllows(a, other)
  }

  lemma {:induction false} AlternativeFacts(a: PermissionAlternative, input: PolicyInput, g: ConstraintResult,
                                            r: ConstraintResult)
    requires GrantForRole(input.role, a.permission).Some? && IsValid(a.constraints)
    requires g == Evaluate(GrantForRole(input.role, a.permission).value.constraints, input)
    requires r == Evaluate(a.constraints, input)
    ensures AlternativeAllows(a, input) <==> g.allowed && r.allowed
    ensures !g.allowed ==> g.failed.Some? && !AtomHolds(g.failed.value, input)
    ensures !r.allowed ==> r.failed.Some? && !AtomHolds(r.failed.value, input)
    ensures g.allowed && r.allowed ==>
              && AllHold(Merge(g.matched, r.matched), input)
              && Evidence(Merge(g.matched, r.matched), input.role, a)
  {
    var grant := GrantForRole(input.role, a.permission).value.constraints;
    EvaluatorMeaning(grant, input);
    EvaluatorMeaning(a.constraints, input);
    GrantsAreValid(input.role, a.permission);
    var all := Merge(g.matched, r.matched);
    MergeKeepsBoth(g.matched, r.matched, input);
    if g.allowed && r.allowed {
      forall other: PolicyInput | other.role == input.role && AllHold(all, other)
        ensures AlternativeAllows(a, other)
      {
        MergeKeepsBoth(g.matched, r.matched, other);
      }
    }
  }

  /** The loop over the alternatives of a well-formed requirement. */
  method TryAlternatives(input: PolicyInput, alternatives: seq<PermissionAlternative>)
    returns (d: PolicyDecision, ghost first: nat)
    requires forall i | 0 <= i < |alternatives| :: IsValid(alternatives[i].constraints)
    ensures d.Allow? <==> exists i | 0 <= i < |alternatives| :: AlternativeAllows(alternatives[i], input)
    ensures d.Allow? ==>
              var i := FirstAllowing(alternatives, input);
              && i < |alternatives| && d.permission == alternatives[i].permission
              && d.projection == (if alternatives[i].projection.Some? then alternatives[i].projection
                                  else GrantForRole(input.role, alternatives[i].permission).value.projection)
              && AllHold(d.matched, input) && Evidence(d.matched, input.role, alternatives[i])
    ensures d.Deny? ==> d.reason.RoleDenied? || d.reason.ConstraintFailed?
    ensures d == Deny(RoleDenied) <==>
            forall i | 0 <= i < |alternatives| :: !RoleMayHold(input.role, alternatives[i].permission)
    ensures d.Deny? && d.reason.ConstraintFailed? ==> !AtomHolds(d.reason.c, input)
    ensures d.Deny? && d.reason.ConstraintFailed? ==>
              && first < |alternatives| && FailedIn(alternatives[first], input) == Some(d.reason.c)
              && RoleMayHold(input.role, alternatives[first].permission)
              && forall k | 0 <= k < first :: !RoleMayHold(input.role, alternatives[k].permission)
  {
    var firstFailure: Option<TargetConstraint> := None;
    var roleMatched := false;
    first := 0;
    for i := 0 to |alternatives|
      invariant forall k | 0 <= k < i :: !AlternativeAllows(alternatives[k], input)
      invariant roleMatched <==> exists k | 0 <= k < i :: RoleMayHold(input.role, alternatives[k].permission)
      invariant roleMatched <==> firstFailure.Some?
      invariant firstFailure.Some? ==> !AtomHolds(firstFailure.value, input)
      invariant firstFailure.None? ==> first == i
      invariant firstFailure.Some? ==> first < i && FailedIn(alternatives[first], input) == firstFailure
      invariant firstFailure.Some? ==> RoleMayHold(input.role, alternatives[first].permission)
      invariant forall k | 0 <= k < first :: !RoleMayHold(input.role, alternatives[k].permission)
    {
      var a := alternatives[i];
      var grant := GrantForRole(input.role, a.permission);
      if grant.None? {
        first := if firstFailure.None? then i + 1 else first;
        continue;
      }
      roleMatched := true;
      AlternativeFacts(a, input, Evaluate(grant.value.constraints, input), Evaluate(a.constraints, input));
      var grantResult := EvaluateConstraint(grant.value.constraints, input);
      if !grantResult.allowed {
        if firstFailure.None? {
          firstFailure := grantResult.failed;
        }
        continue;
      }
      var alternativeResult := EvaluateConstraint(a.constraints, input);
      if !alternativeResult.allowed {
        if firstFailure.None? {
          firstFailure := alternativeResult.failed;
        }
        continue;
      }
      var matched := MergeMatched(grantResult.matched, alternativeResult.matched);
      var projection := if a.projection.Some? then a.projection else grant.value.projection;
      return Allow(a.permission, matched, projection), first;
    }
    d := Deny(if firstFailure.Some? then ConstraintFailed(firstFailure.value) else RoleDenied);
  }

  /** A requirement as its deserialization guarantees it. */
  predicate Proper(alternatives: seq<PermissionAlternative>, blankId: bool) {
    !blankId && |alternatives| > 0 && forall i | 0 <= i < |alternatives| :: IsValid(alternatives[i].constraints)
  }

  /** A browser requirement is allowed exactly when the session is a browser session, the requirement is well formed
      and for some alternative the facts that its permission asks for and its own constraints hold; the first such
      alternative supplies the permission and the projection, and the constraints reported are evidence for it. A denial
      for a failed constraint names a false one, of the first alternative whose permission the role may hold. */
  method EvaluateBrowser(input: PolicyInput, alternatives: seq<PermissionAlternative>, blankId: bool)
    returns (d: PolicyDecision)
    ensures d.Allow? <==> input.authenticationKind.BrowserSession? && Proper(alternatives, blankId)
                          && exists i | 0 <= i < |alternatives| :: Permits(alternatives[i], input)
    ensures d.Allow? ==> forall i: nat | FirstToPermit(alternatives, input, i) ::
              && d.permission == alternatives[i].permission
              && (if alternatives[i].projection.Some? then d.projection == alternatives[i].projection
                  else CutDownTo(input.role, d.permission, d.projection))
              && AllHold(d.matched, input) && Evidence(d.matched, input.role, alternatives[i])
    ensures d == Deny(AuthenticationKindDenied) <==> !input.authenticationKind.BrowserSession?
    ensures d == Deny(UnknownPolicy) <==>
            input.authenticationKind.BrowserSession? && !Proper(alternatives, blankId)
    ensures d == Deny(RoleDenied) <==>
            && input.authenticationKind.BrowserSession? && Proper(alternatives, blankId)
            && forall i | 0 <= i < |alternatives| :: !Holder(input.role, alternatives[i].permission)
    ensures d.Deny? && d.reason.ConstraintFailed? ==> !AtomHolds(d.reason.c, input)
    ensures d.Deny? && d.reason.ConstraintFailed? ==>
              forall i: nat | FirstHeld(alternatives, input.role, i) ::
                FailedIn(alternatives[i], input) == Some(d.reason.c)
  {
    FactsDecide(alternatives, input);
    if !input.authenticationKind.BrowserSession? {
      return Deny(AuthenticationKindDenied);
    }
    if Malformed(alternatives, blankId) {
      return Deny(UnknownPolicy);
    }
    ghost var first;
    d, first := TryAlternatives(input, alternatives);
  }

  /** The alternatives the route inventory keeps for a role. */
  predicate Feasible(role: PrimaryRole, a: PermissionAlternative) {
    && GrantForRole(role, a.permission).Some?
    && ConstraintsCanOverlap(GrantForRole(role, a.permission).value.constraints, a.constraints)
  }

  /** Some browser session of the role is allowed by the alternative. */
  ghost predicate CanAllow(role: PrimaryRole, a: PermissionAlternative) {
    exists input: PolicyInput :: OfRole(input, role) && AlternativeAllows(a, input)
  }

  lemma {:induction false} AllowedByBoth(role: PrimaryRole, a: PermissionAlternative, input: PolicyInput)
    requires OfRole(input, role) && GrantForRole(role, a.permission).Some?
    ensures AlternativeAllows(a, input) <==>
            BothAllowed(GrantForRole(role, a.permission).value.constraints, a.constraints, input)
  {
    EvaluatorMeaning(GrantForRole(role, a.permission).value.constraints, input);
    EvaluatorMeaning(a.constraints, input);
  }

  /** The static test of one alternative is exact. */
  lemma {:induction false} FeasibleExactly(role: PrimaryRole, a: PermissionAlternative)
    requires IsValid(a.constraints)
    ensures Feasible(role, a) <==> CanAllow(role, a)
  {
    if GrantForRole(role, a.permission).Some? {
      var grant := GrantForRole(role, a.permission).value.constraints;
      GrantsAreValid(role, a.permission);
      ValidHasNoEmptyAllOf(grant);
      ValidHasNoEmptyAllOf(a.constraints);
      OverlapIsExact(grant, a.constraints, role);
      if Feasible(role, a) {
        var input: PolicyInput :| OfRole(input, role) && BothAllowed(grant, a.constraints, input);
        AllowedByBoth(role, a, input);
      }
      if CanAllow(role, a) {
        var input: PolicyInput :| OfRole(input, role) && AlternativeAllows(a, input);
        AllowedByBoth(role, a, input);
      }
    }
  }

  /** Some browser session of the role is allowed by the requirement. */
  ghost predicate RequirementCanAllow(role: PrimaryRole, alternatives: seq<PermissionAlternative>) {
    exists input: PolicyInput :: OfRole(input, role) && FirstAllowing(alternatives, input) < |alternatives|
  }

  lemma {:induction false} OneAlternativeIsEnough(role: PrimaryRole, alternatives: seq<PermissionAlternative>)
    ensures RequirementCanAllow(role, alternatives) <==> exists i | 0 <= i < |alternatives| ::
              CanAllow(role, alternatives[i])
  {
    if RequirementCanAllow(role, alternatives) {
      var input: PolicyInput :| OfRole(input, role) && FirstAllowing(alternatives, input) < |alternatives|;
      assert CanAllow(role, alternatives[FirstAllowing(alternatives, input)]);
    }
    if i :| 0 <= i < |alternatives| && CanAllow(role, alternatives[i]) {
      var input: PolicyInput :| OfRole(input, role) && AlternativeAllows(alternatives[i], input);
      assert FirstAllowing(alternatives, input) < |alternatives|;
    }
  }

  /** A role's baseline reads "deny" exactly when no browser session of that role is ever allowed. */
  lemma {:induction false} StaticDenyIsExact(role: PrimaryRole, alternatives: seq<PermissionAlternative>)
    requires forall i | 0 <= i < |alternatives| :: IsValid(alternatives[i].constraints)
    ensures (forall i | 0 <= i < |alternatives| :: !Feasible(role, alternatives[i]))
            <==> !RequirementCanAllow(role, alternatives)
  {
    OneAlternativeIsEnough(role, alternatives);
    forall i | 0 <= i < |alternatives|
      ensures Feasible(role, alternatives[i]) <==> CanAllow(role, alternatives[i])
    {
      FeasibleExactly(role, alternatives[i]);
    }
  }

  // ---- The projections an inventory lists -----------------------------------------------

  /** What a browser session gets to see, if the requirement allows it anything. */
  function ProjectionFor(alternatives: seq<PermissionAlternative>, blankId: bool,
                         input: PolicyInput): Option<ResponseProjection>
  {
    var i := FirstAllowing(alternatives, input);
    if Malformed(alternatives, blankId) || i == |alternatives| then None
    else
      var grant := GrantForRole(input.role, alternatives[i].permission).value;
      Some(if alternatives[i].projection.Some? then alternatives[i].projection.value
           else if grant.projection.Some? then grant.projection.value else Full)
  }

  /** What the first alternative to permit shows: its own projection, or what the role's grant is cut down to. */
  predicate Shows(role: PrimaryRole, a: PermissionAlternative, p: ResponseProjection) {
    if a.projection.Some? then p == a.projection.value
    else CutDownTo(role, a.permission, if p == Full then None else Some(p))
  }

  lemma {:induction false} SeenExactly(alternatives: seq<PermissionAlternative>, blankId: bool, input: PolicyInput,
                                       p: ResponseProjection)
    ensures ProjectionFor(alternatives, blankId, input) == Some(p) <==>
            && !Malformed(alternatives, blankId)
            && exists i: nat | i < |alternatives| ::
                 FirstToPermit(alternatives, input, i) && Shows(input.role, alternatives[i], p)
  {
    FactsDecide(alternatives, input);
    var i := FirstAllowing(alternatives, input);
    if i < |alternatives| {
      AllowsExactly(alternatives[i], input);
      forall k | 0 <= k < i
        ensures !Permits(alternatives[k], input)
      {
        AllowsExactly(alternatives[k], input);
      }
      assert FirstToPermit(alternatives, input, i);
    }
  }

  /** An input made up of the four facts, the aggregate grant, a kind and a lifecycle. */
  function Probe(role: PrimaryRole, self: bool, owner: bool, project: bool, audience: bool, aggregate: bool,
                 kind: Option<ResourceKind>, lifecycle: Option<LifecycleState>): PolicyInput
  {
    PolicyInput(1, Some(3), role, BrowserSession,
                AuthorizationTarget(Some(if project then 3 else 4), Some(if self then 1 else 2),
                                    Some(if owner then 1 else 2), kind, lifecycle, Some(audience)),
                Some(aggregate))
  }

  /** The inputs the inventory tries: every combination of the four facts, with a kind, a lifecycle
      and the aggregate grant. */
  predicate Probed(role: PrimaryRole, input: PolicyInput) {
    exists self, owner, project, audience, k, l | 0 <= k < |RESOURCE_KINDS| && 0 <= l < |LIFECYCLES| ::
      input == Probe(role, self, owner, project, audience, true, Some(RESOURCE_KINDS[k]), Some(LIFECYCLES[l]))
  }

  const KIND_OPTIONS: seq<Option<ResourceKind>> :=
    [None, Some(AgentTeam), Some(Skill), Some(Plugin), Some(Workflow), Some(Command)]
  const LIFECYCLE_OPTIONS: seq<Option<LifecycleState>> :=
    [None, Some(Draft), Some(Beta), Some(Published), Some(Archived), Some(Deprecated)]

  /** The same with the aggregate grant withheld too, and with the kind or the lifecycle absent. */
  predicate FullyProbed(role: PrimaryRole, input: PolicyInput) {
    exists self, owner, project, audience, aggregate, k, l | 0 <= k < |KIND_OPTIONS| && 0 <= l < |LIFECYCLE_OPTIONS| ::
      input == Probe(role, self, owner, project, audience, aggregate, KIND_OPTIONS[k], LIFECYCLE_OPTIONS[l])
  }

  ghost predicate Inventoried(role: PrimaryRole, alternatives: seq<PermissionAlternative>, blankId: bool,
                              p: ResponseProjection)
  {
    exists input: PolicyInput :: Probed(role, input) && ProjectionFor(alternatives, blankId, input) == Some(p)
  }

  ghost predicate FullyInventoried(role: PrimaryRole, alternatives: seq<PermissionAlternative>, blankId: bool,
                                   p: ResponseProjection)
  {
    exists input: PolicyInput :: FullyProbed(role, input) && ProjectionFor(alternatives, blankId, input) == Some(p)
  }

  /** An input that states its kind and lifecycle and is granted aggregate-only. */
  predicate Stated(input: PolicyInput) {
    input.target.resourceKind.Some? && input.target.lifecycle.Some? && input.aggregateOnly == Some(true)
  }

  ghost predicate SomeoneStatedGets(role: PrimaryRole, alternatives: seq<PermissionAlternative>, blankId: bool,
                                    p: ResponseProjection)
  {
    exists input: PolicyInput ::
      OfRole(input, role) && Stated(input) && ProjectionFor(alternatives, blankId, input) == Some(p)
  }

  ghost predicate SomeoneGets(role: PrimaryRole, alternatives: seq<PermissionAlternative>, blankId: bool,
                              p: ResponseProjection)
  {
    exists input: PolicyInput :: OfRole(input, role) && ProjectionFor(alternatives, blankId, input) == Some(p)
  }

  /** The probe with the facts of an input. */
  function ProbeOf(input: PolicyInput): PolicyInput {
    Probe(input.role, AtomHolds(SelfActor, input), AtomHolds(OwnerActor, input), AtomHolds(SameProject, input),
          AtomHolds(EffectiveAudience, input), AtomHolds(AggregateOnly, input), input.target.resourceKind,
          input.target.lifecycle)
  }

  lemma {:induction false} ProbeHoldsAlike(e: ConstraintExpr, input: PolicyInput)
    ensures Holds(e, ProbeOf(input)) <==> Holds(e, input)
  {
    if Holds(e, input) {
      MoreFactsNeverDeny(e, input, ProbeOf(input));
    }
    if Holds(e, ProbeOf(input)) {
      MoreFactsNeverDeny(e, ProbeOf(input), input);
    }
  }

  lemma {:induction false} ProbeDecidesAlike(alternatives: seq<PermissionAlternative>, input: PolicyInput)
    ensures FirstAllowing(alternatives, ProbeOf(input)) == FirstAllowing(alternatives, input)
  {
    forall i | 0 <= i < |alternatives|
      ensures AlternativeAllows(alternatives[i], ProbeOf(input)) <==> AlternativeAllows(alternatives[i], input)
    {
      var grant := GrantForRole(input.role, alternatives[i].permission);
      if grant.Some? {
        ProbeHoldsAlike(grant.value.constraints, input);
        ProbeHoldsAlike(alternatives[i].constraints, input);
      }
    }
  }

  lemma {:induction false} ProbeGetsAlike(alternatives: seq<PermissionAlternative>, blankId: bool, input: PolicyInput)
    ensures ProjectionFor(alternatives, blankId, ProbeOf(input)) == ProjectionFor(alternatives, blankId, input)
  {
    ProbeDecidesAlike(alternatives, input);
  }

  lemma {:induction false} ProbesAreStated(role: PrimaryRole, input: PolicyInput)
    requires Probed(role, input)
    ensures OfRole(input, role) && Stated(input)
  {
  }

  lemma {:induction false} FullProbesAreSessions(role: PrimaryRole, input: PolicyInput)
    requires FullyProbed(role, input)
    ensures OfRole(input, role)
  {
  }

  lemma {:induction false} ProbesAreEnough(role: PrimaryRole, input: PolicyInput)
    requires OfRole(input, role) && Stated(input)
    ensures Probed(role, ProbeOf(input))
  {
    TablesAreComplete(input.target.resourceKind.value, input.target.lifecycle.value);
    var k :| 0 <= k < |RESOURCE_KINDS| && RESOURCE_KINDS[k] == input.target.resourceKind.value;
    var l :| 0 <= l < |LIFECYCLES| && LIFECYCLES[l] == input.target.lifecycle.value;
    assert ProbeOf(input) == Probe(role, AtomHolds(SelfActor, input), AtomHolds(OwnerActor, input),
                                   AtomHolds(SameProject, input), AtomHolds(EffectiveAudience, input), true,
                                   Some(RESOURCE_KINDS[k]), Some(LIFECYCLES[l]));
  }

  lemma {:induction false} OptionsAreComplete(kind: Option<ResourceKind>, lifecycle: Option<LifecycleState>)
    ensures kind in KIND_OPTIONS && lifecycle in LIFECYCLE_OPTIONS
  {
    match kind {
      case None => assert KIND_OPTIONS[0] == kind;
      case Some(AgentTeam) => assert KIND_OPTIONS[1] == kind;
      case Some(Skill) => assert KIND_OPTIONS[2] == kind;
      case Some(Plugin) => assert KIND_OPTIONS[3] == kind;
      case Some(Workflow) => assert KIND_OPTIONS[4] == kind;
      case Some(Command) => assert KIND_OPTIONS[5] == kind;
    }
    match lifecycle {
      case None => assert LIFECYCLE_OPTIONS[0] == lifecycle;
      case Some(Draft) => assert LIFECYCLE_OPTIONS[1] == lifecycle;
      case Some(Beta) => assert LIFECYCLE_OPTIONS[2] == lifecycle;
      case Some(Published) => assert LIFECYCLE_OPTIONS[3] == lifecycle;
      case Some(Archived) => assert LIFECYCLE_OPTIONS[4] == lifecycle;
      case Some(Deprecated) => assert LIFECYCLE_OPTIONS[5] == lifecycle;
    }
  }

  lemma {:induction false} FullProbesAreEnough(role: PrimaryRole, input: PolicyInput)
    requires OfRole(input, role)
    ensures FullyProbed(role, ProbeOf(input))
  {
    OptionsAreComplete(input.target.resourceKind, input.target.lifecycle);
    var k :| 0 <= k < |KIND_OPTIONS| && KIND_OPTIONS[k] == input.target.resourceKind;
    var l :| 0 <= l < |LIFECYCLE_OPTIONS| && LIFECYCLE_OPTIONS[l] == input.target.lifecycle;
    assert ProbeOf(input) == Probe(role, AtomHolds(SelfActor, input), AtomHolds(OwnerActor, input),
                                   AtomHolds(SameProject, input), AtomHolds(EffectiveAudience, input),
                                   AtomHolds(AggregateOnly, input), KIND_OPTIONS[k], LIFECYCLE_OPTIONS[l]);
  }

  /** The inventory lists exactly the projections that some browser session of the role can get on a
      target whose kind and lifecycle are known, when aggregate-only is granted. */
  lemma {:induction false} InventoryIsExact(role: PrimaryRole, alternatives: seq<PermissionAlternative>, blankId: bool,
                                            p: ResponseProjection)
    ensures Inventoried(role, alternatives, blankId, p) <==> SomeoneStatedGets(role, alternatives, blankId, p)
  {
    forall input: PolicyInput | Probed(role, input) && ProjectionFor(alternatives, blankId, input) == Some(p)
      ensures SomeoneStatedGets(role, alternatives, blankId, p)
    {
      ProbesAreStated(role, input);
    }
    forall input: PolicyInput | OfRole(input, role) && Stated(input)
           && ProjectionFor(alternatives, blankId, input) == Some(p)
      ensures Inventoried(role, alternatives, blankId, p)
    {
      ProbesAreEnough(role, input);
      ProbeGetsAlike(alternatives, blankId, input);
    }
  }

  lemma {:induction false} FullInventoryIsExact(role: PrimaryRole, alternatives: seq<PermissionAlternative>,
                                                blankId: bool,
                                                p: ResponseProjection)
    ensures FullyInventoried(role, alternatives, blankId, p) <==> SomeoneGets(role, alternatives, blankId, p)
  {
    forall input: PolicyInput | FullyProbed(role, input) && ProjectionFor(alternatives, blankId, input) == Some(p)
      ensures SomeoneGets(role, alternatives, blankId, p)
    {
      FullProbesAreSessions(role, input);
    }
    forall input: PolicyInput | OfRole(input, role) && ProjectionFor(alternatives, blankId, input) == Some(p)
      ensures FullyInventoried(role, alternatives, blankId, p)
    {
      FullProbesAreEnough(role, input);
      ProbeGetsAlike(alternatives, blankId, input);
    }
  }

  /** Exactly when the list is complete for a role, whatever the session: trying the remaining
      combinations, with the aggregate grant withheld or the kind or lifecycle absent, adds nothing. */
  lemma {:induction false} InventoryIsCompleteExactly(role: PrimaryRole, alternatives: seq<PermissionAlternative>,
                                                      blankId: bool)
    ensures (forall p :: SomeoneGets(role, alternatives, blankId, p) ==> Inventoried(role, alternatives, blankId, p))
            <==> forall input: PolicyInput | FullyProbed(role, input)
              && ProjectionFor(alternatives, blankId, input).Some? ::
                   Inventoried(role, alternatives, blankId, ProjectionFor(alternatives, blankId, input).value)
  {
    forall p: ResponseProjection
      ensures FullyInventoried(role, alternatives, blankId, p) <==> SomeoneGets(role, alternatives, blankId, p)
    {
      FullInventoryIsExact(role, alternatives, blankId, p);
    }
    forall input: PolicyInput | FullyProbed(role, input) && ProjectionFor(alternatives, blankId, input).Some?
      ensures SomeoneGets(role, alternatives, blankId, ProjectionFor(alternatives, blankId, input).value)
    {
      FullProbesAreSessions(role, input);
    }
  }

  /** Where it is not: the probes always stop at an alternative for aggregates, and only sessions
      without that grant reach the one behind it. */
  lemma {:induction false} InventoryMissesTheRest(input: PolicyInput, alternatives: seq<PermissionAlternative>)
    requires OfRole(input, Admin) && input.aggregateOnly != Some(true)
    requires var permission := ResourceMonitoringMemberDetailRead;
             alternatives == [PermissionAlternative(permission, Atom(AggregateOnly), Some(AggregateOnlyProjection)),
                              PermissionAlternative(permission, Atom(Any), Some(Full))]
    ensures ProjectionFor(alternatives, false, input) == Some(Full) && !Inventoried(Admin, alternatives, false, Full)
  {
    assert !AlternativeAllows(alternatives[0], input) && AlternativeAllows(alternatives[1], input);
    assert !Malformed(alternatives, false);
    forall probe: PolicyInput | Probed(Admin, probe)
      ensures ProjectionFor(alternatives, false, probe) == Some(AggregateOnlyProjection)
    {
      ProbesAreStated(Admin, probe);
      assert AlternativeAllows(alternatives[0], probe);
    }
  }
}
