/** Deny-first resolution of attribute-based policies. */
module Abac {
  import opened Wrappers
  import opened Text
  import opened JsonValues
  import opened Filtering
  import opened Evaluator

  /** The effect column; the loops only ever ask for the first two. */
  datatype Effect = Deny | Allow | Unknown(name: string)

  datatype Reason = PolicyInvalid | ByPolicy(effect: Effect) | DefaultDeny | DefaultAllow | AbacDisabled

  datatype Policy = Policy(
    id: string, enabled: bool, tenant: Option<string>, effect: Effect, resourceType: string, action: string,
    condition: Json)

  /** One line of the trace: what a consulted policy evaluated to. */
  datatype Step = Step(policyId: string, effect: Effect, outcome: Result<bool, PolicyError>)

  datatype Decision = Decision(allowed: bool, reason: Reason, matchedPolicy: Option<string>, trace: seq<Step>)

  /** What a request asks for; `compare` resolves operands in the request's context. */
  datatype Query = Query(resourceType: string, action: string, compare: Comparator)

  const ANY := "*"

  // ------------------------------------------------------------------- one policy

  predicate Falsy(json: Json) {
    match json
    case Null => true
    case Bool(truth) => !truth
    case Number(value) => value == 0.0
    case Text(text) => text == ""
    case List(items) => items == []
    case Object(fields) => fields == map[]
  }

  /** The stored condition; a falsy one counts as the empty condition. */
  function ConditionOf(policy: Policy): Json {
    if Falsy(policy.condition) then Object(map[]) else policy.condition
  }

  function OutcomeOf(policy: Policy, query: Query): Result<bool, PolicyError> {
    Evaluate(ConditionOf(policy), query.compare)
  }

  predicate InScope(policy: Policy, query: Query) {
    && (policy.resourceType == query.resourceType || policy.resourceType == ANY)
    && (policy.action == query.action || policy.action == ANY)
  }

  predicate IsConsulted(policy: Policy, effect: Effect, query: Query) {
    policy.enabled && policy.effect == effect && InScope(policy, query)
  }

  function Asking(effect: Effect, query: Query): Policy -> bool {
    policy => IsConsulted(policy, effect, query)
  }

  function Consulted(policies: seq<Policy>, effect: Effect, query: Query): seq<Policy> {
    Keep(policies, Asking(effect, query))
  }

  // ------------------------------------------------------------------- the decision

  /** The place of the first policy that matches or fails, or the length if none does. */
  function FirstDecisive(policies: seq<Policy>, query: Query): (k: nat)
    ensures k <= |policies|
    ensures forall i | 0 <= i < k :: OutcomeOf(policies[i], query) == Ok(false)
    ensures k < |policies| ==> OutcomeOf(policies[k], query) != Ok(false)
  {
    if policies == [] then 0
    else if OutcomeOf(policies[0], query) == Ok(false) then
      assert forall i | 0 < i < |policies| :: policies[i] == policies[1..][i - 1];
      1 + FirstDecisive(policies[1..], query)
    else 0
  }

  function StepOf(policy: Policy, query: Query): Step {
    Step(policy.id, policy.effect, OutcomeOf(policy, query))
  }

  function Steps(policies: seq<Policy>, query: Query): (steps: seq<Step>)
    ensures |steps| == |policies| && forall i | 0 <= i < |policies| :: steps[i] == StepOf(policies[i], query)
  {
    seq(|policies|, i requires 0 <= i < |policies| => StepOf(policies[i], query))
  }

  function Reported(trace: seq<Step>, includeTrace: bool): seq<Step> {
    if includeTrace then trace else []
  }

  /** A decisive policy decides: its effect when it matches, a refusal when it fails. */
  function DecidedBy(policy: Policy, query: Query, trace: seq<Step>): Decision {
    if OutcomeOf(policy, query).Err? then Decision(false, PolicyInvalid, Some(policy.id), trace)
    else Decision(policy.effect == Allow, ByPolicy(policy.effect), Some(policy.id), trace)
  }

  function DefaultDecision(defaultDeny: bool, trace: seq<Step>): Decision {
    if defaultDeny then Decision(false, DefaultDeny, None, trace) else Decision(true, DefaultAllow, None, trace)
  }

  /** A pass over consulted policies: the decisive one, and the policies it got to. */
  datatype Pass = Pass(decisive: Option<Policy>, steps: seq<Step>)

  function PassOver(consulted: seq<Policy>, query: Query): Pass {
    var k := FirstDecisive(consulted, query);
    if k < |consulted| then Pass(Some(consulted[k]), Steps(consulted[..k + 1], query))
    else Pass(None, Steps(consulted, query))
  }

  function Conclude(decisive: Option<Policy>, query: Query, trace: seq<Step>, defaultDeny: bool): Decision {
    if decisive.Some? then DecidedBy(decisive.value, query, trace) else DefaultDecision(defaultDeny, trace)
  }

  /** Deny policies are consulted first, then allow policies, each in the given order;
      the first decisive one decides, and the trace holds every policy consulted. */
  function Resolve(policies: seq<Policy>, query: Query, includeTrace: bool, defaultDeny: bool): Decision {
    var denies := PassOver(Consulted(policies, Deny, query), query);
    if denies.decisive.Some? then Conclude(denies.decisive, query, Reported(denies.steps, includeTrace), defaultDeny)
    else
      var allows := PassOver(Consulted(policies, Allow, query), query);
      Conclude(allows.decisive, query, Reported(denies.steps + allows.steps, includeTrace), defaultDeny)
  }

  // ------------------------------------------------------------------- the loops

  lemma ConsultedStep(policies: seq<Policy>, i: nat, effect: Effect, query: Query)
    requires i < |policies|
    ensures Consulted(policies[..i + 1], effect, query)
         == Consulted(policies[..i], effect, query)
            + if IsConsulted(policies[i], effect, query) then [policies[i]] else []
    ensures Consulted(policies[..i], effect, query) <= Consulted(policies, effect, query)
  {
    KeepStep(policies, i, Asking(effect, query));
    KeepPrefixOfKeep(policies, i, Asking(effect, query));
  }

  /** No policy matches or fails. */
  predicate AllQuiet(policies: seq<Policy>, query: Query) {
    forall i | 0 <= i < |policies| :: OutcomeOf(policies[i], query) == Ok(false)
  }

  lemma StepsAppend(policies: seq<Policy>, policy: Policy, query: Query)
    ensures Steps(policies + [policy], query) == Steps(policies, query) + [StepOf(policy, query)]
  {
  }

  /** A quiet prefix followed by a decisive policy places the first decisive one. */
  lemma DecisiveAfterQuiet(consulted: seq<Policy>, before: seq<Policy>, policy: Policy, query: Query)
    requires before + [policy] <= consulted && AllQuiet(before, query) && OutcomeOf(policy, query) != Ok(false)
    ensures FirstDecisive(consulted, query) == |before| && consulted[..|before| + 1] == before + [policy]
    ensures consulted[|before|] == policy
  {
    assert forall i | 0 <= i < |before| :: consulted[i] == (before + [policy])[i] == before[i];
    assert consulted[|before|] == (before + [policy])[|before|];
  }

  /** One pass over the policies of one effect: stops at the first decisive one. */
  method ConsultEffect(policies: seq<Policy>, effect: Effect, query: Query) returns (pass: Pass)
    ensures pass == PassOver(Consulted(policies, effect, query), query)
  {
    var steps := [];
    for i := 0 to |policies|
      invariant AllQuiet(Consulted(policies[..i], effect, query), query)
      invariant steps == Steps(Consulted(policies[..i], effect, query), query)
    {
      ConsultedStep(policies, i, effect, query);
      var policy := policies[i];
      if !policy.enabled || policy.effect != effect || !InScope(policy, query) {
        continue;
      }
      ghost var before := Consulted(policies[..i], effect, query);
      var outcome := OutcomeOf(policy, query);
      steps := steps + [Step(policy.id, policy.effect, outcome)];
      StepsAppend(before, policy, query);
      if outcome != Ok(false) {
        ConsultedPrefix(policies, i + 1, effect, query);
        DecisiveAfterQuiet(Consulted(policies, effect, query), before, policy, query);
        return Pass(Some(policy), steps);
      }
    }
    assert policies[..|policies|] == policies;
    pass := Pass(None, steps);
  }

  lemma ConsultedPrefix(policies: seq<Policy>, i: nat, effect: Effect, query: Query)
    requires i <= |policies|
    ensures Consulted(policies[..i], effect, query) <= Consulted(policies, effect, query)
  {
    KeepPrefixOfKeep(policies, i, Asking(effect, query));
  }

  method EvaluatePolicySet(policies: seq<Policy>, query: Query, includeTrace: bool, defaultDeny: bool)
    returns (decision: Decision)
    ensures decision == Resolve(policies, query, includeTrace, defaultDeny)
  {
    var pass := ConsultEffect(policies, Deny, query);
    var trace := pass.steps;
    if pass.decisive.None? {
      pass := ConsultEffect(policies, Allow, query);
      trace := trace + pass.steps;
    }
    decision := Conclude(pass.decisive, query, Reported(trace, includeTrace), defaultDeny);
  }

  // ------------------------------------------------------------------- the verdict

  lemma NoneDecisiveExactlyWhenQuiet(consulted: seq<Policy>, query: Query)
    ensures PassOver(consulted, query).decisive.None? <==> AllQuiet(consulted, query)
  {
  }

  lemma ConsultedHaveEffect(policies: seq<Policy>, effect: Effect, query: Query)
    ensures forall i | 0 <= i < |Consulted(policies, effect, query)| ::
              IsConsulted(Consulted(policies, effect, query)[i], effect, query)
  {
    var at := KeepIsSubsequence(policies, Asking(effect, query));
  }

  lemma TrueOrFalse(outcome: Result<bool, PolicyError>)
    requires outcome.Ok? && outcome != Ok(false)
    ensures outcome == Ok(true)
  {
    assert outcome.value;
  }

  lemma DecisiveHasEffect(policies: seq<Policy>, effect: Effect, query: Query)
    requires PassOver(Consulted(policies, effect, query), query).decisive.Some?
    ensures PassOver(Consulted(policies, effect, query), query).decisive.value.effect == effect
  {
    ConsultedHaveEffect(policies, effect, query);
  }

  /** Access is allowed exactly when no deny policy matches or fails, and the first allow
      policy to match or fail matches, or none does and the default is to allow. */
  lemma AllowedExactlyWhen(policies: seq<Policy>, query: Query, includeTrace: bool, defaultDeny: bool)
    ensures Resolve(policies, query, includeTrace, defaultDeny).allowed <==>
              && AllQuiet(Consulted(policies, Deny, query), query)
              && (var allow := PassOver(Consulted(policies, Allow, query), query).decisive;
                  if allow.Some? then OutcomeOf(allow.value, query) == Ok(true) else !defaultDeny)
  {
    NoneDecisiveExactlyWhenQuiet(Consulted(policies, Deny, query), query);
    var deny := PassOver(Consulted(policies, Deny, query), query).decisive;
    var allow := PassOver(Consulted(policies, Allow, query), query).decisive;
    if deny.Some? {
      DecisiveHasEffect(policies, Deny, query);
    } else if allow.Some? {
      DecisiveHasEffect(policies, Allow, query);
      if OutcomeOf(allow.value, query).Ok? {
        TrueOrFalse(OutcomeOf(allow.value, query));
      }
    }
  }

  // ------------------------------------------------------------------- adding a deny policy

  lemma ConsultedOfInsertion(before: seq<Policy>, added: Policy, after: seq<Policy>, effect: Effect, query: Query)
    ensures Consulted(before + [added] + after, effect, query)
         == Consulted(before, effect, query) + Consulted([added], effect, query) + Consulted(after, effect, query)
    ensures Consulted(before + after, effect, query)
         == Consulted(before, effect, query) + Consulted(after, effect, query)
    ensures !IsConsulted(added, effect, query) ==> Consulted([added], effect, query) == []
  {
    var p := Asking(effect, query);
    KeepJoins(before + [added], after, p);
    KeepJoins(before, [added], p);
    KeepJoins(before, after, p);
    KeepOne(added, p);
  }

  lemma QuietParts(x: seq<Policy>, y: seq<Policy>, z: seq<Policy>, query: Query)
    requires AllQuiet(x + y + z, query)
    ensures AllQuiet(x + z, query)
  {
    forall i | 0 <= i < |x + z| ensures OutcomeOf((x + z)[i], query) == Ok(false) {
      var k := if i < |x| then i else i + |y|;
      assert (x + y + z)[k] == (x + z)[i];
    }
  }

  /** Adding a deny policy anywhere never turns a refusal into an allow. */
  lemma AddedDenyNeverAllows(before: seq<Policy>, added: Policy, after: seq<Policy>, query: Query, includeTrace: bool,
                             defaultDeny: bool)
    requires added.effect == Deny
    ensures Resolve(before + [added] + after, query, includeTrace, defaultDeny).allowed
       ==> Resolve(before + after, query, includeTrace, defaultDeny).allowed
  {
    AllowedExactlyWhen(before + [added] + after, query, includeTrace, defaultDeny);
    AllowedExactlyWhen(before + after, query, includeTrace, defaultDeny);
    ConsultedOfInsertion(before, added, after, Deny, query);
    ConsultedOfInsertion(before, added, after, Allow, query);
    if Resolve(before + [added] + after, query, includeTrace, defaultDeny).allowed {
      QuietParts(Consulted(before, Deny, query), Consulted([added], Deny, query), Consulted(after, Deny, query), query);
      assert Consulted(before, Allow, query) + [] == Consulted(before, Allow, query);
    }
  }

  // ------------------------------------------------------------------- who has a say

  /** A policy that is disabled, has neither effect, or is for another resource or another
      action has no say, wherever it stands: the whole decision is the same without it. */
  lemma PolicyForOthersHasNoSay(before: seq<Policy>, added: Policy, after: seq<Policy>, query: Query, includeTrace: bool,
                                defaultDeny: bool)
    requires || !added.enabled || added.effect.Unknown?
             || added.resourceType !in {query.resourceType, "*"} || added.action !in {query.action, "*"}
    ensures Resolve(before + [added] + after, query, includeTrace, defaultDeny)
         == Resolve(before + after, query, includeTrace, defaultDeny)
  {
    ConsultedOfInsertion(before, added, after, Deny, query);
    ConsultedOfInsertion(before, added, after, Allow, query);
    assert Consulted(before, Deny, query) + [] == Consulted(before, Deny, query);
    assert Consulted(before, Allow, query) + [] == Consulted(before, Allow, query);
  }

  /** An enabled deny policy for the resource and the action that matches or fails refuses,
      wherever it stands. */
  lemma DenyInScopeRefuses(policies: seq<Policy>, i: nat, query: Query, includeTrace: bool, defaultDeny: bool)
    requires i < |policies| && policies[i].enabled && policies[i].effect == Deny
    requires policies[i].resourceType in {query.resourceType, "*"} && policies[i].action in {query.action, "*"}
    requires OutcomeOf(policies[i], query) != Ok(false)
    ensures !Resolve(policies, query, includeTrace, defaultDeny).allowed
  {
    AllowedExactlyWhen(policies, query, includeTrace, defaultDeny);
    var k := MemberIsConsulted(policies, i, Deny, query);
  }

  /** An enabled allow policy for the resource and the action that matches lets the request
      through, wherever it stands, unless some policy of theirs fails or a deny policy of
      theirs matches. */
  lemma AllowInScopePermits(policies: seq<Policy>, i: nat, query: Query, includeTrace: bool, defaultDeny: bool)
    requires i < |policies| && policies[i].enabled && policies[i].effect == Allow
    requires policies[i].resourceType in {query.resourceType, "*"} && policies[i].action in {query.action, "*"}
    requires OutcomeOf(policies[i], query) == Ok(true)
    requires forall j | 0 <= j < |policies| && policies[j].enabled && policies[j].resourceType in {query.resourceType, "*"}
                        && policies[j].action in {query.action, "*"} ::
               OutcomeOf(policies[j], query).Ok? && (policies[j].effect == Deny ==> OutcomeOf(policies[j], query) == Ok(false))
    ensures Resolve(policies, query, includeTrace, defaultDeny).allowed
  {
    VerdictWithoutFailures(policies, query, includeTrace, defaultDeny);
    assert IsConsulted(policies[i], Allow, query);
    assert !SomeMatches(policies, Deny, query);
  }

  /** The decision names the policy that made it: an enabled one for the resource and the
      action, whose effect is the verdict when it matches, and which refuses when it fails.
      Without one the default decides. */
  lemma DecisionNamesItsPolicy(policies: seq<Policy>, query: Query, includeTrace: bool, defaultDeny: bool) returns (i: nat)
    ensures var d := Resolve(policies, query, includeTrace, defaultDeny);
            && (d.matchedPolicy == None ==>
                  d.allowed == !defaultDeny && d.reason == if defaultDeny then DefaultDeny else DefaultAllow)
            && (d.matchedPolicy.Some? ==>
                  && i < |policies| && policies[i].id == d.matchedPolicy.value && policies[i].enabled
                  && policies[i].resourceType in {query.resourceType, "*"} && policies[i].action in {query.action, "*"}
                  && policies[i].effect in {Deny, Allow} && OutcomeOf(policies[i], query) != Ok(false)
                  && d.allowed == (policies[i].effect == Allow && OutcomeOf(policies[i], query) == Ok(true))
                  && d.reason == if OutcomeOf(policies[i], query).Err? then PolicyInvalid else ByPolicy(policies[i].effect))
  {
    i := 0;
    var effect := if PassOver(Consulted(policies, Deny, query), query).decisive.Some? then Deny else Allow;
    var consulted := Consulted(policies, effect, query);
    if PassOver(consulted, query).decisive.Some? {
      i := ConsultedIsMember(policies, FirstDecisive(consulted, query), effect, query);
      if OutcomeOf(policies[i], query).Ok? {
        TrueOrFalse(OutcomeOf(policies[i], query));
      }
    }
  }

  lemma PassOutcome(consulted: seq<Policy>, query: Query, k: nat)
    requires k < |PassOver(consulted, query).steps|
    ensures var pass := PassOver(consulted, query);
            && k < |consulted| && pass.steps[k] == StepOf(consulted[k], query)
            && (pass.steps[k].outcome == Ok(false) <==> k < |pass.steps| - 1 || pass.decisive == None)
            && (pass.decisive.Some? && k == |pass.steps| - 1 ==> pass.decisive == Some(consulted[k]))
  {
  }

  lemma PassStep(policies: seq<Policy>, effect: Effect, query: Query, k: nat) returns (i: nat)
    requires k < |PassOver(Consulted(policies, effect, query), query).steps|
    ensures i < |policies| && IsConsulted(policies[i], effect, query)
    ensures var pass := PassOver(Consulted(policies, effect, query), query);
            && pass.steps[k] == Step(policies[i].id, effect, OutcomeOf(policies[i], query))
            && (pass.steps[k].outcome == Ok(false) <==> k < |pass.steps| - 1 || pass.decisive == None)
            && (pass.decisive.Some? && k == |pass.steps| - 1 ==> pass.decisive == Some(policies[i]))
  {
    PassOutcome(Consulted(policies, effect, query), query, k);
    i := ConsultedIsMember(policies, k, effect, query);
  }

  lemma UnaskedTraceIsEmpty(policies: seq<Policy>, query: Query, defaultDeny: bool)
    ensures Resolve(policies, query, false, defaultDeny)
         == Resolve(policies, query, true, defaultDeny).(trace := [])
  {
  }

  /** The trace as far as the deny pass goes, and from there on the allow pass. */
  lemma TraceIsPasses(policies: seq<Policy>, query: Query, defaultDeny: bool)
    ensures var denies, allows := PassOver(Consulted(policies, Deny, query), query),
                                  PassOver(Consulted(policies, Allow, query), query);
            var d := Resolve(policies, query, true, defaultDeny);
            && d.trace == denies.steps + (if denies.decisive.Some? then [] else allows.steps)
            && d.matchedPolicy == (if denies.decisive.Some? then Some(denies.decisive.value.id)
                                   else if allows.decisive.Some? then Some(allows.decisive.value.id) else None)
  {
  }

  /** Every step of the trace is of an enabled policy for the resource and the action, deny
      policies before allow policies; all but the last say no, and so does the last unless
      it made the decision. */
  lemma TraceTellsTheWay(policies: seq<Policy>, query: Query, defaultDeny: bool, k: nat) returns (i: nat)
    requires k < |Resolve(policies, query, true, defaultDeny).trace|
    ensures var d := Resolve(policies, query, true, defaultDeny);
            && i < |policies| && d.trace[k] == Step(policies[i].id, policies[i].effect, OutcomeOf(policies[i], query))
            && policies[i].enabled && policies[i].effect in {Deny, Allow}
            && policies[i].resourceType in {query.resourceType, "*"} && policies[i].action in {query.action, "*"}
            && (k > 0 && policies[i].effect == Deny ==> d.trace[k - 1].effect == Deny)
            && (d.trace[k].outcome == Ok(false) <==> k < |d.trace| - 1 || d.matchedPolicy == None)
            && (d.trace[k].outcome != Ok(false) ==> d.matchedPolicy == Some(d.trace[k].policyId))
  {
    var denies := PassOver(Consulted(policies, Deny, query), query).steps;
    TraceIsPasses(policies, query, defaultDeny);
    if k < |denies| {
      i := PassStep(policies, Deny, query, k);
      if k > 0 {
        var before := PassStep(policies, Deny, query, k - 1);
      }
    } else {
      i := PassStep(policies, Allow, query, k - |denies|);
    }
  }

  // ------------------------------------------------------------------- reordering

  /** No enabled policy in scope has a failing condition. */
  predicate NoneFails(policies: seq<Policy>, query: Query) {
    forall i | 0 <= i < |policies| && policies[i].enabled && InScope(policies[i], query) :: OutcomeOf(policies[i], query).Ok?
  }

  /** A policy of this effect is consulted and matches. */
  predicate SomeMatches(policies: seq<Policy>, effect: Effect, query: Query) {
    exists i | 0 <= i < |policies| :: IsConsulted(policies[i], effect, query) && OutcomeOf(policies[i], query) == Ok(true)
  }

  lemma MatchIsDecisive(policies: seq<Policy>, effect: Effect, query: Query)
    requires SomeMatches(policies, effect, query)
    ensures PassOver(Consulted(policies, effect, query), query).decisive.Some?
  {
    var consulted := Consulted(policies, effect, query);
    var at := KeepIsSubsequence(policies, Asking(effect, query));
    var i :| 0 <= i < |policies| && IsConsulted(policies[i], effect, query) && OutcomeOf(policies[i], query) == Ok(true);
    assert Asking(effect, query)(policies[i]) && i in at;
    var k :| 0 <= k < |at| && at[k] == i;
    assert OutcomeOf(consulted[k], query) == Ok(true);
    NoneDecisiveExactlyWhenQuiet(consulted, query);
  }

  lemma DecisiveIsMatch(policies: seq<Policy>, effect: Effect, query: Query)
    requires NoneFails(policies, query) && PassOver(Consulted(policies, effect, query), query).decisive.Some?
    ensures SomeMatches(policies, effect, query)
    ensures OutcomeOf(PassOver(Consulted(policies, effect, query), query).decisive.value, query) == Ok(true)
  {
    var consulted := Consulted(policies, effect, query);
    var at := KeepIsSubsequence(policies, Asking(effect, query));
    var k := FirstDecisive(consulted, query);
    assert policies[at[k]] == consulted[k] && Asking(effect, query)(consulted[k]);
    assert OutcomeOf(policies[at[k]], query).Ok?;
    TrueOrFalse(OutcomeOf(consulted[k], query));
  }

  datatype Verdict = Verdict(allowed: bool, reason: Reason)

  /** What the matching policies settle by themselves. */
  function VerdictOf(denied: bool, allowed: bool, defaultDeny: bool): Verdict {
    if denied then Verdict(false, ByPolicy(Deny))
    else if allowed then Verdict(true, ByPolicy(Allow))
    else if defaultDeny then Verdict(false, DefaultDeny) else Verdict(true, DefaultAllow)
  }

  /** When no condition fails, allowance and its reason are settled by which policies
      match, whatever their order. */
  lemma VerdictWithoutFailures(policies: seq<Policy>, query: Query, includeTrace: bool, defaultDeny: bool)
    requires NoneFails(policies, query)
    ensures var decision := Resolve(policies, query, includeTrace, defaultDeny);
            Verdict(decision.allowed, decision.reason)
            == VerdictOf(SomeMatches(policies, Deny, query), SomeMatches(policies, Allow, query), defaultDeny)
  {
    PassFollowsMatches(policies, Deny, query);
    PassFollowsMatches(policies, Allow, query);
  }

  lemma PassFollowsMatches(policies: seq<Policy>, effect: Effect, query: Query)
    requires NoneFails(policies, query)
    ensures var decisive := PassOver(Consulted(policies, effect, query), query).decisive;
            && (decisive.Some? <==> SomeMatches(policies, effect, query))
            && (decisive.Some? ==> decisive.value.effect == effect && OutcomeOf(decisive.value, query) == Ok(true))
  {
    if SomeMatches(policies, effect, query) {
      MatchIsDecisive(policies, effect, query);
    }
    if PassOver(Consulted(policies, effect, query), query).decisive.Some? {
      DecisiveIsMatch(policies, effect, query);
      DecisiveHasEffect(policies, effect, query);
    }
  }

  lemma ReorderedMatchesAlike(policies: seq<Policy>, others: seq<Policy>, effect: Effect, query: Query)
    requires multiset(policies) == multiset(others)
    ensures SomeMatches(policies, effect, query) ==> SomeMatches(others, effect, query)
    ensures NoneFails(policies, query) ==> NoneFails(others, query)
  {
    if i :| 0 <= i < |policies| && IsConsulted(policies[i], effect, query) && OutcomeOf(policies[i], query) == Ok(true) {
      assert policies[i] in multiset(others);
      var j :| 0 <= j < |others| && others[j] == policies[i];
    }
    forall j | NoneFails(policies, query) && 0 <= j < |others| && others[j].enabled && InScope(others[j], query)
      ensures OutcomeOf(others[j], query).Ok?
    {
      assert others[j] in multiset(policies);
      var i :| 0 <= i < |policies| && policies[i] == others[j];
    }
  }

  /** Without failing conditions the verdict does not depend on the order of policies. */
  lemma OrderDoesNotMatterWithoutFailures(policies: seq<Policy>, others: seq<Policy>, query: Query, includeTrace: bool,
                                          defaultDeny: bool)
    requires multiset(policies) == multiset(others) && NoneFails(policies, query)
    ensures var decision, other := Resolve(policies, query, includeTrace, defaultDeny),
                                   Resolve(others, query, includeTrace, defaultDeny);
            decision.allowed == other.allowed && decision.reason == other.reason
  {
    ReorderedMatchesAlike(policies, others, Deny, query);
    ReorderedMatchesAlike(others, policies, Deny, query);
    ReorderedMatchesAlike(policies, others, Allow, query);
    ReorderedMatchesAlike(others, policies, Allow, query);
    VerdictWithoutFailures(policies, query, includeTrace, defaultDeny);
    VerdictWithoutFailures(others, query, includeTrace, defaultDeny);
  }

  // ------------------------------------------------------------------- exactly when order matters

  /** A policy of this effect is consulted and its condition fails. */
  predicate SomeFails(policies: seq<Policy>, effect: Effect, query: Query) {
    exists i | 0 <= i < |policies| :: IsConsulted(policies[i], effect, query) && OutcomeOf(policies[i], query).Err?
  }

  /** A deny policy decides by itself, or the allow policies cannot disagree. */
  predicate OrderIrrelevant(policies: seq<Policy>, query: Query) {
    || SomeMatches(policies, Deny, query) || SomeFails(policies, Deny, query)
    || !(SomeMatches(policies, Allow, query) && SomeFails(policies, Allow, query))
  }

  lemma MemberIsConsulted(policies: seq<Policy>, i: nat, effect: Effect, query: Query) returns (k: nat)
    requires i < |policies| && IsConsulted(policies[i], effect, query)
    ensures k < |Consulted(policies, effect, query)| && Consulted(policies, effect, query)[k] == policies[i]
  {
    var at := KeepIsSubsequence(policies, Asking(effect, query));
    assert Asking(effect, query)(policies[i]) && i in at;
    k :| k < |at| && at[k] == i;
  }

  lemma ConsultedIsMember(policies: seq<Policy>, k: nat, effect: Effect, query: Query) returns (i: nat)
    requires k < |Consulted(policies, effect, query)|
    ensures i < |policies| && policies[i] == Consulted(policies, effect, query)[k]
    ensures IsConsulted(policies[i], effect, query)
  {
    var at := KeepIsSubsequence(policies, Asking(effect, query));
    i := at[k];
    assert Asking(effect, query)(policies[i]);
  }

  /** The decisive policy matches or fails; there is one exactly when some policy does. */
  lemma DecisiveMatchesOrFails(policies: seq<Policy>, effect: Effect, query: Query)
    ensures var decisive := PassOver(Consulted(policies, effect, query), query).decisive;
            && (decisive.Some? <==> SomeMatches(policies, effect, query) || SomeFails(policies, effect, query))
            && (decisive.Some? && OutcomeOf(decisive.value, query) == Ok(true) ==> SomeMatches(policies, effect, query))
            && (decisive.Some? && OutcomeOf(decisive.value, query) != Ok(true) ==> SomeFails(policies, effect, query))
  {
    if SomeMatches(policies, effect, query) {
      MatchIsDecisive(policies, effect, query);
    }
    if SomeFails(policies, effect, query) {
      FailureIsDecisive(policies, effect, query);
    }
    if PassOver(Consulted(policies, effect, query), query).decisive.Some? {
      var k := FirstDecisive(Consulted(policies, effect, query), query);
      var i := ConsultedIsMember(policies, k, effect, query);
      if OutcomeOf(policies[i], query).Ok? {
        TrueOrFalse(OutcomeOf(policies[i], query));
      }
    }
  }

  lemma FailureIsDecisive(policies: seq<Policy>, effect: Effect, query: Query)
    requires SomeFails(policies, effect, query)
    ensures PassOver(Consulted(policies, effect, query), query).decisive.Some?
  {
    var i :| 0 <= i < |policies| && IsConsulted(policies[i], effect, query) && OutcomeOf(policies[i], query).Err?;
    var k := MemberIsConsulted(policies, i, effect, query);
    assert OutcomeOf(Consulted(policies, effect, query)[k], query) != Ok(false);
  }

  lemma AllowedWhenOrderIrrelevant(policies: seq<Policy>, query: Query, includeTrace: bool, defaultDeny: bool)
    requires OrderIrrelevant(policies, query)
    ensures Resolve(policies, query, includeTrace, defaultDeny).allowed <==>
              && !SomeMatches(policies, Deny, query) && !SomeFails(policies, Deny, query)
              && (SomeMatches(policies, Allow, query) || (!SomeFails(policies, Allow, query) && !defaultDeny))
  {
    AllowedExactlyWhen(policies, query, includeTrace, defaultDeny);
    NoneDecisiveExactlyWhenQuiet(Consulted(policies, Deny, query), query);
    DecisiveMatchesOrFails(policies, Deny, query);
    DecisiveMatchesOrFails(policies, Allow, query);
  }

  lemma ReorderedFailsAlike(policies: seq<Policy>, others: seq<Policy>, effect: Effect, query: Query)
    requires multiset(policies) == multiset(others)
    ensures SomeFails(policies, effect, query) ==> SomeFails(others, effect, query)
  {
    if i :| 0 <= i < |policies| && IsConsulted(policies[i], effect, query) && OutcomeOf(policies[i], query).Err? {
      assert policies[i] in multiset(others);
      var j :| 0 <= j < |others| && others[j] == policies[i];
    }
  }

  lemma ReorderedAlike(policies: seq<Policy>, others: seq<Policy>, effect: Effect, query: Query)
    requires multiset(policies) == multiset(others)
    ensures SomeMatches(policies, effect, query) <==> SomeMatches(others, effect, query)
    ensures SomeFails(policies, effect, query) <==> SomeFails(others, effect, query)
  {
    ReorderedMatchesAlike(policies, others, effect, query);
    ReorderedMatchesAlike(others, policies, effect, query);
    ReorderedFailsAlike(policies, others, effect, query);
    ReorderedFailsAlike(others, policies, effect, query);
  }

  function ToFront(policies: seq<Policy>, i: nat): seq<Policy>
    requires i < |policies|
  {
    [policies[i]] + policies[..i] + policies[i + 1..]
  }

  lemma ToFrontReorders(policies: seq<Policy>, i: nat)
    requires i < |policies|
    ensures multiset(ToFront(policies, i)) == multiset(policies)
  {
    assert policies == policies[..i] + [policies[i]] + policies[i + 1..];
  }

  lemma FrontDecides(policies: seq<Policy>, i: nat, query: Query, includeTrace: bool, defaultDeny: bool)
    requires i < |policies| && IsConsulted(policies[i], Allow, query) && OutcomeOf(policies[i], query) != Ok(false)
    requires !SomeMatches(policies, Deny, query) && !SomeFails(policies, Deny, query)
    ensures Resolve(ToFront(policies, i), query, includeTrace, defaultDeny).allowed
       <==> OutcomeOf(policies[i], query) == Ok(true)
  {
    var others := ToFront(policies, i);
    ToFrontReorders(policies, i);
    ReorderedAlike(policies, others, Deny, query);
    AllowedExactlyWhen(others, query, includeTrace, defaultDeny);
    NoneDecisiveExactlyWhenQuiet(Consulted(others, Deny, query), query);
    DecisiveMatchesOrFails(others, Deny, query);
    ConsultedOfFront(policies[i], policies[..i] + policies[i + 1..], query);
    Associate([policies[i]], policies[..i], policies[i + 1..]);
  }

  lemma ConsultedOfFront(first: Policy, rest: seq<Policy>, query: Query)
    requires IsConsulted(first, Allow, query) && OutcomeOf(first, query) != Ok(false)
    ensures PassOver(Consulted([first] + rest, Allow, query), query).decisive == Some(first)
  {
    KeepJoins([first], rest, Asking(Allow, query));
    KeepOne(first, Asking(Allow, query));
    assert Consulted([first] + rest, Allow, query)[0] == first;
  }

  /** Every reordering allows what the given order allows. */
  ghost predicate SameInEveryOrder(policies: seq<Policy>, query: Query, includeTrace: bool, defaultDeny: bool) {
    forall others: seq<Policy> | multiset(others) == multiset(policies) ::
      Resolve(others, query, includeTrace, defaultDeny).allowed == Resolve(policies, query, includeTrace, defaultDeny).allowed
  }

  /** The order of policies, which their priorities set, makes no difference to allowance
      exactly when some consulted deny policy matches or fails, or the consulted allow
      policies do not include both one that matches and one that fails. */
  lemma OrderMattersExactly(policies: seq<Policy>, query: Query, includeTrace: bool, defaultDeny: bool)
    ensures SameInEveryOrder(policies, query, includeTrace, defaultDeny) <==> OrderIrrelevant(policies, query)
  {
    if OrderIrrelevant(policies, query) {
      forall others: seq<Policy> | multiset(others) == multiset(policies)
        ensures Resolve(others, query, includeTrace, defaultDeny).allowed
             == Resolve(policies, query, includeTrace, defaultDeny).allowed
      {
        ReorderedAlike(policies, others, Deny, query);
        ReorderedAlike(policies, others, Allow, query);
        AllowedWhenOrderIrrelevant(policies, query, includeTrace, defaultDeny);
        AllowedWhenOrderIrrelevant(others, query, includeTrace, defaultDeny);
      }
    } else {
      var i :| 0 <= i < |policies| && IsConsulted(policies[i], Allow, query) && OutcomeOf(policies[i], query) == Ok(true);
      var j :| 0 <= j < |policies| && IsConsulted(policies[j], Allow, query) && OutcomeOf(policies[j], query).Err?;
      FrontDecides(policies, i, query, includeTrace, defaultDeny);
      FrontDecides(policies, j, query, includeTrace, defaultDeny);
      ToFrontReorders(policies, i);
      ToFrontReorders(policies, j);
    }
  }

  /** Two policies that every route accepts: one with the empty condition, and one whose
      condition passes validation and fails when evaluated, since its comparator has no
      operands. The one consulted first settles the verdict. */
  lemma OrderMattersWithFailures(query: Query, maxDepth: int)
    requires query.compare("eq", Null).Err? && maxDepth >= 2
    ensures ValidateCondition(Operation("eq", Null), maxDepth) == None
    ensures var open := Policy("a", true, None, Allow, ANY, ANY, Object(map[]));
            var broken := Policy("b", true, None, Allow, ANY, ANY, Operation("eq", Null));
            && Resolve([open, broken], query, false, true).allowed
            && !Resolve([broken, open], query, false, true).allowed
  {
    var open := Policy("a", true, None, Allow, ANY, ANY, Object(map[]));
    var broken := Policy("b", true, None, Allow, ANY, ANY, Operation("eq", Null));
    OperationShape("eq", Null);
    assert OutcomeOf(open, query) == Ok(true) && OutcomeOf(broken, query).Err?;
    NoDenies(open, broken, query);
    NoDenies(broken, open, query);
    AllowedExactlyWhen([open, broken], query, false, true);
    AllowedExactlyWhen([broken, open], query, false, true);
  }

  lemma NoDenies(first: Policy, second: Policy, query: Query)
    requires IsConsulted(first, Allow, query) && IsConsulted(second, Allow, query)
    ensures Consulted([first, second], Deny, query) == [] && Consulted([first, second], Allow, query) == [first, second]
  {
    KeepNone([first, second], Asking(Deny, query));
    KeepAll([first, second], Asking(Allow, query));
  }

  /** A policy means its stored condition exactly when that is none of the falsy values
      that mean something else than the empty condition; every object, the only thing
      the routes store, means itself. */
  lemma StoredConditionMeansItself(policy: Policy, query: Query)
    ensures OutcomeOf(policy, query) == Evaluate(policy.condition, query.compare)
       <==> policy.condition !in {Bool(false), Number(0.0), Text(""), List([])}
    ensures policy.condition.Object? ==> OutcomeOf(policy, query) == Evaluate(policy.condition, query.compare)
  {
  }
}
