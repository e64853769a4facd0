/**
 The authorization evaluation engine: an `Ability` binds one user to a
 dictionary from subject names to policies, and answers "can this user do
 `action` to `subject`?" by resolving the subject's name, looking up its
 policy, looking up the action in that policy and delegating to it.

 The engine is pure here: a policy method is a total function of
 `(user, subject)`, and each evaluation reports, next to its outcome, the
 policy methods it invoked, so that "no method was invoked" and "exactly one
 method was invoked" are statements about values.
 */
module Abilities {

  /** The three ways a caller names the thing access is checked against:
      a subject name, a type marker (a class reference, used only for its
      name) or an instance, whose type name selects the policy and which is
      itself handed to the policy method. */
  datatype Subject<P> =
    | Name(name: string)
    | TypeMarker(markerName: string)
    | Instance(typeName: string, payload: P)

  /** A policy method: decides from the user and the subject as passed. */
  type Action<!U, !P> = (U, Subject<P>) -> bool

  /** A policy: action name to policy method. */
  type Policy<!U, !P> = map<string, Action<U, P>>

  /** The subject-name to policy dictionary an `Ability` is built with. */
  type PolicyDict<!U, !P> = map<string, Policy<U, P>>

  /** An authorization context: one user and the policies it is judged by.
      It is an immutable value, so evaluating it can change neither. */
  datatype Ability<!U, !P> = Ability(user: U, policies: PolicyDict<U, P>)

  /** What one evaluation ends in: a decision, or one of the two
      configuration errors, each carrying what was not found. */
  datatype Outcome =
    | Ok(value: bool)
    | PolicyNotFound(model: string)
    | ActionNotFound(action: string)

  /** One invocation of a policy method: which policy, which action, and the
      arguments it received. */
  datatype Call<U, P> = Call(policyName: string, action: string, user: U, subject: Subject<P>)

  /** An outcome together with the policy methods invoked to reach it, in
      order. */
  datatype Evaluation<U, P> = Evaluation(outcome: Outcome, calls: seq<Call<U, P>>)

  /** The single subject name derived from any subject: a name is itself,
      an instance contributes its type's name, a type marker its own name. */
  function ModelName<P>(subject: Subject<P>): string
  {
    match subject
    case Name(n) => n
    case Instance(t, _) => t
    case TypeMarker(n) => n
  }

  /** True iff `subject` resolves to a policy of `ab` that defines `action`. */
  predicate Dispatchable<U, P>(ab: Ability<U, P>, action: string, subject: Subject<P>)
  {
    ModelName(subject) in ab.policies && action in ab.policies[ModelName(subject)]
  }

  /** Evaluates one authorization question. A missing policy is reported
      before the action is looked up; only a found action invokes a policy
      method, exactly once, with the user and the subject as passed, and its
      answer is returned unchanged. */
  function Can<U, P>(ab: Ability<U, P>, action: string, subject: Subject<P>): (e: Evaluation<U, P>)
    ensures e.outcome.PolicyNotFound? <==> ModelName(subject) !in ab.policies
    ensures e.outcome.PolicyNotFound? ==> e.outcome.model == ModelName(subject)
    ensures e.outcome.ActionNotFound? <==>
              ModelName(subject) in ab.policies && action !in ab.policies[ModelName(subject)]
    ensures e.outcome.ActionNotFound? ==> e.outcome.action == action
    ensures e.outcome.Ok? <==> Dispatchable(ab, action, subject)
    ensures e.outcome.Ok? ==>
              && e.outcome.value == ab.policies[ModelName(subject)][action](ab.user, subject)
              && e.calls == [Call(ModelName(subject), action, ab.user, subject)]
    ensures !e.outcome.Ok? ==> e.calls == []
  {
    var modelName := ModelName(subject);
    if modelName !in ab.policies then
      Evaluation(PolicyNotFound(modelName), [])
    else
      var policy := ab.policies[modelName];
      if action !in policy then
        Evaluation(ActionNotFound(action), [])
      else
        Evaluation(Ok(policy[action](ab.user, subject)), [Call(modelName, action, ab.user, subject)])
  }

  /** The negation of `Can`, computed from a single evaluation of it: the
      same errors, the opposite decision, the same invocations. */
  function Cant<U, P>(ab: Ability<U, P>, action: string, subject: Subject<P>): (e: Evaluation<U, P>)
    ensures e.outcome.Ok? <==> Can(ab, action, subject).outcome.Ok?
    ensures e.outcome.Ok? ==> e.outcome.value == !Can(ab, action, subject).outcome.value
    ensures !e.outcome.Ok? ==> e.outcome == Can(ab, action, subject).outcome
    ensures e.calls == Can(ab, action, subject).calls
  {
    var e := Can(ab, action, subject);
    match e.outcome
    case Ok(b) => Evaluation(Ok(!b), e.calls)
    case _ => e
  }

  /** A name, a type marker and an instance that carry the same name select
      the same policy entry: they fail alike, succeed alike, and a success
      dispatches to the same method, which sees the subject in the form it
      was given. */
  lemma SubjectFormsSelectSamePolicy<U, P>(ab: Ability<U, P>, action: string, n: string, payload: P)
    ensures ModelName<P>(Name(n)) == n && ModelName<P>(TypeMarker(n)) == n
    ensures ModelName(Instance(n, payload)) == n
    ensures !Can(ab, action, Name(n)).outcome.Ok? ==>
              && Can(ab, action, Name(n)).outcome == Can(ab, action, TypeMarker(n)).outcome
              && Can(ab, action, Name(n)).outcome == Can(ab, action, Instance(n, payload)).outcome
    ensures Can(ab, action, Name(n)).outcome.Ok? ==>
              && Can(ab, action, TypeMarker(n)).outcome.Ok?
              && Can(ab, action, Instance(n, payload)).outcome.Ok?
              && Can(ab, action, Name(n)).outcome.value == ab.policies[n][action](ab.user, Name(n))
              && Can(ab, action, TypeMarker(n)).outcome.value == ab.policies[n][action](ab.user, TypeMarker(n))
              && Can(ab, action, Instance(n, payload)).outcome.value
                   == ab.policies[n][action](ab.user, Instance(n, payload))
  {
  }

  /** Error precedence: the policy is looked up before the action, so a
      missing policy is reported the same way whatever the action. */
  lemma ErrorPrecedence<U, P>(ab: Ability<U, P>, action: string, other: string, subject: Subject<P>)
    ensures Can(ab, action, subject).outcome.PolicyNotFound? ==>
              Can(ab, other, subject).outcome == Can(ab, action, subject).outcome
  {
  }

  /** `Cant`, like `Can`, invokes a policy method exactly when it ends in a
      decision, and then exactly one. */
  lemma AtMostOneInvocation<U, P>(ab: Ability<U, P>, action: string, subject: Subject<P>)
    ensures |Cant(ab, action, subject).calls| <= 1
    ensures Cant(ab, action, subject).calls != [] <==> Cant(ab, action, subject).outcome.Ok?
  {
  }
}
