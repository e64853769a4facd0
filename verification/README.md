# policy-authorization, modelled in Dafny

This project models the core of the `policy-authorization` library. The core
is an in-process authorization engine. An `Ability` binds one user to a
dictionary from subject (model) names to policies. A policy maps action names
to policy methods.

`can(action, subject)` works in four steps:

1. It resolves the subject to a model name. A string is its own name. An
   instance contributes its constructor's name. A class reference contributes
   its own name.
2. It looks up the policy registered under that name. If there is none, it
   fails with `PolicyNotFoundException`.
3. It looks up the action in that policy. If there is none, it fails with
   `ActionNotFoundException`.
4. It returns whatever the action method returns for `(user, subject)`.

`cant` negates `can`. An `AbilityFactory` holds policy constructors keyed by
model name. For a given user it builds one policy per registered name and
binds them in a new `Ability`.

Files:

- `ability.dfy` (module `Abilities`) covers the subject variants, policies,
  the `Ability` value, the outcome type, `ModelName`, `Can`, `Cant` and the
  engine's properties.
- `ability_factory.dfy` (module `Factories`) covers the factory,
  `ResolvePolicies` (a loop over the registered names), `Create`, and the
  properties of created abilities.
- `fake_policies.dfy` (module `BookScenario`) holds the repository's book
  fixtures and their end-to-end answers.

The modelling choices:

- **Subjects.** `Subject<P>` has three cases: `Name(name)`,
  `TypeMarker(markerName)` and `Instance(typeName, payload)`. The explicit
  name fields stand in for the runtime reflection on `typeof`,
  `constructor.name` and `.name`.
- **Errors.** `Outcome` is `Ok(bool)`, `PolicyNotFound(model)` or
  `ActionNotFound(action)`. The two exceptions become error values.
- **Invocations.** Policy methods are total functions of `(user, subject)`.
  Every evaluation returns an `Evaluation`, which pairs the outcome with the
  list of policy-method invocations it made. This lets the model state that a
  failing evaluation invokes nothing. It also lets it state that `cant`
  reuses exactly one evaluation of `can`.
- **Raw subject.** As in `src/ability.ts:23`, the action method always
  receives the subject exactly as it was passed. This holds for the name and
  type-marker forms too.
- **Constructors.** A policy constructor is a closure `() -> Policy`. The
  factory's `for … in` loop is a `while` loop over the set of names not yet
  resolved. It starts from an empty dictionary.

The tests expect some behaviour that the source does not have:
`undefined` passed for name/marker subjects, a `before` pre-check, and the
`cannot`/`createForUser` names. This model follows the source.

## Model

| member | source | states |
|---|---|---|
| Abilities.Can | src/ability.ts:9-24 | An unknown model name fails with `PolicyNotFound` carrying that name. A known policy without the action fails with `ActionNotFound` carrying the action. Both errors invoke no policy method. Otherwise the policy method for the resolved name and action is invoked exactly once with the user and the subject as passed, and its answer is returned unchanged. |
| Abilities.Cant | src/ability.ts:26-28 | When `Can` succeeds, `Cant` succeeds with the opposite decision. When `Can` fails, `Cant` fails with the same error. `Cant` makes exactly the invocations of one `Can` evaluation. |
| Abilities.SubjectFormsSelectSamePolicy | src/ability.ts:30-40 | A string, a type marker and an instance that carry the same name all resolve to that name. They fail with identical errors or all succeed. On success each is answered by the same policy method applied to the subject in its own form. |
| Abilities.ErrorPrecedence | src/ability.ts:13-21 | The policy is looked up before the action, so a missing policy is reported as the same `PolicyNotFound` whatever action is asked. |
| Abilities.AtMostOneInvocation | src/ability.ts:17-27 | `Cant`, which goes through one `Can` evaluation, invokes at most one policy method. It invokes one exactly when it ends in a decision. |
| Factories.ResolvePolicies | src/ability-factory.ts:13-23 | The resolved dictionary has exactly the constructor dictionary's names. Each name is bound to what the constructor registered under that same name builds. |
| Factories.Create | src/ability-factory.ts:7-11 | The created ability is bound to exactly the given user and to the resolved dictionary. |
| Factories.CreatedAbilityConsultsRegisteredPolicies | src/ability-factory.ts:7-22 | On a created ability, an unregistered name fails with `PolicyNotFound`. For a registered name, `ActionNotFound` is reported if and only if the constructed policy lacks the action. Otherwise the answer is that policy's method applied to the user and subject. |
| Factories.EmptyFactoryFindsNoPolicy | src/ability-factory.ts:14-22 | With no registered constructors, both `Can` and `Cant` fail with `PolicyNotFound` for the resolved name. |
| Factories.CreationIsDeterministic | test/ability-factory.test.ts:27-36 | Two abilities created from one factory for the same user are equal: same user, same resolved policies. |
| BookScenario.DirectAbilityAnswers | test/ability.test.ts:24-66 | On an ability over the book policy, `create` is answered through the policy for the name, the type marker and the instance, with one recorded invocation. An unregistered model fails with `PolicyNotFound("OtherModel")`. Unknown actions fail with `ActionNotFound`. |
| BookScenario.ActionResultPassesThrough | test/ability.test.ts:34-45 | For an arbitrary action method `f`, `Can` answers exactly what `f` answers for the user and the subject as passed, and `Cant` answers its negation. |
| BookScenario.CreatedAbilityAnswers | test/integration.test.ts:18-64 | On the ability the book factory creates for user 1, `create` is allowed. `update` is allowed on a book with `userId` 1 and refused on one with `userId` 200. `Cant` gives the opposite answers. |
| BookScenario.UpdateByNameIsRefused | src/ability.ts:23 | The raw subject reaches the policy method. Asked by name or type marker, `update` has no owner to compare and refuses. |

## Left out

- `cannot` is called by the tests and by example/express/index.js:16,32. The `before` pre-check and `createForUser` appear only in the tests. `src/ability.ts` and `src/ability-factory.ts` have `cant`, no pre-check, and a factory method named `create`.
- Passing `undefined` to the action method for name and type-marker subjects is expected by the tests but not done by the source. The model passes the raw subject, as the source does.
- JavaScript reflection (`typeof`, `constructor.name`, `.name`) is replaced by the explicit name fields of `Subject`. `null` subjects and prototype-chain lookups (for example a `toString` key) are not modelled.
- Dictionary entries are either present functions or absent. The `this` binding of `apply` is not modelled. Entries that are present but falsy, or present but not functions, are not modelled either.
- Policy methods are pure. Side effects inside them and exceptions thrown by them or by a policy constructor are not modelled. The invocation log in `Evaluation` stands in for observing calls.
- Factories.ResolvePolicies: object identity is not modelled. The source's `new ctor()` makes a fresh instance per call, but here the constructed policy is a value, so two creations give equal rather than distinct policies.
- Action results are booleans. The source passes any returned value through `can` unchanged, and `cant` negates its truthiness; neither is modelled.
- The source holds the caller's user, policy dictionary and constructor dictionary by reference. Mutating them after construction is not modelled: an `Ability` and an `AbilityFactory` here are values, so later answers cannot change.
- Factories.CreationIsDeterministic: holds for the source only while the constructor dictionary is left unchanged between the two `create` calls, and while each constructor builds equal policies on every call. Constructors here are pure functions, so state or nondeterminism in a source constructor (a counter, the clock, randomness) is not modelled, and neither is a change to the dictionary between calls.
- Exception messages are not modelled. Only the model name or action each error carries is kept.
- User ids are unbounded integers. JavaScript numbers and the `===` comparison on them are not modelled beyond integer equality.
- `example/express/index.js` (HTTP middleware, status codes) and `src/common.ts` (type aliases only) are outside the core.
