/**
 The policy-binding factory: it is built from a dictionary of policy
 constructors keyed by subject name, and for each user it constructs one
 policy per registered name and binds the resulting dictionary to that user
 in a new `Ability`.
 */
module Factories {
  import opened Abilities

  /** A zero-argument policy constructor. */
  type Ctor<!U, !P> = () -> Policy<U, P>

  /** The registered bindings: subject name to policy constructor. */
  datatype AbilityFactory<!U, !P> = AbilityFactory(ctors: map<string, Ctor<U, P>>)

  /** True iff `policies` is what resolving `factory`'s constructors gives:
      the same names, each bound to what its own constructor builds. */
  ghost predicate ResolvedFrom<U, P>(policies: PolicyDict<U, P>, factory: AbilityFactory<U, P>)
  {
    && policies.Keys == factory.ctors.Keys
    && forall name :: name in policies ==> policies[name] == factory.ctors[name]()
  }

  /** True iff `ab` is an ability `factory` creates for `user`. */
  ghost predicate CreatedBy<U, P>(ab: Ability<U, P>, factory: AbilityFactory<U, P>, user: U)
  {
    ab.user == user && ResolvedFrom(ab.policies, factory)
  }

  /** Builds the subject-name to policy dictionary, starting from an empty
      one and constructing the policy of every registered name in turn. */
  method ResolvePolicies<U, P>(factory: AbilityFactory<U, P>) returns (policies: PolicyDict<U, P>)
    ensures ResolvedFrom(policies, factory)
  {
    policies := map[];
    var pending := factory.ctors.Keys;
    while pending != {}
      invariant pending <= factory.ctors.Keys
      invariant policies.Keys == factory.ctors.Keys - pending
      invariant forall name :: name in policies ==> policies[name] == factory.ctors[name]()
      decreases pending
    {
      var name :| name in pending;
      var ctor := factory.ctors[name];
      policies := policies[name := ctor()];
      pending := pending - {name};
    }
  }

  /** Creates the ability for `user`: bound to exactly that user and to a
      freshly resolved policy dictionary. */
  method Create<U, P>(factory: AbilityFactory<U, P>, user: U) returns (ab: Ability<U, P>)
    ensures CreatedBy(ab, factory, user)
  {
    var resolved := ResolvePolicies(factory);
    ab := Ability(user, resolved);
  }

  /** Every name a created ability knows is a registered name and the
      reverse, so its answers are decided by the registered constructors:
      an unregistered name fails with `PolicyNotFound`, and a registered one
      consults the policy its constructor builds. */
  lemma CreatedAbilityConsultsRegisteredPolicies<U, P>(
    ab: Ability<U, P>, factory: AbilityFactory<U, P>, user: U, action: string, subject: Subject<P>)
    requires CreatedBy(ab, factory, user)
    ensures ModelName(subject) !in factory.ctors ==>
              Can(ab, action, subject).outcome == PolicyNotFound(ModelName(subject))
    ensures ModelName(subject) in factory.ctors ==>
              && (action !in factory.ctors[ModelName(subject)]() <==>
                    Can(ab, action, subject).outcome == ActionNotFound(action))
              && (action in factory.ctors[ModelName(subject)]() ==>
                    Can(ab, action, subject).outcome
                      == Ok(factory.ctors[ModelName(subject)]()[action](user, subject)))
  {
  }

  /** With no registered constructors, every question fails with
      `PolicyNotFound` for the subject's resolved name. */
  lemma EmptyFactoryFindsNoPolicy<U, P>(ab: Ability<U, P>, user: U, action: string, subject: Subject<P>)
    requires CreatedBy(ab, AbilityFactory(map[]), user)
    ensures Can(ab, action, subject).outcome == PolicyNotFound(ModelName(subject))
    ensures Cant(ab, action, subject).outcome == PolicyNotFound(ModelName(subject))
  {
  }

  /** Two abilities created from one factory differ only in their user, so
      for the same user they answer every question identically. */
  lemma CreationIsDeterministic<U, P>(ab1: Ability<U, P>, ab2: Ability<U, P>, factory: AbilityFactory<U, P>, user: U)
    requires CreatedBy(ab1, factory, user) && CreatedBy(ab2, factory, user)
    ensures ab1 == ab2
  {
  }
}
