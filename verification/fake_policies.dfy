/**
 Concrete users, books and the book policy the repository's tests use,
 and the end-to-end answers the engine gives for them.
 */
module BookScenario {
  import opened Abilities
  import opened Factories

  datatype User = User(id: int, name: string)

  datatype Book = Book(id: int, name: string, userId: int)

  /** Whether `subject` is a book owned by `user`. A subject given by name or
      by type marker has no owner field, so it is never owned. */
  predicate OwnedBy(user: User, subject: Subject<Book>)
  {
    subject.Instance? && user.id == subject.payload.userId
  }

  /** The book policy: viewing and creating are always allowed, updating and
      deleting only by the book's owner. */
  function BookPolicy(): Policy<User, Book>
  {
    map[
      "viewAny" := (u: User, s: Subject<Book>) => true,
      "view" := (u: User, s: Subject<Book>) => true,
      "create" := (u: User, s: Subject<Book>) => true,
      "update" := (u: User, s: Subject<Book>) => OwnedBy(u, s),
      "delete" := (u: User, s: Subject<Book>) => OwnedBy(u, s)
    ]
  }

  /** The factory registering `BookPolicy` under the name "Book". */
  function BookFactory(): AbilityFactory<User, Book>
  {
    AbilityFactory(map["Book" := () => BookPolicy()])
  }

  function Author(): User { User(1, "User") }

  function OwnBook(): Subject<Book> { Instance("Book", Book(1, "Book A", 1)) }

  function OtherBook(): Subject<Book> { Instance("Book", Book(1, "Book B", 200)) }

  /** An ability built directly over the book policy answers through it:
      the action's own answer for the name, the marker and the instance,
      `PolicyNotFound` for an unregistered model and `ActionNotFound` for an
      action the policy lacks. */
  lemma DirectAbilityAnswers()
    ensures var ab := Ability(Author(), map["Book" := BookPolicy()]);
      && Can(ab, "create", TypeMarker("Book")).outcome == Ok(true)
      && Can(ab, "create", Name("Book")).outcome == Ok(true)
      && Can(ab, "create", OwnBook()).outcome == Ok(true)
      && Can(ab, "create", TypeMarker("Book")).calls
           == [Call("Book", "create", Author(), TypeMarker("Book"))]
      && Can(ab, "create", TypeMarker("OtherModel")).outcome == PolicyNotFound("OtherModel")
      && Can(ab, "do-something", OwnBook()).outcome == ActionNotFound("do-something")
      && Can(ab, "publish", Name("Book")).outcome == ActionNotFound("publish")
  {
  }

  /** Whatever a policy method answers comes back unchanged: over a policy
      whose only action is an arbitrary `f`, `Can` answers `f`'s own answer
      and `Cant` its negation. */
  lemma ActionResultPassesThrough(f: Action<User, Book>)
    ensures var ab := Ability(Author(), map["Book" := map["create" := f]]);
      && Can(ab, "create", TypeMarker("Book")).outcome == Ok(f(Author(), TypeMarker("Book")))
      && Cant(ab, "create", TypeMarker("Book")).outcome == Ok(!f(Author(), TypeMarker("Book")))
  {
  }

  /** End to end: the ability the book factory creates for user 1 lets them
      create books and update their own book, not somebody else's, and
      `Cant` answers the opposite. */
  lemma CreatedAbilityAnswers(ab: Ability<User, Book>)
    requires CreatedBy(ab, BookFactory(), Author())
    ensures Can(ab, "create", TypeMarker("Book")).outcome == Ok(true)
    ensures Can(ab, "update", OwnBook()).outcome == Ok(true)
    ensures Can(ab, "update", OtherBook()).outcome == Ok(false)
    ensures Cant(ab, "create", TypeMarker("Book")).outcome == Ok(false)
    ensures Cant(ab, "update", OwnBook()).outcome == Ok(false)
    ensures Cant(ab, "update", OtherBook()).outcome == Ok(true)
  {
    assert ab.policies["Book"] == BookPolicy();
  }

  /** The raw subject reaches the policy method: asked about the name or the
      type marker rather than an instance, `update` sees no owner and
      refuses even the owner. */
  lemma UpdateByNameIsRefused(ab: Ability<User, Book>)
    requires CreatedBy(ab, BookFactory(), Author())
    ensures Can(ab, "update", Name("Book")).outcome == Ok(false)
    ensures Can(ab, "update", TypeMarker("Book")).outcome == Ok(false)
  {
    assert ab.policies["Book"] == BookPolicy();
  }
}
