/** domain/category.go: the versioned category record, its inputs, their
    validation and the functions that turn inputs into records. */
module DomainCategory {
  import opened Wrappers
  import opened Errors
  import opened Validation
  import opened GoTime

  const ErrCategoryNameRequired: Error := Sentinel("errCategoryNameRequired", "name is required")
  const ErrCategoryDescriptionRequired: Error := Sentinel("errCategoryDescriptionRequired", "description is required")

  datatype Category = Category(
    id: int,
    name: string,
    description: string,
    createdAt: Time,
    updatedAt: Time,
    version: int)

  datatype CategoryCreate = CategoryCreate(name: string, description: string)

  /** A PATCH body: `None` is a field the client left out. */
  datatype CategoryUpdate = CategoryUpdate(name: Option<string>, description: Option<string>, version: int)

  /** A stored category whose fields meet the create rules. */
  predicate WellFormed(c: Category)
  {
    c.name != "" && c.description != ""
  }

  /** The cases of `CategoryCreate.Validate`, in the order they run. */
  function CreateChecks(c: CategoryCreate): seq<Check>
  {
    [ Check(c.name != "", ErrCategoryNameRequired),
      Check(c.description != "", ErrCategoryDescriptionRequired) ]
  }

  /** `CategoryCreate.Validate`: nil exactly when both texts are present;
      a missing name is reported before a missing description. */
  function ValidateCreate(c: CategoryCreate): (r: Error)
    ensures r == Nil <==> c.name != "" && c.description != ""
    ensures c.name == "" ==> r == ErrCategoryNameRequired
    ensures r == ErrCategoryDescriptionRequired <==> c.name != "" && c.description == ""
  {
    var checks := CreateChecks(c);
    assert Distinct(checks);
    assert (forall i | 0 <= i < |checks| :: checks[i].ok) <==> checks[0].ok && checks[1].ok;
    assert PassBefore(checks, 1) <==> checks[0].ok;
    FirstFailure(checks)
  }

  /** `CategoryCreate.CreateModel`: the input's texts, every other field at
      its zero value. */
  function CreateModel(c: CategoryCreate): (r: Category)
    ensures r.name == c.name && r.description == c.description
    ensures r.id == 0 && r.version == 0
    ensures r.createdAt == Zero && r.updatedAt == Zero
    ensures ValidateCreate(c) == Nil ==> WellFormed(r)
  {
    Category(0, c.name, c.description, Zero, Zero, 0)
  }

  /** The cases of `CategoryUpdate.Validate`, in the order they run. */
  function UpdateChecks(u: CategoryUpdate): seq<Check>
  {
    [ Check(PresentText(u.name), ErrCategoryNameRequired),
      Check(PresentText(u.description), ErrCategoryDescriptionRequired) ]
  }

  /** `CategoryUpdate.Validate`: a present text must not be empty; unlike
      products, the version is not checked. */
  function ValidateUpdate(u: CategoryUpdate): (r: Error)
    ensures r == Nil <==> PresentText(u.name) && PresentText(u.description)
    ensures u.name.None? && u.description.None? ==> r == Nil
    ensures u.name == Some("") ==> r == ErrCategoryNameRequired
    ensures r == ErrCategoryNameRequired <==> !PresentText(u.name)
    ensures r == ErrCategoryDescriptionRequired <==> PresentText(u.name) && !PresentText(u.description)
  {
    var checks := UpdateChecks(u);
    assert Distinct(checks);
    assert (forall i | 0 <= i < |checks| :: checks[i].ok) <==> checks[0].ok && checks[1].ok;
    assert PassBefore(checks, 1) <==> checks[0].ok;
    FirstFailure(checks)
  }

  /** `CategoryUpdate.UpdateModel`: present texts overwrite, absent ones are
      kept, the version always comes from the update, and the id and
      timestamps are never touched. */
  function UpdateModel(c: Category, u: CategoryUpdate): (r: Category)
    ensures r.id == c.id && r.createdAt == c.createdAt && r.updatedAt == c.updatedAt
    ensures r.version == u.version
    ensures r.name == u.name.GetOr(c.name)
    ensures r.description == u.description.GetOr(c.description)
  {
    var c1 := if u.name.Some? then c.(name := u.name.value) else c;
    var c2 := if u.description.Some? then c1.(description := u.description.value) else c1;
    c2.(version := u.version)
  }

  /** Applying the same patch twice is applying it once. */
  lemma UpdateModelIdempotent(c: Category, u: CategoryUpdate)
    ensures UpdateModel(UpdateModel(c, u), u) == UpdateModel(c, u)
  {
  }

  /** A patch that passes validation keeps a well-formed category well-formed. */
  lemma ValidUpdateKeepsWellFormed(c: Category, u: CategoryUpdate)
    requires WellFormed(c)
    requires ValidateUpdate(u) == Nil
    ensures WellFormed(UpdateModel(c, u))
  {
  }
}
