/** categories.go (package ecommerce): the earlier category record, its
    validation, the patch merge and the list filter. */
module EcommerceCategories {
  import opened Wrappers
  import opened Errors
  import opened Validation
  import opened GoTime

  const ErrNameRequired: Error := Formatted("name is required")
  const ErrDescriptionRequired: Error := Formatted("description is required")

  datatype Categories = Categories(
    id: int,
    name: string,
    description: string,
    createdAt: Time,
    updatedAt: Time)

  /** A request body in which every field may be absent. */
  datatype CategoriesInput = CategoriesInput(name: Option<string>, description: Option<string>)

  datatype CategoriesFilter = CategoriesFilter(name: string, sort: string, limit: int, offset: int)

  /** The cases of `Categories.Validate`, in the order they run. */
  function Checks(c: Categories): seq<Check>
  {
    [ Check(c.name != "", ErrNameRequired),
      Check(c.description != "", ErrDescriptionRequired) ]
  }

  /** `Categories.Validate`: nil exactly when both texts are present; the
      name is reported first. */
  function Validate(c: Categories): (r: Error)
    ensures r == Nil <==> c.name != "" && c.description != ""
    ensures c.name == "" ==> r == ErrNameRequired
    ensures r == ErrDescriptionRequired <==> c.name != "" && c.description == ""
  {
    var checks := Checks(c);
    assert Distinct(checks);
    assert (forall i | 0 <= i < |checks| :: checks[i].ok) <==> checks[0].ok && checks[1].ok;
    assert PassBefore(checks, 1) <==> checks[0].ok;
    FirstFailure(checks)
  }

  /** `CategoriesInput.SetValuesTo`: present texts overwrite, everything
      else is kept. */
  function SetValuesTo(i: CategoriesInput, c: Categories): (r: Categories)
    ensures r.id == c.id && r.createdAt == c.createdAt && r.updatedAt == c.updatedAt
    ensures r.name == i.name.GetOr(c.name)
    ensures r.description == i.description.GetOr(c.description)
  {
    var c1 := if i.name.Some? then c.(name := i.name.value) else c;
    if i.description.Some? then c1.(description := i.description.value) else c1
  }

  /** Applying the same input twice is applying it once. */
  lemma SetValuesToIdempotent(i: CategoriesInput, c: Categories)
    ensures SetValuesTo(i, SetValuesTo(i, c)) == SetValuesTo(i, c)
  {
  }

  /** Input that passes the same presence rules keeps a valid category valid. */
  lemma SetValuesToKeepsValid(i: CategoriesInput, c: Categories)
    requires Validate(c) == Nil
    requires i.name != Some("") && i.description != Some("")
    ensures Validate(SetValuesTo(i, c)) == Nil
  {
  }

  /** `CategoriesFilter.Validate`: every filter is accepted. */
  function ValidateFilter(f: CategoriesFilter): (r: Error)
    ensures r == Nil
  {
    Nil
  }
}
