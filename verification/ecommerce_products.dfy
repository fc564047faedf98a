/** products.go (package ecommerce): the earlier product record with a
    category name, its validation, the patch merge and the list filter. */
module EcommerceProducts {
  import opened Wrappers
  import opened Errors
  import opened Validation
  import opened GoTime

  const ErrNameRequired: Error := Formatted("name is required")
  const ErrInvalidCategory: Error := Formatted("invalid category value")
  const ErrInvalidPrice: Error := Formatted("invalid price value")
  const ErrInvalidQuantity: Error := Formatted("invalid quantity value")

  datatype Products = Products(
    id: int,
    name: string,
    description: string,
    category: string,
    price: int,
    quantity: int,
    createdAt: Time,
    updatedAt: Time)

  /** A request body in which every field may be absent. */
  datatype ProductsInput = ProductsInput(
    name: Option<string>,
    description: Option<string>,
    category: Option<string>,
    price: Option<int>,
    quantity: Option<int>)

  datatype ProductsFilter = ProductsFilter(category: string, name: string, limit: int, offset: int, sort: string)

  /** The cases of `Products.Validate`, in the order they run. */
  function Checks(p: Products): seq<Check>
  {
    [ Check(p.name != "", ErrNameRequired),
      Check(p.category != "", ErrInvalidCategory),
      Check(p.price >= 0, ErrInvalidPrice),
      Check(p.quantity >= 0, ErrInvalidQuantity) ]
  }

  /** `Products.Validate`: nil exactly when name and category are present and
      price and quantity are not negative; zero is fine and the description
      is never looked at. */
  function Validate(p: Products): (r: Error)
    ensures r == Nil <==> p.name != "" && p.category != "" && p.price >= 0 && p.quantity >= 0
    ensures p.name == "" ==> r == ErrNameRequired
    ensures r == ErrInvalidCategory <==> p.name != "" && p.category == ""
    ensures r == ErrInvalidPrice <==> p.name != "" && p.category != "" && p.price < 0
    ensures r == ErrInvalidQuantity <==> p.name != "" && p.category != "" && p.price >= 0 && p.quantity < 0
  {
    var checks := Checks(p);
    assert Distinct(checks);
    assert (forall i | 0 <= i < |checks| :: checks[i].ok)
      <==> checks[0].ok && checks[1].ok && checks[2].ok && checks[3].ok;
    assert PassBefore(checks, 1) <==> checks[0].ok;
    assert PassBefore(checks, 2) <==> checks[0].ok && checks[1].ok;
    assert PassBefore(checks, 3) <==> checks[0].ok && checks[1].ok && checks[2].ok;
    FirstFailure(checks)
  }

  /** The description plays no part in validation. */
  lemma DescriptionIgnored(p: Products, description: string)
    ensures Validate(p.(description := description)) == Validate(p)
  {
  }

  /** `ProductsInput.SetValuesTo`: present fields overwrite, absent fields,
      the id and the timestamps are kept. */
  function SetValuesTo(i: ProductsInput, p: Products): (r: Products)
    ensures r.id == p.id && r.createdAt == p.createdAt && r.updatedAt == p.updatedAt
    ensures r.name == i.name.GetOr(p.name)
    ensures r.description == i.description.GetOr(p.description)
    ensures r.category == i.category.GetOr(p.category)
    ensures r.price == i.price.GetOr(p.price)
    ensures r.quantity == i.quantity.GetOr(p.quantity)
  {
    var p1 := if i.name.Some? then p.(name := i.name.value) else p;
    var p2 := if i.description.Some? then p1.(description := i.description.value) else p1;
    var p3 := if i.category.Some? then p2.(category := i.category.value) else p2;
    var p4 := if i.price.Some? then p3.(price := i.price.value) else p3;
    if i.quantity.Some? then p4.(quantity := i.quantity.value) else p4
  }

  /** Applying the same input twice is applying it once. */
  lemma SetValuesToIdempotent(i: ProductsInput, p: Products)
    ensures SetValuesTo(i, SetValuesTo(i, p)) == SetValuesTo(i, p)
  {
  }

  /** `ProductsFilter.Validate`: every filter is accepted. */
  function ValidateFilter(f: ProductsFilter): (r: Error)
    ensures r == Nil
  {
    Nil
  }
}
