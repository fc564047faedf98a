/** domain/product.go: the versioned product record, its create and patch
    inputs, their validation and the functions that turn inputs into
    records. */
module DomainProduct {
  import opened Wrappers
  import opened Errors
  import opened Validation
  import opened GoTime

  const ErrProductNameRequired: Error := Sentinel("errProductNameRequired", "name is required")
  const ErrProductDescriptionRequired: Error := Sentinel("errProductDescriptionRequired", "description is required")
  const ErrQuantityRequired: Error := Sentinel("errQuantityRequired", "quantity is required")
  const ErrPriceRequired: Error := Sentinel("errPriceRequired", "price is required")
  const ErrCategoryIDRequired: Error := Sentinel("errCategoryIDRequired", "CategoryID is required")
  const ErrVersionRequired: Error := Sentinel("errVersionRequired", "version is required")

  datatype Product = Product(
    id: int,
    name: string,
    description: string,
    categoryID: int,
    price: int,
    quantity: int,
    createdAt: Time,
    updatedAt: Time,
    version: int)

  /** The body of a POST request. */
  datatype ProductCreate = ProductCreate(
    name: string,
    description: string,
    categoryID: int,
    price: int,
    quantity: int)

  /** The body of a PATCH request: `None` is a field the client left out. */
  datatype ProductUpdate = ProductUpdate(
    name: Option<string>,
    description: Option<string>,
    categoryID: Option<int>,
    price: Option<int>,
    quantity: Option<int>,
    version: int)

  /** What the create rules demand of a product's fields: text present and
      numbers non-zero. Negative numbers are allowed. */
  predicate FieldsFilled(name: string, description: string, quantity: int, price: int, categoryID: int)
  {
    name != "" && description != "" && quantity != 0 && price != 0 && categoryID != 0
  }

  /** A stored product whose fields meet the create rules. */
  predicate WellFormed(p: Product)
  {
    FieldsFilled(p.name, p.description, p.quantity, p.price, p.categoryID)
  }

  /** The cases of `ProductCreate.Validate`, in the order they run. */
  function CreateChecks(p: ProductCreate): seq<Check>
  {
    [ Check(p.name != "", ErrProductNameRequired),
      Check(p.description != "", ErrProductDescriptionRequired),
      Check(p.quantity != 0, ErrQuantityRequired),
      Check(p.price != 0, ErrPriceRequired),
      Check(p.categoryID != 0, ErrCategoryIDRequired) ]
  }

  /** `ProductCreate.Validate`: nil exactly when the create rules hold;
      otherwise the first failing rule, in the order name, description,
      quantity, price, category, names the error. */
  function ValidateCreate(p: ProductCreate): (r: Error)
    ensures r == Nil <==> FieldsFilled(p.name, p.description, p.quantity, p.price, p.categoryID)
    ensures p.name == "" ==> r == ErrProductNameRequired
    ensures r == ErrProductDescriptionRequired <==> p.name != "" && p.description == ""
    ensures r == ErrQuantityRequired <==> p.name != "" && p.description != "" && p.quantity == 0
    ensures r == ErrCategoryIDRequired <==>
      p.name != "" && p.description != "" && p.quantity != 0 && p.price != 0 && p.categoryID == 0
    ensures r == ErrPriceRequired <==> p.name != "" && p.description != "" && p.quantity != 0 && p.price == 0
  {
    var checks := CreateChecks(p);
    assert Distinct(checks);
    assert (forall i | 0 <= i < |checks| :: checks[i].ok)
      <==> checks[0].ok && checks[1].ok && checks[2].ok && checks[3].ok && checks[4].ok;
    assert PassBefore(checks, 1) <==> checks[0].ok;
    assert PassBefore(checks, 2) <==> checks[0].ok && checks[1].ok;
    assert PassBefore(checks, 3) <==> checks[0].ok && checks[1].ok && checks[2].ok;
    assert PassBefore(checks, 4) <==> checks[0].ok && checks[1].ok && checks[2].ok && checks[3].ok;
    FirstFailure(checks)
  }

  /** `ProductCreate.CreateModel`: a new record with the input's fields and
      every other field at Go's zero value. */
  function CreateModel(p: ProductCreate): (r: Product)
    ensures r.name == p.name && r.description == p.description
    ensures r.categoryID == p.categoryID && r.price == p.price && r.quantity == p.quantity
    ensures r.id == 0 && r.version == 0
    ensures r.createdAt == Zero && r.updatedAt == Zero
    ensures ValidateCreate(p) == Nil ==> WellFormed(r)
  {
    Product(0, p.name, p.description, p.categoryID, p.price, p.quantity, Zero, Zero, 0)
  }

  /** The cases of `ProductUpdate.Validate`, in the order they run. */
  function UpdateChecks(u: ProductUpdate): seq<Check>
  {
    [ Check(PresentText(u.name), ErrProductNameRequired),
      Check(PresentText(u.description), ErrProductDescriptionRequired),
      Check(PresentNumber(u.quantity), ErrQuantityRequired),
      Check(PresentNumber(u.price), ErrPriceRequired),
      Check(PresentNumber(u.categoryID), ErrCategoryIDRequired),
      Check(u.version != 0, ErrVersionRequired) ]
  }

  /** `ProductUpdate.Validate`: present fields are held to the create rules,
      and a zero version is refused even when every field is absent. */
  function ValidateUpdate(u: ProductUpdate): (r: Error)
    ensures r == Nil <==>
      PresentText(u.name) && PresentText(u.description) && PresentNumber(u.quantity)
      && PresentNumber(u.price) && PresentNumber(u.categoryID) && u.version != 0
    ensures u.version == 0 ==> r != Nil
    ensures r == ErrVersionRequired <==>
      PresentText(u.name) && PresentText(u.description) && PresentNumber(u.quantity)
      && PresentNumber(u.price) && PresentNumber(u.categoryID) && u.version == 0
    ensures r == ErrProductNameRequired <==> !PresentText(u.name)
    ensures r == ErrProductDescriptionRequired <==> PresentText(u.name) && !PresentText(u.description)
    ensures r == ErrQuantityRequired <==>
      PresentText(u.name) && PresentText(u.description) && !PresentNumber(u.quantity)
    ensures r == ErrPriceRequired <==>
      PresentText(u.name) && PresentText(u.description) && PresentNumber(u.quantity) && !PresentNumber(u.price)
    ensures r == ErrCategoryIDRequired <==>
      PresentText(u.name) && PresentText(u.description) && PresentNumber(u.quantity)
      && PresentNumber(u.price) && !PresentNumber(u.categoryID)
  {
    var checks := UpdateChecks(u);
    assert Distinct(checks);
    assert (forall i | 0 <= i < |checks| :: checks[i].ok)
      <==> checks[0].ok && checks[1].ok && checks[2].ok && checks[3].ok && checks[4].ok && checks[5].ok;
    assert PassBefore(checks, 1) <==> checks[0].ok;
    assert PassBefore(checks, 2) <==> checks[0].ok && checks[1].ok;
    assert PassBefore(checks, 3) <==> checks[0].ok && checks[1].ok && checks[2].ok;
    assert PassBefore(checks, 4) <==> checks[0].ok && checks[1].ok && checks[2].ok && checks[3].ok;
    assert PassBefore(checks, 5)
      <==> checks[0].ok && checks[1].ok && checks[2].ok && checks[3].ok && checks[4].ok;
    FirstFailure(checks)
  }

  /** `ProductUpdate.UpdateModel`: present fields overwrite, absent ones are
      kept, the version is always taken from the update, and the id and
      timestamps are never touched. */
  function UpdateModel(p: Product, u: ProductUpdate): (r: Product)
    ensures r.id == p.id && r.createdAt == p.createdAt && r.updatedAt == p.updatedAt
    ensures r.version == u.version
    ensures r.name == (if u.name.Some? then u.name.value else p.name)
    ensures r.description == (if u.description.Some? then u.description.value else p.description)
    ensures r.categoryID == (if u.categoryID.Some? then u.categoryID.value else p.categoryID)
    ensures r.price == (if u.price.Some? then u.price.value else p.price)
    ensures r.quantity == (if u.quantity.Some? then u.quantity.value else p.quantity)
  {
    var p1 := if u.name.Some? then p.(name := u.name.value) else p;
    var p2 := if u.description.Some? then p1.(description := u.description.value) else p1;
    var p3 := if u.categoryID.Some? then p2.(categoryID := u.categoryID.value) else p2;
    var p4 := if u.price.Some? then p3.(price := u.price.value) else p3;
    var p5 := if u.quantity.Some? then p4.(quantity := u.quantity.value) else p4;
    p5.(version := u.version)
  }

  /** Applying the same patch twice is applying it once. */
  lemma UpdateModelIdempotent(p: Product, u: ProductUpdate)
    ensures UpdateModel(UpdateModel(p, u), u) == UpdateModel(p, u)
  {
  }

  /** A patch with no fields only stamps the version. */
  lemma UpdateModelAbsent(p: Product, version: int)
    ensures UpdateModel(p, ProductUpdate(None, None, None, None, None, version)) == p.(version := version)
  {
  }

  /** A patch that passes validation keeps a well-formed product well-formed. */
  lemma ValidUpdateKeepsWellFormed(p: Product, u: ProductUpdate)
    requires WellFormed(p)
    requires ValidateUpdate(u) == Nil
    ensures WellFormed(UpdateModel(p, u))
  {
  }
}
