/** domain/products.go: the unversioned product record whose category is a
    name, and its create and patch inputs. Their validation is driven by
    struct tags of a validator library and is not part of this model. */
module DomainProducts {
  import opened Wrappers
  import opened GoTime

  datatype Products = Products(
    id: int,
    name: string,
    description: string,
    category: string,
    price: int,
    quantity: int,
    createdAt: Time,
    updatedAt: Time)

  datatype ProductsCreate = ProductsCreate(
    name: string,
    description: string,
    category: string,
    price: int,
    quantity: int)

  /** A PATCH body: `None` is a field the client left out. */
  datatype ProductsUpdate = ProductsUpdate(
    name: Option<string>,
    description: Option<string>,
    category: Option<string>,
    price: Option<int>,
    quantity: Option<int>)

  const NoChange: ProductsUpdate := ProductsUpdate(None, None, None, None, None)

  /** `ProductsCreate.CreateModel`: the input's fields, a zero id and zero
      timestamps. */
  function CreateModel(p: ProductsCreate): (r: Products)
    ensures r.name == p.name && r.description == p.description && r.category == p.category
    ensures r.price == p.price && r.quantity == p.quantity
    ensures r.id == 0 && r.createdAt == Zero && r.updatedAt == Zero
  {
    Products(0, p.name, p.description, p.category, p.price, p.quantity, Zero, Zero)
  }

  /** `ProductsUpdate.UpdateModel`: each present field overwrites its own
      field; absent fields, the id and the timestamps are kept. */
  function UpdateModel(p: Products, u: ProductsUpdate): (r: Products)
    ensures r.id == p.id && r.createdAt == p.createdAt && r.updatedAt == p.updatedAt
    ensures r.name == u.name.GetOr(p.name)
    ensures r.description == u.description.GetOr(p.description)
    ensures r.category == u.category.GetOr(p.category)
    ensures r.price == u.price.GetOr(p.price)
    ensures r.quantity == u.quantity.GetOr(p.quantity)
    ensures u == NoChange ==> r == p
  {
    var p1 := if u.name.Some? then p.(name := u.name.value) else p;
    var p2 := if u.description.Some? then p1.(description := u.description.value) else p1;
    var p3 := if u.category.Some? then p2.(category := u.category.value) else p2;
    var p4 := if u.price.Some? then p3.(price := u.price.value) else p3;
    if u.quantity.Some? then p4.(quantity := u.quantity.value) else p4
  }

  /** Applying the same patch twice is applying it once. */
  lemma UpdateModelIdempotent(p: Products, u: ProductsUpdate)
    ensures UpdateModel(UpdateModel(p, u), u) == UpdateModel(p, u)
  {
  }

  /** A patch that sets only the price changes only the price. */
  lemma PriceOnlyChangesPrice(p: Products, price: int)
    ensures UpdateModel(p, NoChange.(price := Some(price))) == p.(price := price)
  {
  }

  /** The patch that carries every field of a create input. */
  function FullUpdate(c: ProductsCreate): ProductsUpdate
  {
    ProductsUpdate(Some(c.name), Some(c.description), Some(c.category), Some(c.price), Some(c.quantity))
  }

  /** A patch that carries every field of a create input turns any stored
      record into the created one, apart from its id and timestamps. */
  lemma FullUpdateMatchesCreate(x: Products, c: ProductsCreate)
    ensures UpdateModel(x, FullUpdate(c))
      == CreateModel(c).(id := x.id, createdAt := x.createdAt, updatedAt := x.updatedAt)
  {
  }
}
