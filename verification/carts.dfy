/** domain/carts.go: the cart record of the validator-library generation
    and its inputs. Their validation is driven by struct tags of a
    validator library and is not part of this model. */
module DomainCarts {
  import opened Wrappers
  import DomainCart

  datatype Carts = Carts(id: int, productID: int, quantity: int, userID: int)

  datatype CartsCreate = CartsCreate(userID: int, productID: int, quantity: int)

  /** A PATCH body: `None` is a field the client left out. */
  datatype CartsUpdate = CartsUpdate(productID: Option<int>, quantity: Option<int>)

  /** `CartsCreate.CreateModel`: the input's fields and a zero id. */
  function CreateModel(c: CartsCreate): (r: Carts)
    ensures r.productID == c.productID && r.quantity == c.quantity && r.userID == c.userID
    ensures r.id == 0
  {
    Carts(0, c.productID, c.quantity, c.userID)
  }

  /** `CartsUpdate.UpdateModel`: present fields overwrite, absent ones are
      kept; the id and owner never change. */
  function UpdateModel(c: Carts, u: CartsUpdate): (r: Carts)
    ensures r.id == c.id && r.userID == c.userID
    ensures r.productID == u.productID.GetOr(c.productID)
    ensures r.quantity == u.quantity.GetOr(c.quantity)
  {
    var c1 := if u.productID.Some? then c.(productID := u.productID.value) else c;
    if u.quantity.Some? then c1.(quantity := u.quantity.value) else c1
  }

  /** Applying the same patch twice is applying it once. */
  lemma UpdateModelIdempotent(c: Carts, u: CartsUpdate)
    ensures UpdateModel(UpdateModel(c, u), u) == UpdateModel(c, u)
  {
  }

  /** The same input in the validated generation gives a cart with the same
      id and fields. */
  lemma CreateModelAgreesWithCart(c: CartsCreate)
    ensures var a := CreateModel(c);
      var b := DomainCart.CreateModel(DomainCart.CartCreate(c.userID, c.productID, c.quantity));
      a.id == b.id && a.productID == b.productID && a.quantity == b.quantity && a.userID == b.userID
  {
  }

  /** A patch that carries the product and quantity of a create input turns
      any of the same owner's carts into the created one, apart from its id. */
  lemma FullUpdateMatchesCreate(x: Carts, c: CartsCreate)
    requires x.userID == c.userID
    ensures UpdateModel(x, CartsUpdate(Some(c.productID), Some(c.quantity))) == CreateModel(c).(id := x.id)
  {
  }
}
