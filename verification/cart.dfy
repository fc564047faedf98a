/** domain/cart.go: the cart record, its inputs, their validation and the
    functions that turn inputs into records. Carts carry no version. */
module DomainCart {
  import opened Wrappers
  import opened Errors
  import opened Validation
  import DomainProduct

  const ErrUserIDRequired: Error := Sentinel("errUserIDRequired", "user_id is required")
  const ErrProductIDRequired: Error := Sentinel("errProductIDRequired", "product_id is required")

  datatype Cart = Cart(id: int, productID: int, quantity: int, userID: int)

  datatype CartCreate = CartCreate(userID: int, productID: int, quantity: int)

  /** A PATCH body: `None` is a field the client left out. The owner cannot
      be changed. */
  datatype CartUpdate = CartUpdate(productID: Option<int>, quantity: Option<int>)

  /** A stored cart whose fields meet the create rules. */
  predicate WellFormed(c: Cart)
  {
    c.userID != 0 && c.productID != 0 && c.quantity != 0
  }

  /** The cases of `CartCreate.Validate`, in the order they run. The
      quantity case reports the product package's error value. */
  function CreateChecks(c: CartCreate): seq<Check>
  {
    [ Check(c.userID != 0, ErrUserIDRequired),
      Check(c.productID != 0, ErrProductIDRequired),
      Check(c.quantity != 0, DomainProduct.ErrQuantityRequired) ]
  }

  /** `CartCreate.Validate`: nil exactly when user, product and quantity are
      non-zero; only zero is refused, so negative values pass. */
  function ValidateCreate(c: CartCreate): (r: Error)
    ensures r == Nil <==> c.userID != 0 && c.productID != 0 && c.quantity != 0
    ensures c.userID == 0 ==> r == ErrUserIDRequired
    ensures r == ErrProductIDRequired <==> c.userID != 0 && c.productID == 0
    ensures r == DomainProduct.ErrQuantityRequired <==> c.userID != 0 && c.productID != 0 && c.quantity == 0
  {
    var checks := CreateChecks(c);
    assert Distinct(checks);
    assert (forall i | 0 <= i < |checks| :: checks[i].ok) <==> checks[0].ok && checks[1].ok && checks[2].ok;
    assert PassBefore(checks, 1) <==> checks[0].ok;
    assert PassBefore(checks, 2) <==> checks[0].ok && checks[1].ok;
    FirstFailure(checks)
  }

  /** `CartCreate.CreateModel`: the input's fields and a zero id. */
  function CreateModel(c: CartCreate): (r: Cart)
    ensures r.productID == c.productID && r.quantity == c.quantity && r.userID == c.userID
    ensures r.id == 0
    ensures ValidateCreate(c) == Nil ==> WellFormed(r)
  {
    Cart(0, c.productID, c.quantity, c.userID)
  }

  /** The cases of `CartUpdate.Validate`, in the order they run. */
  function UpdateChecks(u: CartUpdate): seq<Check>
  {
    [ Check(PresentNumber(u.productID), ErrProductIDRequired),
      Check(PresentNumber(u.quantity), DomainProduct.ErrQuantityRequired) ]
  }

  /** `CartUpdate.Validate`: present values must be non-zero; an empty
      patch is accepted. */
  function ValidateUpdate(u: CartUpdate): (r: Error)
    ensures r == Nil <==> PresentNumber(u.productID) && PresentNumber(u.quantity)
    ensures u.productID == Some(0) ==> r == ErrProductIDRequired
    ensures r == ErrProductIDRequired <==> !PresentNumber(u.productID)
    ensures r == DomainProduct.ErrQuantityRequired <==> PresentNumber(u.productID) && !PresentNumber(u.quantity)
  {
    var checks := UpdateChecks(u);
    assert Distinct(checks);
    assert (forall i | 0 <= i < |checks| :: checks[i].ok) <==> checks[0].ok && checks[1].ok;
    assert PassBefore(checks, 1) <==> checks[0].ok;
    FirstFailure(checks)
  }

  /** `CartUpdate.UpdateModel`: present fields overwrite, absent ones are
      kept; the id and owner never change. */
  function UpdateModel(c: Cart, u: CartUpdate): (r: Cart)
    ensures r.id == c.id && r.userID == c.userID
    ensures r.productID == u.productID.GetOr(c.productID)
    ensures r.quantity == u.quantity.GetOr(c.quantity)
  {
    var c1 := if u.productID.Some? then c.(productID := u.productID.value) else c;
    if u.quantity.Some? then c1.(quantity := u.quantity.value) else c1
  }

  /** Applying the same patch twice is applying it once. */
  lemma UpdateModelIdempotent(c: Cart, u: CartUpdate)
    ensures UpdateModel(UpdateModel(c, u), u) == UpdateModel(c, u)
  {
  }

  /** A patch that passes validation keeps a well-formed cart well-formed. */
  lemma ValidUpdateKeepsWellFormed(c: Cart, u: CartUpdate)
    requires WellFormed(c)
    requires ValidateUpdate(u) == Nil
    ensures WellFormed(UpdateModel(c, u))
  {
  }

  /** A cart with no quantity is refused with the very error value a
      product with no quantity gets. */
  lemma QuantityErrorShared(userID: int, productID: int, p: DomainProduct.ProductCreate)
    requires userID != 0 && productID != 0
    requires p.name != "" && p.description != "" && p.quantity == 0
    ensures ValidateCreate(CartCreate(userID, productID, 0)) == DomainProduct.ValidateCreate(p)
  {
  }
}
