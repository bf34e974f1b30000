/**
 * The cart service: find-or-create then add, remove by key and owner, and
 * set a quantity with the stock check. Each operation is first given as a
 * function on the cart-line table (`ServiceAdd`, `ServiceRemove`,
 * `ServiceUpdate`); the methods of `CartService` change a `ShopDb` and are
 * proved to have exactly that effect.
 */
module CartService {
  import opened Common
  import opened Models
  import opened Store
  import opened Cart

  /** The exceptions the service throws, by kind. */
  datatype CartError =
    | Unauthorized                            // UnauthorizedAccessException
    | ProductNotFound(param: Option<string>)  // ArgumentException, with the parameter name it names, if any
    | CartItemNotFound                        // ArgumentException
    | InsufficientStock(available: int)       // InvalidOperationException

  /** `GetOrCreateCartItemAsync` names the parameter `productId`; `UpdateQuantityAsync` names none. */
  const AddProductNotFound: CartError := ProductNotFound(Some("productId"))
  const UpdateProductNotFound: CartError := ProductNotFound(None)

  /**
   * The exception message of each kind. An `ArgumentException` built with a
   * parameter name appends that name to its message.
   */
  function ErrorMessage(e: CartError): string
  {
    match e
    case Unauthorized => "User must be logged in"
    case ProductNotFound(param) =>
      "Product not found" + if param.Some? then " (Parameter '" + param.value + "')" else ""
    case CartItemNotFound => "Cart item not found"
    case InsufficientStock(n) => "В наличии только " + IntToString(n) + " шт. этого товара"
  }

  /** The two places that report a missing product give different messages. */
  lemma ProductMessages()
    ensures ErrorMessage(AddProductNotFound) == "Product not found (Parameter 'productId')"
    ensures ErrorMessage(UpdateProductNotFound) == "Product not found"
  {
  }

  /** The stock message names the available quantity: different quantities give different messages. */
  lemma StockMessageNamesQuantity(a: int, b: int)
    requires ErrorMessage(InsufficientStock(a)) == ErrorMessage(InsufficientStock(b))
    ensures a == b
  {
    EmbeddedIntInjective("В наличии только ", " шт. этого товара", a, b);
  }

  // ---------------------------------------------------------------------------
  // AddToCartAsync (with GetOrCreateCartItemAsync).
  // ---------------------------------------------------------------------------

  /**
   * The table after `AddToCartAsync(productId, quantity)` by `userId`: the
   * line for the pair is found or created with quantity 0, then `quantity`
   * is added to it with C#'s unchecked `int` addition. `newId` is the key a
   * created line receives. There is no stock check and no check on the sign
   * of `quantity`.
   */
  function ServiceAdd(lines: seq<CartLine>, products: seq<Product>, userId: Option<string>,
                      productId: int, quantity: int, newId: int, now: int): Result<seq<CartLine>, CartError>
  {
    if IsNullOrEmpty(userId) then Err(Unauthorized)
    else if FindProduct(products, productId).None? then Err(AddProductNotFound)
    else match FindPair(lines, userId.value, productId)
      case None => Ok(lines + [CartLine(newId, userId.value, productId, Wrap32(0 + quantity), now, None)])
      case Some(i) => Ok(lines[i := lines[i].(quantity := Wrap32(lines[i].quantity + quantity))])
  }

  /** Adding fails exactly without a user or without the product. */
  lemma AddFailures(lines: seq<CartLine>, products: seq<Product>, userId: Option<string>,
                    productId: int, quantity: int, newId: int, now: int)
    ensures var r := ServiceAdd(lines, products, userId, productId, quantity, newId, now);
            && (IsNullOrEmpty(userId) ==> r == Err(Unauthorized))
            && (!IsNullOrEmpty(userId) && FindProduct(products, productId).None? ==> r == Err(AddProductNotFound))
            && (r.Ok? <==> !IsNullOrEmpty(userId) && FindProduct(products, productId).Some?)
  {
  }

  /**
   * With no line for the pair, adding creates exactly one line for it,
   * holding the requested quantity (for any `int` quantity); the user's
   * count grows by that quantity and no other user's count changes.
   */
  lemma AddCreatesOneLine(lines: seq<CartLine>, products: seq<Product>, u: string,
                          productId: int, quantity: int, newId: int, now: int)
    requires u != "" && FindProduct(products, productId).Some?
    requires PairLines(lines, u, productId) == []
    ensures var r := ServiceAdd(lines, products, Some(u), productId, quantity, newId, now);
            && r.Ok?
            && PairLines(r.value, u, productId) == [CartLine(newId, u, productId, Wrap32(quantity), now, None)]
            && |r.value| == |lines| + 1 && r.value[..|lines|] == lines
            && ItemCount(r.value, u) == ItemCount(lines, u) + Wrap32(quantity)
            && (IsInt32(quantity) ==> ItemCount(r.value, u) == ItemCount(lines, u) + quantity)
            && (forall v :: v != u ==> ItemCount(r.value, v) == ItemCount(lines, v))
  {
    FindPairIffHeld(lines, u, productId);
    var l := CartLine(newId, u, productId, Wrap32(quantity), now, None);
    assert ServiceAdd(lines, products, Some(u), productId, quantity, newId, now) == Ok(lines + [l]);
    PairLinesAfterAppend(lines, u, productId, l);
    assert (lines + [l])[..|lines|] == lines;
    CountsAfterAppend(lines, l);
  }

  /** With a line for the pair, the service's add replaces that line by one with the larger quantity. */
  lemma AddExistingValue(lines: seq<CartLine>, products: seq<Product>, u: string,
                         productId: int, quantity: int, newId: int, now: int)
    requires u != "" && FindProduct(products, productId).Some?
    requires PairLines(lines, u, productId) != []
    ensures FindPair(lines, u, productId).Some?
    ensures var i := FindPair(lines, u, productId).value;
            && i < |lines| && lines[i].userId == u && lines[i].productId == productId
            && ServiceAdd(lines, products, Some(u), productId, quantity, newId, now)
               == Ok(lines[i := lines[i].(quantity := Wrap32(lines[i].quantity + quantity))])
  {
    FindPairIffHeld(lines, u, productId);
  }

  /**
   * With a line for the pair, adding raises that line's quantity by the
   * requested amount, wrapped to an `int`, changes nothing else and creates
   * no second line. Without overflow the new quantity is the plain sum.
   */
  lemma {:induction false} AddIncrementsExisting(lines: seq<CartLine>, products: seq<Product>, u: string,
                              productId: int, quantity: int, newId: int, now: int)
    requires u != "" && FindProduct(products, productId).Some?
    requires PairLines(lines, u, productId) != []
    ensures FindPair(lines, u, productId).Some?
    ensures var r := ServiceAdd(lines, products, Some(u), productId, quantity, newId, now);
            var i := FindPair(lines, u, productId).value;
            && r.Ok? && |r.value| == |lines|
            && i < |lines| && lines[i].userId == u && lines[i].productId == productId
            && |PairLines(r.value, u, productId)| == |PairLines(lines, u, productId)|
            && r.value[i] == lines[i].(quantity := Wrap32(lines[i].quantity + quantity))
            && (IsInt32(lines[i].quantity + quantity) ==> r.value[i].quantity == lines[i].quantity + quantity)
            && (forall j :: 0 <= j < |lines| && j != i ==> r.value[j] == lines[j])
  {
    AddExistingValue(lines, products, u, productId, quantity, newId, now);
    var i := FindPair(lines, u, productId).value;
    var l := lines[i].(quantity := Wrap32(lines[i].quantity + quantity));
    var r := ServiceAdd(lines, products, Some(u), productId, quantity, newId, now);
    assert r.value == lines[i := l];
    PairLinesAfterReplace(lines, i, l, u, productId);
  }

  /**
   * Adding to an existing line moves its owner's count from the line's old
   * quantity to its wrapped new one, by the delta when the sum fits an
   * `int`, and changes no other user's count.
   */
  lemma {:induction false} AddToExistingCounts(lines: seq<CartLine>, products: seq<Product>, u: string,
                            productId: int, quantity: int, newId: int, now: int)
    requires u != "" && FindProduct(products, productId).Some?
    requires PairLines(lines, u, productId) != []
    ensures FindPair(lines, u, productId).Some?
    ensures var r := ServiceAdd(lines, products, Some(u), productId, quantity, newId, now);
            var i := FindPair(lines, u, productId).value;
            var q := lines[i].quantity;
            && i < |lines| && r.Ok?
            && ItemCount(r.value, u) == ItemCount(lines, u) - q + Wrap32(q + quantity)
            && (IsInt32(q + quantity) ==> ItemCount(r.value, u) == ItemCount(lines, u) + quantity)
            && (forall v :: v != u ==> ItemCount(r.value, v) == ItemCount(lines, v))
  {
    AddExistingValue(lines, products, u, productId, quantity, newId, now);
    var i := FindPair(lines, u, productId).value;
    var l := lines[i].(quantity := Wrap32(lines[i].quantity + quantity));
    var r := ServiceAdd(lines, products, Some(u), productId, quantity, newId, now);
    assert r.value == lines[i := l];
    forall v ensures ItemCount(r.value, v) == ItemCount(lines, v) - Share(lines[i], v) + Share(l, v) {
      ItemCountReplace(lines, i, l, v);
    }
  }

  /** Find-or-create never makes a second line for a pair. */
  lemma AddKeepsPairsUnique(lines: seq<CartLine>, products: seq<Product>, userId: Option<string>,
                            productId: int, quantity: int, newId: int, now: int)
    requires PairsUnique(lines)
    ensures var r := ServiceAdd(lines, products, userId, productId, quantity, newId, now);
            r.Ok? ==> PairsUnique(r.value)
  {
  }

  /**
   * The service adds past the stock: a line at the stock of its product
   * grows beyond it, and a non-positive quantity is stored as it is.
   */
  lemma ServiceAddIgnoresStock()
    ensures ServiceAdd([CartLine(1, "ann", 7, 5, 0, None)], [Product(7, "Lamp", None, 1500, None, 5, 1, 0)],
                       Some("ann"), 7, 1, 2, 0) == Ok([CartLine(1, "ann", 7, 6, 0, None)])
    ensures ServiceAdd([], [Product(7, "Lamp", None, 1500, None, 5, 1, 0)], Some("ann"), 7, -3, 1, 0)
            == Ok([CartLine(1, "ann", 7, -3, 0, None)])
  {
    var p := Product(7, "Lamp", None, 1500, None, 5, 1, 0);
    var atStock := CartLine(1, "ann", 7, 5, 0, None);
    assert FindProduct([p], 7) == Some(p);
    assert FindPair([atStock], "ann", 7) == Some(0);
    assert FindPair([], "ann", 7) == None;
    assert [] + [CartLine(1, "ann", 7, -3, 0, None)] == [CartLine(1, "ann", 7, -3, 0, None)];
    assert !IsNullOrEmpty(Some("ann"));
    assert [atStock][0 := atStock.(quantity := 6)] == [CartLine(1, "ann", 7, 6, 0, None)];
  }

  /** `+=` on an `int` wraps: adding the largest `int` to a line of one leaves the smallest `int`. */
  lemma ServiceAddWrapsAround()
    ensures ServiceAdd([CartLine(1, "ann", 7, 1, 0, None)], [Product(7, "Lamp", None, 1500, None, 5, 1, 0)],
                       Some("ann"), 7, Int32Max, 2, 0) == Ok([CartLine(1, "ann", 7, Int32Min, 0, None)])
  {
    var p := Product(7, "Lamp", None, 1500, None, 5, 1, 0);
    var one := CartLine(1, "ann", 7, 1, 0, None);
    assert FindProduct([p], 7) == Some(p);
    assert FindPair([one], "ann", 7) == Some(0);
    assert !IsNullOrEmpty(Some("ann"));
    assert Wrap32(1 + Int32Max) == Int32Min;
    assert [one][0 := one.(quantity := Int32Min)] == [CartLine(1, "ann", 7, Int32Min, 0, None)];
  }

  // ---------------------------------------------------------------------------
  // RemoveFromCartAsync.
  // ---------------------------------------------------------------------------

  /** The table after `RemoveFromCartAsync(id)` by `userId`: the owned line with that key is deleted. */
  function ServiceRemove(lines: seq<CartLine>, userId: Option<string>, id: int): seq<CartLine>
  {
    match FindOwned(lines, userId, id)
    case None => lines
    case Some(i) => lines[..i] + lines[i + 1..]
  }

  /**
   * Removing deletes the line whose key and owner both match and keeps every
   * other line; a missing key or another user's line makes it a no-op. The
   * removed line's quantity leaves its owner's count and no other count
   * changes.
   */
  lemma RemoveOnlyOwnedLine(lines: seq<CartLine>, userId: Option<string>, id: int)
    requires IdsUnique(lines)
    ensures var r := ServiceRemove(lines, userId, id);
            && IdsUnique(r)
            && (FindOwned(lines, userId, id).None? ==> r == lines)
            && (FindOwned(lines, userId, id).Some? ==>
                  var i := FindOwned(lines, userId, id).value;
                  && |r| == |lines| - 1
                  && (forall l :: l in r <==> l in lines && l.id != id)
                  && (forall v :: ItemCount(r, v) == ItemCount(lines, v) - Share(lines[i], v)))
  {
    match FindOwned(lines, userId, id)
    case None =>
    case Some(i) =>
      RemoveKeepsKeys(lines, 0, i);
      RemoveMembership(lines, i);
      CountsAfterRemove(lines, i);
  }

  // ---------------------------------------------------------------------------
  // UpdateQuantityAsync.
  // ---------------------------------------------------------------------------

  /**
   * The table after `UpdateQuantityAsync(id, quantity)` by `userId`. The
   * product is looked up before the quantity is examined, so a line whose
   * product was deleted cannot be removed this way.
   */
  function ServiceUpdate(lines: seq<CartLine>, products: seq<Product>, userId: Option<string>,
                         id: int, quantity: int, now: int): Result<seq<CartLine>, CartError>
  {
    match FindOwned(lines, userId, id)
    case None => Err(CartItemNotFound)
    case Some(i) =>
      match FindProduct(products, lines[i].productId)
      case None => Err(UpdateProductNotFound)
      case Some(p) =>
        if quantity <= 0 then Ok(ServiceRemove(lines, userId, id))
        else if quantity > p.stockQuantity then Err(InsufficientStock(p.stockQuantity))
        else Ok(lines[i := lines[i].(quantity := quantity, updatedAt := Some(now))])
  }

  /**
   * Update fails on a missing or foreign line, on a line whose product is
   * gone (whatever the quantity, even one that asks for removal), and on a
   * quantity above the stock, reporting the stock.
   */
  lemma UpdateFailures(lines: seq<CartLine>, products: seq<Product>, userId: Option<string>,
                       id: int, quantity: int, now: int)
    ensures var r := ServiceUpdate(lines, products, userId, id, quantity, now);
            && (FindOwned(lines, userId, id).None? ==> r == Err(CartItemNotFound))
            && (FindOwned(lines, userId, id).Some? ==>
                  var l := lines[FindOwned(lines, userId, id).value];
                  && (FindProduct(products, l.productId).None? ==> r == Err(UpdateProductNotFound))
                  && (FindProduct(products, l.productId).Some? ==>
                        var stock := FindProduct(products, l.productId).value.stockQuantity;
                        (r.Err? <==> quantity > 0 && quantity > stock)
                        && (r.Err? ==> r == Err(InsufficientStock(stock)))))
  {
  }

  /**
   * A quantity of 0 or less removes the line: no line with that key is left
   * and the owner's count drops by the line's quantity.
   */
  lemma UpdateRemovesAtZero(lines: seq<CartLine>, products: seq<Product>, u: string,
                            id: int, quantity: int, now: int)
    requires IdsUnique(lines) && quantity <= 0
    requires FindOwned(lines, Some(u), id).Some?
    requires FindProduct(products, lines[FindOwned(lines, Some(u), id).value].productId).Some?
    ensures var r := ServiceUpdate(lines, products, Some(u), id, quantity, now);
            var i := FindOwned(lines, Some(u), id).value;
            && r.Ok? && |r.value| == |lines| - 1
            && (forall l :: l in r.value ==> l.id != id)
            && ItemCount(r.value, u) == ItemCount(lines, u) - lines[i].quantity
  {
    RemoveOnlyOwnedLine(lines, Some(u), id);
  }

  /** With unique keys, the service's update of line `i` by its owner as one expression over that line. */
  lemma ServiceUpdateOwnedValue(lines: seq<CartLine>, products: seq<Product>, i: nat, quantity: int, now: int)
    requires IdsUnique(lines) && i < |lines|
    requires FindProduct(products, lines[i].productId).Some?
    ensures var stock := FindProduct(products, lines[i].productId).value.stockQuantity;
            ServiceUpdate(lines, products, Some(lines[i].userId), lines[i].id, quantity, now)
            == if quantity <= 0 then Ok(lines[..i] + lines[i + 1..])
               else if quantity > stock then Err(InsufficientStock(stock))
               else Ok(lines[i := lines[i].(quantity := quantity, updatedAt := Some(now))])
  {
    FindOwnedUnique(lines, i);
  }

  /**
   * A quantity from 1 up to the stock becomes the line's quantity exactly,
   * with the update time set; every other line is kept and the owner's count
   * moves by the difference.
   */
  lemma UpdateSetsQuantity(lines: seq<CartLine>, products: seq<Product>, u: string,
                           id: int, quantity: int, now: int)
    requires FindOwned(lines, Some(u), id).Some?
    requires var l := lines[FindOwned(lines, Some(u), id).value];
             FindProduct(products, l.productId).Some?
             && 0 < quantity <= FindProduct(products, l.productId).value.stockQuantity
    ensures var r := ServiceUpdate(lines, products, Some(u), id, quantity, now);
            var i := FindOwned(lines, Some(u), id).value;
            && r.Ok? && |r.value| == |lines|
            && r.value[i] == lines[i].(quantity := quantity, updatedAt := Some(now))
            && (forall j :: 0 <= j < |lines| && j != i ==> r.value[j] == lines[j])
            && ItemCount(r.value, u) == ItemCount(lines, u) - lines[i].quantity + quantity
            && (forall v :: v != u ==> ItemCount(r.value, v) == ItemCount(lines, v))
  {
    var i := FindOwned(lines, Some(u), id).value;
    var l := lines[i].(quantity := quantity, updatedAt := Some(now));
    var r := ServiceUpdate(lines, products, Some(u), id, quantity, now);
    assert r.value == lines[i := l];
    forall v ensures ItemCount(r.value, v) == ItemCount(lines, v) - Share(lines[i], v) + Share(l, v) {
      ItemCountReplace(lines, i, l, v);
    }
  }

  // ---------------------------------------------------------------------------
  // The service object.
  // ---------------------------------------------------------------------------

  class CartService {
    const context: ShopDb

    constructor (context: ShopDb)
      ensures this.context == context
    {
      this.context := context;
    }

    /**
     * `GetOrCreateCartItemAsync`: the index of the user's line for the
     * product, appending a quantity-0 line when there is none.
     */
    method GetOrCreateCartItem(userId: string, productId: int, now: int) returns (r: Result<nat, CartError>)
      requires context.Valid()
      modifies context`cartItems, context`nextCartItemId
      ensures context.Valid()
      ensures FindProduct(context.products, productId).None? ==>
                r == Err(AddProductNotFound) && unchanged(context)
      ensures FindProduct(context.products, productId).Some? ==>
                && r.Ok? && r.value < |context.cartItems|
                && context.cartItems[r.value].userId == userId
                && context.cartItems[r.value].productId == productId
                && match FindPair(old(context.cartItems), userId, productId)
                   case Some(i) => r.value == i && unchanged(context)
                   case None =>
                     && r.value == |old(context.cartItems)|
                     && context.cartItems == old(context.cartItems) + [CartLine(old(context.nextCartItemId), userId, productId, 0, now, None)]
                     && context.nextCartItemId == old(context.nextCartItemId) + 1
    {
      var product := FindProduct(context.products, productId);
      if product.None? {
        return Err(AddProductNotFound);
      }
      var found := FindPair(context.cartItems, userId, productId);
      if found.Some? {
        return Ok(found.value);
      }
      AppendFreshKey(context.cartItems, context.nextCartItemId, CartLine(context.nextCartItemId, userId, productId, 0, now, None));
      context.cartItems := context.cartItems + [CartLine(context.nextCartItemId, userId, productId, 0, now, None)];
      context.nextCartItemId := context.nextCartItemId + 1;
      r := Ok(|context.cartItems| - 1);
    }

    /** `AddToCartAsync`: the table afterwards is `ServiceAdd` of the table before. */
    method AddToCart(userId: Option<string>, productId: int, quantity: int, now: int) returns (r: Result<(), CartError>)
      requires context.Valid()
      modifies context`cartItems, context`nextCartItemId
      ensures context.Valid()
      ensures match ServiceAdd(old(context.cartItems), context.products, userId, productId, quantity, old(context.nextCartItemId), now)
              case Ok(lines) =>
                && r == Ok(()) && context.cartItems == lines
                && context.nextCartItemId == old(context.nextCartItemId) + |lines| - |old(context.cartItems)|
              case Err(e) => r == Err(e) && unchanged(context)
    {
      if IsNullOrEmpty(userId) {
        return Err(Unauthorized);
      }
      var item := GetOrCreateCartItem(userId.value, productId, now);
      if item.Err? {
        return Err(item.error);
      }
      var i := item.value;
      var line := context.cartItems[i].(quantity := Wrap32(context.cartItems[i].quantity + quantity));
      ReplaceKeepsKeys(context.cartItems, context.nextCartItemId, i, line);
      context.cartItems := context.cartItems[i := line];
      r := Ok(());
    }

    /** `RemoveFromCartAsync`: the table afterwards is `ServiceRemove` of the table before. */
    method RemoveFromCart(userId: Option<string>, cartItemId: int)
      requires context.Valid()
      modifies context`cartItems
      ensures context.Valid()
      ensures context.cartItems == ServiceRemove(old(context.cartItems), userId, cartItemId)
    {
      var found := FindOwned(context.cartItems, userId, cartItemId);
      if found.Some? {
        var i := found.value;
        RemoveKeepsKeys(context.cartItems, context.nextCartItemId, i);
        context.cartItems := context.cartItems[..i] + context.cartItems[i + 1..];
      }
    }

    /** `UpdateQuantityAsync`: the table afterwards is `ServiceUpdate` of the table before. */
    method UpdateQuantity(userId: Option<string>, cartItemId: int, quantity: int, now: int) returns (r: Result<(), CartError>)
      requires context.Valid()
      modifies context`cartItems
      ensures context.Valid()
      ensures match ServiceUpdate(old(context.cartItems), context.products, userId, cartItemId, quantity, now)
              case Ok(lines) => r == Ok(()) && context.cartItems == lines
              case Err(e) => r == Err(e) && unchanged(context)
    {
      var found := FindOwned(context.cartItems, userId, cartItemId);
      if found.None? {
        return Err(CartItemNotFound);
      }
      var i := found.value;
      var product := FindProduct(context.products, context.cartItems[i].productId);
      if product.None? {
        return Err(UpdateProductNotFound);
      }
      if quantity <= 0 {
        RemoveFromCart(userId, cartItemId);
        return Ok(());
      }
      if quantity > product.value.stockQuantity {
        return Err(InsufficientStock(product.value.stockQuantity));
      }
      var line := context.cartItems[i].(quantity := quantity, updatedAt := Some(now));
      ReplaceKeepsKeys(context.cartItems, context.nextCartItemId, i, line);
      context.cartItems := context.cartItems[i := line];
      r := Ok(());
    }
  }
}
