/**
 * The home page: the newest products with the user's cart lines, and the two
 * inline cart handlers, which work on the cart-line table directly rather
 * than through the cart service. Add goes up by one with a stock ceiling;
 * update applies a signed change, deleting at zero and rejecting above stock.
 */
module HomePage {
  import opened Common
  import opened Models
  import opened Seqs
  import opened Store
  import opened Cart
  import opened CartService

  /** How a handler ended; every outcome redirects, and only some change the table. */
  datatype HomeOutcome =
    | LoginRedirect      // not authenticated: sent to the login page
    | NoUser             // authenticated, but the user record cannot be loaded
    | ProductMissing     // "Товар не найден"
    | OutOfStock         // "Товар отсутствует на складе"
    | Added              // a new line with quantity 1
    | Incremented        // the existing line went up by one
    | AtStockLimit       // "Недостаточно товара на складе"
    | NothingToUpdate    // update with no line and a change of 0 or less
    | Removed            // update brought the quantity to 0 or below
    | QuantitySet        // update set the new quantity

  /** The outcome and the cart-line table a handler leaves. */
  datatype HomeStep = HomeStep(outcome: HomeOutcome, lines: seq<CartLine>)

  /** The outcomes that change the table. */
  predicate Changes(o: HomeOutcome)
  {
    o == Added || o == Incremented || o == Removed || o == QuantitySet
  }

  /**
   * Every line whose product exists holds no more than its product's stock.
   * Lines of deleted products are not constrained.
   */
  predicate StockRespected(lines: seq<CartLine>, products: seq<Product>)
  {
    forall i :: 0 <= i < |lines| ==>
      FindProduct(products, lines[i].productId).Some? ==>
        lines[i].quantity <= FindProduct(products, lines[i].productId).value.stockQuantity
  }

  // ---------------------------------------------------------------------------
  // OnPostAddToCartAsync.
  // ---------------------------------------------------------------------------

  /**
   * The table after `OnPostAddToCartAsync(productId)`. `user` is the loaded
   * user's id, `None` when the user record cannot be loaded; `newId` is the
   * key a created line receives.
   */
  function HomeAdd(lines: seq<CartLine>, products: seq<Product>, authenticated: bool, user: Option<string>,
                   productId: int, newId: int, now: int): HomeStep
  {
    if !authenticated then HomeStep(LoginRedirect, lines)
    else if user.None? then HomeStep(NoUser, lines)
    else match FindProduct(products, productId)
      case None => HomeStep(ProductMissing, lines)
      case Some(p) =>
        if p.stockQuantity <= 0 then HomeStep(OutOfStock, lines)
        else match FindPair(lines, user.value, productId)
          case None => HomeStep(Added, lines + [CartLine(newId, user.value, productId, 1, now, None)])
          case Some(i) =>
            if lines[i].quantity >= p.stockQuantity then HomeStep(AtStockLimit, lines)
            else HomeStep(Incremented, lines[i := lines[i].(quantity := Wrap32(lines[i].quantity + 1), updatedAt := Some(now))])
  }

  /**
   * Add is turned away, with the table unchanged, when the request is not
   * authenticated, the user cannot be loaded, the product is missing or its
   * stock is 0 or less; the checks come in that order.
   */
  lemma HomeAddRejections(lines: seq<CartLine>, products: seq<Product>, authenticated: bool, user: Option<string>,
                          productId: int, newId: int, now: int)
    ensures var h := HomeAdd(lines, products, authenticated, user, productId, newId, now);
            && (!Changes(h.outcome) ==> h.lines == lines)
            && (!authenticated ==> h.outcome == LoginRedirect)
            && (authenticated && user.None? ==> h.outcome == NoUser)
            && (authenticated && user.Some? && FindProduct(products, productId).None? ==> h.outcome == ProductMissing)
            && ((authenticated && user.Some? && FindProduct(products, productId).Some?
                 && FindProduct(products, productId).value.stockQuantity <= 0) ==> h.outcome == OutOfStock)
            && (h.outcome == Added || h.outcome == Incremented || h.outcome == AtStockLimit <==>
                  authenticated && user.Some? && FindProduct(products, productId).Some?
                  && FindProduct(products, productId).value.stockQuantity > 0)
  {
  }

  /** With no line for the pair, add creates exactly one line for it, with quantity 1. */
  lemma HomeAddCreatesLine(lines: seq<CartLine>, products: seq<Product>, u: string, productId: int, newId: int, now: int)
    requires FindProduct(products, productId).Some? && FindProduct(products, productId).value.stockQuantity > 0
    requires PairLines(lines, u, productId) == []
    ensures var h := HomeAdd(lines, products, true, Some(u), productId, newId, now);
            && h.outcome == Added
            && h.lines == lines + [CartLine(newId, u, productId, 1, now, None)]
            && PairLines(h.lines, u, productId) == [CartLine(newId, u, productId, 1, now, None)]
  {
    FindPairIffHeld(lines, u, productId);
    PairLinesAfterAppend(lines, u, productId, CartLine(newId, u, productId, 1, now, None));
  }

  /**
   * On an existing line, add is rejected with the table unchanged when the
   * quantity has reached the stock; otherwise the quantity goes up by one
   * (exactly one when quantity and stock are `int` values, since the
   * quantity is then below the largest `int`), the update time is set and
   * every other line is kept.
   */
  lemma HomeAddIncrements(lines: seq<CartLine>, products: seq<Product>, u: string, productId: int, newId: int, now: int)
    requires FindProduct(products, productId).Some? && FindProduct(products, productId).value.stockQuantity > 0
    requires PairLines(lines, u, productId) != []
    ensures FindPair(lines, u, productId).Some?
    ensures var h := HomeAdd(lines, products, true, Some(u), productId, newId, now);
            var i := FindPair(lines, u, productId).value;
            var stock := FindProduct(products, productId).value.stockQuantity;
            && i < |lines| && lines[i].userId == u && lines[i].productId == productId
            && (lines[i].quantity >= stock ==> h.outcome == AtStockLimit && h.lines == lines)
            && (lines[i].quantity < stock ==>
                  && h.outcome == Incremented && |h.lines| == |lines|
                  && h.lines[i] == lines[i].(quantity := Wrap32(lines[i].quantity + 1), updatedAt := Some(now))
                  && (IsInt32(lines[i].quantity) && IsInt32(stock) ==> h.lines[i].quantity == lines[i].quantity + 1)
                  && (forall j :: 0 <= j < |lines| && j != i ==> h.lines[j] == lines[j]))
  {
    FindPairIffHeld(lines, u, productId);
  }

  /** The inline add never takes a line of the `int` column above its product's stock. */
  lemma HomeAddKeepsStockBound(lines: seq<CartLine>, products: seq<Product>, authenticated: bool, user: Option<string>,
                               productId: int, newId: int, now: int)
    requires StockRespected(lines, products) && IntQuantities(lines)
    ensures StockRespected(HomeAdd(lines, products, authenticated, user, productId, newId, now).lines, products)
  {
    var h := HomeAdd(lines, products, authenticated, user, productId, newId, now);
    if h.outcome == Added {
      var r := h.lines;
      forall k | 0 <= k < |r| && FindProduct(products, r[k].productId).Some?
        ensures r[k].quantity <= FindProduct(products, r[k].productId).value.stockQuantity
      {
        if k < |lines| {
          assert r[k] == lines[k];
        }
      }
    }
  }

  /**
   * The service's add of one differs from the inline add: where the inline
   * add creates a line the service creates the same line; where it increments,
   * the service increments too but leaves the update time alone; and where the
   * inline add stops at the stock, the service still adds.
   */
  lemma HomeAddVersusService(lines: seq<CartLine>, products: seq<Product>, u: string, productId: int, newId: int, now: int)
    requires u != ""
    ensures var h := HomeAdd(lines, products, true, Some(u), productId, newId, now);
            var s := ServiceAdd(lines, products, Some(u), productId, 1, newId, now);
            && (h.outcome == Added ==> s == Ok(h.lines))
            && (h.outcome == Incremented ==>
                  var i := FindPair(lines, u, productId).value;
                  i < |lines| && s == Ok(h.lines[i := h.lines[i].(updatedAt := lines[i].updatedAt)]))
            && (h.outcome == AtStockLimit ==> s.Ok? && s.value != lines)
  {
    var h := HomeAdd(lines, products, true, Some(u), productId, newId, now);
    if h.outcome == Incremented {
      var i := FindPair(lines, u, productId).value;
      assert h.lines[i := h.lines[i].(updatedAt := lines[i].updatedAt)]
          == lines[i := lines[i].(quantity := Wrap32(lines[i].quantity + 1))];
    }
    if h.outcome == AtStockLimit {
      var i := FindPair(lines, u, productId).value;
      var s := ServiceAdd(lines, products, Some(u), productId, 1, newId, now);
      assert s.value[i].quantity == Wrap32(lines[i].quantity + 1);
      assert s.value[i].quantity != lines[i].quantity;
    }
  }

  // ---------------------------------------------------------------------------
  // OnPostUpdateCartAsync.
  // ---------------------------------------------------------------------------

  /** The table after `OnPostUpdateCartAsync(productId, change)`. */
  function HomeUpdate(lines: seq<CartLine>, products: seq<Product>, authenticated: bool, user: Option<string>,
                      productId: int, change: int, newId: int, now: int): HomeStep
  {
    if !authenticated then HomeStep(LoginRedirect, lines)
    else if user.None? then HomeStep(NoUser, lines)
    else match FindProduct(products, productId)
      case None => HomeStep(ProductMissing, lines)
      case Some(p) =>
        match FindPair(lines, user.value, productId)
        case None =>
          if change > 0 then HomeStep(Added, lines + [CartLine(newId, user.value, productId, 1, now, None)])
          else HomeStep(NothingToUpdate, lines)
        case Some(i) =>
          var q := Wrap32(lines[i].quantity + change);
          if q <= 0 then HomeStep(Removed, lines[..i] + lines[i + 1..])
          else if q > p.stockQuantity then HomeStep(AtStockLimit, lines)
          else HomeStep(QuantitySet, lines[i := lines[i].(quantity := q, updatedAt := Some(now))])
  }

  /**
   * Update is turned away, with the table unchanged, when the request is not
   * authenticated, the user cannot be loaded or the product is missing.
   */
  lemma HomeUpdateRejections(lines: seq<CartLine>, products: seq<Product>, authenticated: bool, user: Option<string>,
                             productId: int, change: int, newId: int, now: int)
    ensures var h := HomeUpdate(lines, products, authenticated, user, productId, change, newId, now);
            && (!Changes(h.outcome) ==> h.lines == lines)
            && (!authenticated ==> h.outcome == LoginRedirect)
            && (authenticated && user.None? ==> h.outcome == NoUser)
            && (authenticated && user.Some? && FindProduct(products, productId).None? ==> h.outcome == ProductMissing)
            && (h.outcome != LoginRedirect && h.outcome != NoUser && h.outcome != ProductMissing <==>
                  authenticated && user.Some? && FindProduct(products, productId).Some?)
  {
  }

  /**
   * With no line for the pair, update creates a line of quantity 1 when the
   * change is positive, whatever its size, and does nothing otherwise.
   */
  lemma HomeUpdateWithoutLine(lines: seq<CartLine>, products: seq<Product>, u: string,
                              productId: int, change: int, newId: int, now: int)
    requires FindProduct(products, productId).Some?
    requires PairLines(lines, u, productId) == []
    ensures var h := HomeUpdate(lines, products, true, Some(u), productId, change, newId, now);
            && (change > 0 ==> h.outcome == Added && h.lines == lines + [CartLine(newId, u, productId, 1, now, None)])
            && (change <= 0 ==> h.outcome == NothingToUpdate && h.lines == lines)
  {
    FindPairIffHeld(lines, u, productId);
  }

  /**
   * On an existing line, with the new quantity the old one plus the change
   * as an unchecked `int` sum: 0 or less deletes the line, above the stock
   * is rejected with the table unchanged, and otherwise the line takes the
   * new quantity exactly.
   */
  lemma HomeUpdateExisting(lines: seq<CartLine>, products: seq<Product>, u: string,
                           productId: int, change: int, newId: int, now: int)
    requires FindProduct(products, productId).Some?
    requires PairLines(lines, u, productId) != []
    ensures FindPair(lines, u, productId).Some?
    ensures var h := HomeUpdate(lines, products, true, Some(u), productId, change, newId, now);
            var i := FindPair(lines, u, productId).value;
            var q := Wrap32(lines[i].quantity + change);
            var stock := FindProduct(products, productId).value.stockQuantity;
            && i < |lines| && lines[i].userId == u && lines[i].productId == productId
            && (q <= 0 ==> h.outcome == Removed && h.lines == lines[..i] + lines[i + 1..])
            && (0 < q && q > stock ==> h.outcome == AtStockLimit && h.lines == lines)
            && (0 < q <= stock ==>
                  && h.outcome == QuantitySet && |h.lines| == |lines|
                  && h.lines[i].quantity == q && h.lines[i].updatedAt == Some(now)
                  && (forall j :: 0 <= j < |lines| && j != i ==> h.lines[j] == lines[j]))
  {
    FindPairIffHeld(lines, u, productId);
  }

  /**
   * The new quantity wraps: a line of 2 with a stock of 5 and a change of
   * the largest `int` comes to a negative quantity, and the line is deleted
   * rather than rejected as above the stock.
   */
  lemma HomeUpdateWrapDeletes()
    ensures HomeUpdate([CartLine(1, "ann", 7, 2, 0, None)], [Product(7, "Lamp", None, 1500, None, 5, 1, 0)],
                       true, Some("ann"), 7, Int32Max, 2, 0) == HomeStep(Removed, [])
  {
    var p := Product(7, "Lamp", None, 1500, None, 5, 1, 0);
    var two := CartLine(1, "ann", 7, 2, 0, None);
    assert FindProduct([p], 7) == Some(p);
    assert FindPair([two], "ann", 7) == Some(0);
    assert Wrap32(2 + Int32Max) == Int32Min + 1;
    assert [two][..0] + [two][1..] == [];
  }

  /**
   * Update never takes an existing line above the stock, but the line it
   * creates is not checked against the stock: for a product with stock 0 or
   * less, a positive change leaves a line of quantity 1 above it.
   */
  lemma HomeUpdateCreatesPastStock(lines: seq<CartLine>, products: seq<Product>, u: string,
                                   productId: int, change: int, newId: int, now: int)
    requires StockRespected(lines, products)
    requires FindProduct(products, productId).Some? && FindProduct(products, productId).value.stockQuantity <= 0
    requires PairLines(lines, u, productId) == [] && change > 0
    ensures var h := HomeUpdate(lines, products, true, Some(u), productId, change, newId, now);
            h.outcome == Added && !StockRespected(h.lines, products)
  {
    FindPairIffHeld(lines, u, productId);
    var h := HomeUpdate(lines, products, true, Some(u), productId, change, newId, now);
    assert h.lines[|lines|] == CartLine(newId, u, productId, 1, now, None);
  }

  /** Apart from the line it creates, update keeps every line within its product's stock. */
  lemma HomeUpdateKeepsStockBound(lines: seq<CartLine>, products: seq<Product>, authenticated: bool, user: Option<string>,
                                  productId: int, change: int, newId: int, now: int)
    requires StockRespected(lines, products)
    ensures var h := HomeUpdate(lines, products, authenticated, user, productId, change, newId, now);
            h.outcome != Added ==> StockRespected(h.lines, products)
  {
    var h := HomeUpdate(lines, products, authenticated, user, productId, change, newId, now);
    if h.outcome == Removed {
      var i := FindPair(lines, user.value, productId).value;
      var r := h.lines;
      forall k | 0 <= k < |r| && FindProduct(products, r[k].productId).Some?
        ensures r[k].quantity <= FindProduct(products, r[k].productId).value.stockQuantity
      {
        assert r[k] == lines[if k < i then k else k + 1];
      }
    }
  }

  /** With a line for the pair, the home page's update as one expression over that line. */
  lemma HomeUpdateExistingValue(lines: seq<CartLine>, products: seq<Product>, u: string,
                                productId: int, change: int, newId: int, now: int)
    requires FindProduct(products, productId).Some?
    requires PairLines(lines, u, productId) != []
    ensures FindPair(lines, u, productId).Some?
    ensures var i := FindPair(lines, u, productId).value;
            var q := Wrap32(lines[i].quantity + change);
            var stock := FindProduct(products, productId).value.stockQuantity;
            && i < |lines| && lines[i].userId == u && lines[i].productId == productId
            && HomeUpdate(lines, products, true, Some(u), productId, change, newId, now)
               == if q <= 0 then HomeStep(Removed, lines[..i] + lines[i + 1..])
                  else if q > stock then HomeStep(AtStockLimit, lines)
                  else HomeStep(QuantitySet, lines[i := lines[i].(quantity := q, updatedAt := Some(now))])
  {
    FindPairIffHeld(lines, u, productId);
  }

  /**
   * With unique keys, the inline update of an existing line does what the
   * service's `UpdateQuantityAsync` does with that line's key and the new
   * quantity: the same deletion at 0 or less, the same rejection above the
   * stock, and the same line otherwise.
   */
  lemma HomeUpdateAgreesWithService(lines: seq<CartLine>, products: seq<Product>, u: string,
                                    productId: int, change: int, newId: int, now: int)
    requires IdsUnique(lines)
    requires FindProduct(products, productId).Some?
    requires PairLines(lines, u, productId) != []
    ensures FindPair(lines, u, productId).Some?
    ensures var h := HomeUpdate(lines, products, true, Some(u), productId, change, newId, now);
            var i := FindPair(lines, u, productId).value;
            var stock := FindProduct(products, productId).value.stockQuantity;
            i < |lines| &&
            var s := ServiceUpdate(lines, products, Some(u), lines[i].id, Wrap32(lines[i].quantity + change), now);
            && (h.outcome == AtStockLimit <==> s.Err?)
            && (s.Err? ==> s == Err(InsufficientStock(stock)))
            && (s.Ok? ==> s.value == h.lines)
  {
    FindPairIffHeld(lines, u, productId);
    var i := FindPair(lines, u, productId).value;
    HomeUpdateExistingValue(lines, products, u, productId, change, newId, now);
    ServiceUpdateOwnedValue(lines, products, i, Wrap32(lines[i].quantity + change), now);
    var q := Wrap32(lines[i].quantity + change);
    var stock := FindProduct(products, productId).value.stockQuantity;
    var h := HomeUpdate(lines, products, true, Some(u), productId, change, newId, now);
    var s := ServiceUpdate(lines, products, Some(u), lines[i].id, q, now);
    if q <= 0 {
      assert h == HomeStep(Removed, lines[..i] + lines[i + 1..]) && s == Ok(lines[..i] + lines[i + 1..]);
    } else if q > stock {
      assert h == HomeStep(AtStockLimit, lines) && s == Err(InsufficientStock(stock));
    } else {
      var l := lines[i].(quantity := q, updatedAt := Some(now));
      assert h == HomeStep(QuantitySet, lines[i := l]) && s == Ok(lines[i := l]);
    }
  }

  // ---------------------------------------------------------------------------
  // OnGetAsync: the newest twelve products and the user's cart lines.
  // ---------------------------------------------------------------------------

  const HomeProductCount: nat := 12

  /** The newest products first, at most `n` of them. */
  function Newest(products: seq<Product>, n: nat): seq<Product>
  {
    Take(SortBy(products, NewerOrSame), n)
  }

  /**
   * `Newest` keeps at most `n` products of the table, newest first; it keeps
   * `n` of them when the table has that many, and every product it leaves
   * out is no newer than any it keeps.
   */
  lemma NewestChoosesNewest(products: seq<Product>, n: nat)
    ensures var r := Newest(products, n);
            && |r| == (if |products| < n then |products| else n)
            && SortedBy(r, NewerOrSame)
            && multiset(r) <= multiset(products)
            && (forall p, q :: p in products && multiset(r)[p] < multiset(products)[p] && q in r ==>
                  q.createdDate >= p.createdDate)
  {
    var sorted := SortBy(products, NewerOrSame);
    NewerOrSameIsTotalPreorder();
    SortBySorted(products, NewerOrSame);
    TakeOfSorted(sorted, n, NewerOrSame);
  }

  /** What `OnGetAsync` puts on the page. */
  datatype HomeView = HomeView(isAuthenticated: bool, products: seq<Product>, cartItems: seq<CartLine>)

  /**
   * `OnGetAsync`: for an anonymous visitor nothing is loaded; otherwise the
   * newest twelve products, and the user's lines when the user record loads.
   */
  function HomeIndex(products: seq<Product>, lines: seq<CartLine>, authenticated: bool, user: Option<string>): HomeView
  {
    if !authenticated then HomeView(false, [], [])
    else HomeView(true, Newest(products, HomeProductCount), if user.Some? then UserLines(lines, user.value) else [])
  }

  /**
   * The page shows at most twelve products, newest first, all of them from
   * the table; and its cart list holds exactly the user's own lines.
   */
  lemma HomeIndexShowsOwnCart(products: seq<Product>, lines: seq<CartLine>, authenticated: bool, user: Option<string>)
    ensures var v := HomeIndex(products, lines, authenticated, user);
            && v.isAuthenticated == authenticated
            && |v.products| <= 12
            && SortedBy(v.products, NewerOrSame)
            && multiset(v.products) <= multiset(products)
            && (!authenticated ==> v.products == [] && v.cartItems == [])
            && (authenticated ==> v.products == Newest(products, 12))
            && (forall i :: 0 <= i < |v.cartItems| ==> user == Some(v.cartItems[i].userId))
            && (authenticated && user.Some? ==>
                  forall l :: multiset(v.cartItems)[l] == if l.userId == user.value then multiset(lines)[l] else 0)
            && (user.None? ==> v.cartItems == [])
  {
    NewestChoosesNewest(products, HomeProductCount);
    if user.Some? {
      FilterCounts(lines, (l: CartLine) => l.userId == user.value);
    }
  }

  // ---------------------------------------------------------------------------
  // The page object.
  // ---------------------------------------------------------------------------

  class IndexModel {
    const context: ShopDb

    constructor (context: ShopDb)
      ensures this.context == context
    {
      this.context := context;
    }

    /** `OnPostAddToCartAsync`: the table afterwards is `HomeAdd` of the table before. */
    method OnPostAddToCart(authenticated: bool, user: Option<string>, productId: int, now: int)
      returns (outcome: HomeOutcome)
      requires context.Valid()
      modifies context`cartItems, context`nextCartItemId
      ensures context.Valid()
      ensures var h := HomeAdd(old(context.cartItems), context.products, authenticated, user, productId,
                               old(context.nextCartItemId), now);
              outcome == h.outcome && context.cartItems == h.lines
      ensures context.nextCartItemId == old(context.nextCartItemId) + (if outcome == Added then 1 else 0)
    {
      if !authenticated {
        return LoginRedirect;
      }
      if user.None? {
        return NoUser;
      }
      var product := FindProduct(context.products, productId);
      if product.None? {
        return ProductMissing;
      }
      if product.value.stockQuantity <= 0 {
        return OutOfStock;
      }
      var found := FindPair(context.cartItems, user.value, productId);
      if found.None? {
        var line := CartLine(context.nextCartItemId, user.value, productId, 1, now, None);
        AppendFreshKey(context.cartItems, context.nextCartItemId, line);
        context.cartItems := context.cartItems + [line];
        context.nextCartItemId := context.nextCartItemId + 1;
        return Added;
      }
      var i := found.value;
      if context.cartItems[i].quantity >= product.value.stockQuantity {
        return AtStockLimit;
      }
      var line := context.cartItems[i].(quantity := Wrap32(context.cartItems[i].quantity + 1), updatedAt := Some(now));
      ReplaceKeepsKeys(context.cartItems, context.nextCartItemId, i, line);
      context.cartItems := context.cartItems[i := line];
      return Incremented;
    }

    /** `OnPostUpdateCartAsync`: the table afterwards is `HomeUpdate` of the table before. */
    method OnPostUpdateCart(authenticated: bool, user: Option<string>, productId: int, change: int, now: int)
      returns (outcome: HomeOutcome)
      requires context.Valid()
      modifies context`cartItems, context`nextCartItemId
      ensures context.Valid()
      ensures var h := HomeUpdate(old(context.cartItems), context.products, authenticated, user, productId, change,
                                  old(context.nextCartItemId), now);
              outcome == h.outcome && context.cartItems == h.lines
      ensures context.nextCartItemId == old(context.nextCartItemId) + (if outcome == Added then 1 else 0)
    {
      ghost var h := HomeUpdate(context.cartItems, context.products, authenticated, user, productId, change,
                                context.nextCartItemId, now);
      if !authenticated {
        return LoginRedirect;
      }
      if user.None? {
        return NoUser;
      }
      var product := FindProduct(context.products, productId);
      if product.None? {
        return ProductMissing;
      }
      var found := FindPair(context.cartItems, user.value, productId);
      if found.None? {
        if change > 0 {
          var line := CartLine(context.nextCartItemId, user.value, productId, 1, now, None);
          assert h == HomeStep(Added, context.cartItems + [line]);
          AppendFreshKey(context.cartItems, context.nextCartItemId, line);
          context.cartItems := context.cartItems + [line];
          context.nextCartItemId := context.nextCartItemId + 1;
          return Added;
        }
        return NothingToUpdate;
      }
      var i := found.value;
      var newQuantity := Wrap32(context.cartItems[i].quantity + change);
      if newQuantity <= 0 {
        assert h == HomeStep(Removed, context.cartItems[..i] + context.cartItems[i + 1..]);
        RemoveKeepsKeys(context.cartItems, context.nextCartItemId, i);
        context.cartItems := context.cartItems[..i] + context.cartItems[i + 1..];
        return Removed;
      } else if newQuantity > product.value.stockQuantity {
        return AtStockLimit;
      }
      var line := context.cartItems[i].(quantity := newQuantity, updatedAt := Some(now));
      assert h == HomeStep(QuantitySet, context.cartItems[i := line]);
      ReplaceKeepsKeys(context.cartItems, context.nextCartItemId, i, line);
      context.cartItems := context.cartItems[i := line];
      return QuantitySet;
    }
  }
}
