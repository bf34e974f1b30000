/**
 * Queries over the cart-line table: a user's lines, the line for a
 * (user, product) pair, the item count, and the cart view model with its
 * totals.
 */
module Cart {
  import opened Common
  import opened Models
  import opened Seqs
  import opened Store

  // ---------------------------------------------------------------------------
  // Lookups.
  // ---------------------------------------------------------------------------

  /** `CartItems.Where(ci => ci.UserId == u)`. */
  function UserLines(lines: seq<CartLine>, u: string): seq<CartLine>
  {
    Filter(lines, (l: CartLine) => l.userId == u)
  }

  /** All lines of user `u` for product `p`. */
  function PairLines(lines: seq<CartLine>, u: string, p: int): seq<CartLine>
  {
    Filter(lines, (l: CartLine) => l.userId == u && l.productId == p)
  }

  /** `FirstOrDefault(ci => ci.UserId == u && ci.ProductId == p)`, as an index. */
  function FindPair(lines: seq<CartLine>, u: string, p: int): Option<nat>
  {
    FirstIndex(lines, (l: CartLine) => l.userId == u && l.productId == p)
  }

  /**
   * `GetCartItemByIdAsync`: `FirstOrDefault(ci => ci.Id == id && ci.UserId == userId)`,
   * as an index. A null user id matches no line.
   */
  function FindOwned(lines: seq<CartLine>, userId: Option<string>, id: int): (r: Option<nat>)
    ensures r.Some? ==> r.value < |lines| && lines[r.value].id == id && userId == Some(lines[r.value].userId)
    ensures r.None? ==> forall j :: 0 <= j < |lines| ==> !(lines[j].id == id && userId == Some(lines[j].userId))
  {
    FirstIndex(lines, (l: CartLine) => l.id == id && userId == Some(l.userId))
  }

  /** The pair lookup finds a line exactly when the user holds that product. */
  lemma {:induction false} FindPairIffHeld(lines: seq<CartLine>, u: string, p: int)
    ensures FindPair(lines, u, p).None? <==> PairLines(lines, u, p) == []
    ensures FindPair(lines, u, p).Some? ==>
              var i := FindPair(lines, u, p).value;
              i < |lines| && lines[i].userId == u && lines[i].productId == p
  {
    FirstIndexNoneIffFilterEmpty(lines, (l: CartLine) => l.userId == u && l.productId == p);
  }

  /** At most one line per (user, product) pair. */
  predicate PairsUnique(lines: seq<CartLine>)
  {
    forall i, j :: 0 <= i < j < |lines| ==>
      !(lines[i].userId == lines[j].userId && lines[i].productId == lines[j].productId)
  }

  /** Every quantity fits the `int` column it is stored in. */
  predicate IntQuantities(lines: seq<CartLine>)
  {
    forall i :: 0 <= i < |lines| ==> IsInt32(lines[i].quantity)
  }

  /** With unique keys, the key-and-owner lookup finds the only line with that key. */
  lemma FindOwnedUnique(lines: seq<CartLine>, i: nat)
    requires IdsUnique(lines) && i < |lines|
    ensures FindOwned(lines, Some(lines[i].userId), lines[i].id) == Some(i)
  {
  }

  // ---------------------------------------------------------------------------
  // Item count (`GetCartItemCountAsync`).
  // ---------------------------------------------------------------------------

  function SumQuantities(lines: seq<CartLine>): int
  {
    if lines == [] then 0 else lines[0].quantity + SumQuantities(lines[1..])
  }

  /** `CartItems.Where(ci => ci.UserId == u).Sum(ci => ci.Quantity)`. */
  function ItemCount(lines: seq<CartLine>, u: string): int
  {
    SumQuantities(UserLines(lines, u))
  }

  /** What one line adds to user `u`'s count. */
  function Share(l: CartLine, u: string): int
  {
    if l.userId == u then l.quantity else 0
  }

  lemma {:induction false} SumQuantitiesAppend(a: seq<CartLine>, b: seq<CartLine>)
    ensures SumQuantities(a + b) == SumQuantities(a) + SumQuantities(b)
  {
    if a == [] {
      assert a + b == b;
    } else {
      assert (a + b)[1..] == a[1..] + b;
      SumQuantitiesAppend(a[1..], b);
    }
  }

  /** The count of a concatenation of tables is the sum of their counts. */
  lemma ItemCountAppend(a: seq<CartLine>, b: seq<CartLine>, u: string)
    ensures ItemCount(a + b, u) == ItemCount(a, u) + ItemCount(b, u)
  {
    FilterAppend(a, b, (l: CartLine) => l.userId == u);
    SumQuantitiesAppend(UserLines(a, u), UserLines(b, u));
  }

  lemma ItemCountSingle(l: CartLine, u: string)
    ensures ItemCount([l], u) == Share(l, u)
  {
    assert [l][1..] == [];
    assert UserLines([l], u) == if l.userId == u then [l] else [];
    assert SumQuantities([l]) == l.quantity + SumQuantities([]);
  }

  /** The count adds up the user's own lines and nothing else. */
  lemma {:induction false} ItemCountIsSumOfShares(lines: seq<CartLine>, u: string)
    ensures lines == [] ==> ItemCount(lines, u) == 0
    ensures lines != [] ==> ItemCount(lines, u) == Share(lines[0], u) + ItemCount(lines[1..], u)
  {
    if lines != [] {
      assert lines == [lines[0]] + lines[1..];
      ItemCountAppend([lines[0]], lines[1..], u);
      ItemCountSingle(lines[0], u);
    }
  }

  /** A user who holds no line has count 0, whatever other users hold. */
  lemma {:induction false} ItemCountWithoutLines(lines: seq<CartLine>, u: string)
    requires forall i :: 0 <= i < |lines| ==> lines[i].userId != u
    ensures ItemCount(lines, u) == 0
  {
    if lines != [] {
      ItemCountIsSumOfShares(lines, u);
      ItemCountWithoutLines(lines[1..], u);
    }
  }

  /** Replacing line `i` changes `u`'s count by the difference of the two lines' shares. */
  lemma ItemCountReplace(lines: seq<CartLine>, i: nat, l: CartLine, u: string)
    requires i < |lines|
    ensures ItemCount(lines[i := l], u) == ItemCount(lines, u) - Share(lines[i], u) + Share(l, u)
  {
    assert lines == lines[..i] + [lines[i]] + lines[i + 1..];
    assert lines[i := l] == lines[..i] + [l] + lines[i + 1..];
    ItemCountAppend(lines[..i] + [lines[i]], lines[i + 1..], u);
    ItemCountAppend(lines[..i], [lines[i]], u);
    ItemCountAppend(lines[..i] + [l], lines[i + 1..], u);
    ItemCountAppend(lines[..i], [l], u);
    ItemCountSingle(lines[i], u);
    ItemCountSingle(l, u);
  }

  /** Removing line `i` takes its share off `u`'s count. */
  lemma ItemCountRemove(lines: seq<CartLine>, i: nat, u: string)
    requires i < |lines|
    ensures ItemCount(lines[..i] + lines[i + 1..], u) == ItemCount(lines, u) - Share(lines[i], u)
  {
    assert lines == lines[..i] + [lines[i]] + lines[i + 1..];
    ItemCountAppend(lines[..i] + [lines[i]], lines[i + 1..], u);
    ItemCountAppend(lines[..i], [lines[i]], u);
    ItemCountAppend(lines[..i], lines[i + 1..], u);
    ItemCountSingle(lines[i], u);
  }

  /** Appending a line adds its share to every user's count. */
  lemma CountsAfterAppend(lines: seq<CartLine>, l: CartLine)
    ensures forall v :: ItemCount(lines + [l], v) == ItemCount(lines, v) + Share(l, v)
  {
    forall v ensures ItemCount(lines + [l], v) == ItemCount(lines, v) + Share(l, v) {
      ItemCountAppend(lines, [l], v);
      ItemCountSingle(l, v);
    }
  }

  /** Replacing a line moves every user's count by the difference of the shares. */
  lemma CountsAfterReplace(lines: seq<CartLine>, i: nat, l: CartLine)
    requires i < |lines|
    ensures forall v :: ItemCount(lines[i := l], v) == ItemCount(lines, v) - Share(lines[i], v) + Share(l, v)
  {
    forall v ensures ItemCount(lines[i := l], v) == ItemCount(lines, v) - Share(lines[i], v) + Share(l, v) {
      ItemCountReplace(lines, i, l, v);
    }
  }

  /** Removing a line takes its share off every user's count. */
  lemma CountsAfterRemove(lines: seq<CartLine>, i: nat)
    requires i < |lines|
    ensures forall v :: ItemCount(lines[..i] + lines[i + 1..], v) == ItemCount(lines, v) - Share(lines[i], v)
  {
    forall v ensures ItemCount(lines[..i] + lines[i + 1..], v) == ItemCount(lines, v) - Share(lines[i], v) {
      ItemCountRemove(lines, i, v);
    }
  }

  /** Appending a line for the pair to a table without one leaves exactly that line for the pair. */
  lemma PairLinesAfterAppend(lines: seq<CartLine>, u: string, p: int, l: CartLine)
    requires PairLines(lines, u, p) == [] && l.userId == u && l.productId == p
    ensures PairLines(lines + [l], u, p) == [l]
  {
    FilterAppend(lines, [l], (x: CartLine) => x.userId == u && x.productId == p);
    FilterSingle(l, (x: CartLine) => x.userId == u && x.productId == p);
  }

  /** Replacing a line by one for the same pair keeps the number of lines for every pair. */
  lemma PairLinesAfterReplace(lines: seq<CartLine>, i: nat, l: CartLine, u: string, p: int)
    requires i < |lines| && l.userId == lines[i].userId && l.productId == lines[i].productId
    ensures |PairLines(lines[i := l], u, p)| == |PairLines(lines, u, p)|
  {
    FilterReplace(lines, i, l, (x: CartLine) => x.userId == u && x.productId == p);
  }

  // ---------------------------------------------------------------------------
  // The cart view model (`GetCartViewModelAsync`, `CartViewModel.Total`,
  // `CartItemViewModel.Total`).
  // ---------------------------------------------------------------------------

  const UnknownProductName: string := "Unknown Product"

  datatype ProductView = ProductView(id: int, name: string, price: int, imageUrl: Option<string>, stockQuantity: int)

  datatype CartItemView = CartItemView(
    id: int,
    productId: int,
    productName: string,
    imageUrl: string,
    price: int,
    quantity: int,
    stockQuantity: int,
    product: Option<ProductView>)

  /** One row of the view: the line joined with its product, with the `??` fallbacks. */
  function ItemView(l: CartLine, products: seq<Product>): CartItemView
  {
    match FindProduct(products, l.productId)
    case None =>
      CartItemView(l.id, l.productId, UnknownProductName, PlaceholderImage, 0, l.quantity, 0, None)
    case Some(p) =>
      CartItemView(l.id, l.productId, p.name, if p.imageUrl.Some? then p.imageUrl.value else PlaceholderImage,
                   p.price, l.quantity, p.stockQuantity,
                   Some(ProductView(p.id, p.name, p.price, p.imageUrl, p.stockQuantity)))
  }

  /** `Select(ItemView)` over a list of lines. */
  function Views(own: seq<CartLine>, products: seq<Product>): (r: seq<CartItemView>)
    ensures |r| == |own|
    ensures forall i :: 0 <= i < |own| ==> r[i] == ItemView(own[i], products)
  {
    if own == [] then [] else [ItemView(own[0], products)] + Views(own[1..], products)
  }

  lemma {:induction false} ViewsAppend(a: seq<CartLine>, b: seq<CartLine>, products: seq<Product>)
    ensures Views(a + b, products) == Views(a, products) + Views(b, products)
  {
    if a == [] {
      assert a + b == b;
    } else {
      assert (a + b)[1..] == a[1..] + b;
      ViewsAppend(a[1..], b, products);
    }
  }

  /** The rows of user `u`'s cart, one per line, in table order. */
  function CartView(lines: seq<CartLine>, products: seq<Product>, u: string): seq<CartItemView>
  {
    Views(UserLines(lines, u), products)
  }

  /** `CartItemViewModel.Total`: price times quantity. */
  function LineTotal(v: CartItemView): int
  {
    v.price * v.quantity
  }

  /** `CartViewModel.Total`: the sum of the row totals. */
  function CartTotal(rows: seq<CartItemView>): int
  {
    if rows == [] then 0 else LineTotal(rows[0]) + CartTotal(rows[1..])
  }

  /**
   * Reference definition of the total: price times quantity summed over the
   * lines of `u` whose product still exists. Lines of missing products are
   * skipped.
   */
  function ResolvedTotal(lines: seq<CartLine>, products: seq<Product>, u: string): int
  {
    if lines == [] then 0
    else
      var l := lines[0];
      var here := if l.userId == u && FindProduct(products, l.productId).Some?
                  then FindProduct(products, l.productId).value.price * l.quantity else 0;
      here + ResolvedTotal(lines[1..], products, u)
  }

  /**
   * The view has one row per line of the user, carrying the line's key,
   * product key and quantity; a row whose product is missing shows the
   * fallback name, price, image and stock and no product, and a row whose
   * product has no image shows the fallback image.
   */
  lemma CartViewRows(lines: seq<CartLine>, products: seq<Product>, u: string)
    ensures |CartView(lines, products, u)| == |UserLines(lines, u)|
    ensures forall i :: 0 <= i < |CartView(lines, products, u)| ==>
              var v := CartView(lines, products, u)[i];
              var l := UserLines(lines, u)[i];
              && v.id == l.id && v.productId == l.productId && v.quantity == l.quantity
              && l.userId == u
              && (FindProduct(products, l.productId).None? ==>
                    v.productName == "Unknown Product" && v.price == 0 && v.imageUrl == "/images/placeholder.jpg"
                    && v.stockQuantity == 0 && v.product.None? && LineTotal(v) == 0)
              && (FindProduct(products, l.productId).Some? ==>
                    var p := FindProduct(products, l.productId).value;
                    v.productName == p.name && v.price == p.price && v.stockQuantity == p.stockQuantity
                    && v.imageUrl == (if p.imageUrl.Some? then p.imageUrl.value else "/images/placeholder.jpg")
                    && v.product == Some(ProductView(p.id, p.name, p.price, p.imageUrl, p.stockQuantity))
                    && LineTotal(v) == p.price * l.quantity)
  {
  }

  lemma CartTotalAppend(a: seq<CartItemView>, b: seq<CartItemView>)
    ensures CartTotal(a + b) == CartTotal(a) + CartTotal(b)
  {
    if a == [] {
      assert a + b == b;
    } else {
      assert (a + b)[1..] == a[1..] + b;
      CartTotalAppend(a[1..], b);
    }
  }

  lemma CartViewCons(lines: seq<CartLine>, products: seq<Product>, u: string)
    requires lines != []
    ensures CartView(lines, products, u) ==
            (if lines[0].userId == u then [ItemView(lines[0], products)] else []) + CartView(lines[1..], products, u)
  {
    assert lines == [lines[0]] + lines[1..];
    FilterAppend([lines[0]], lines[1..], (l: CartLine) => l.userId == u);
    assert [lines[0]][1..] == [];
    assert UserLines([lines[0]], u) == if lines[0].userId == u then [lines[0]] else [];
    ViewsAppend(UserLines([lines[0]], u), UserLines(lines[1..], u), products);
  }

  /**
   * The cart total equals the reference total: lines whose product was
   * deleted contribute 0, every other line of the user contributes price
   * times quantity.
   */
  lemma {:induction false} CartTotalIsResolvedTotal(lines: seq<CartLine>, products: seq<Product>, u: string)
    ensures CartTotal(CartView(lines, products, u)) == ResolvedTotal(lines, products, u)
  {
    if lines == [] {
    } else {
      CartViewCons(lines, products, u);
      var head := if lines[0].userId == u then [ItemView(lines[0], products)] else [];
      CartTotalAppend(head, CartView(lines[1..], products, u));
      CartTotalIsResolvedTotal(lines[1..], products, u);
      if lines[0].userId == u {
        assert head[1..] == [];
      }
    }
  }
}
