/**
 * The catalog page: the category list, the product query (category filter,
 * case-insensitive search on name or description, newest first) and the
 * add-to-cart handler, which checks the product and its stock before handing
 * over to the cart service with a quantity of one.
 */
module CatalogPage {
  import opened Common
  import opened Models
  import opened Seqs
  import opened Store
  import opened Cart
  import opened CartService

  // ---------------------------------------------------------------------------
  // OnGetAsync.
  // ---------------------------------------------------------------------------

  /** `OrderBy(c => c.Name)`, with names compared ordinally. */
  predicate NameOrder(a: Category, b: Category)
  {
    LexLe(a.name, b.name)
  }

  lemma NameOrderIsTotalPreorder()
    ensures TotalPreorder(NameOrder)
  {
    forall a: Category, b: Category ensures NameOrder(a, b) || NameOrder(b, a) {
      LexLeTotal(a.name, b.name);
    }
    forall a: Category, b: Category, c: Category | NameOrder(a, b) && NameOrder(b, c) ensures NameOrder(a, c) {
      LexLeTransitive(a.name, b.name, c.name);
    }
  }

  /** The categories of the filter list, by name. */
  function SortedCategories(categories: seq<Category>): seq<Category>
  {
    SortBy(categories, NameOrder)
  }

  /** The filter list holds every category, each as often as in the table, ordered by name. */
  lemma SortedCategoriesOrdered(categories: seq<Category>)
    ensures multiset(SortedCategories(categories)) == multiset(categories)
    ensures forall i, j :: 0 <= i < j < |SortedCategories(categories)| ==>
              LexLe(SortedCategories(categories)[i].name, SortedCategories(categories)[j].name)
  {
    NameOrderIsTotalPreorder();
    SortBySorted(categories, NameOrder);
  }

  /**
   * The search test: the lower-cased name contains `term`, or the
   * description is present and its lower-cased form contains `term`.
   */
  predicate MatchesSearch(p: Product, term: string)
  {
    Contains(Lower(p.name), term) || (p.description.Some? && Contains(Lower(p.description.value), term))
  }

  /** The category filter; `None` stands for no category chosen. */
  function ByCategory(products: seq<Product>, categoryId: Option<int>): seq<Product>
  {
    if categoryId.Some? then Filter(products, (p: Product) => p.categoryId == categoryId.value) else products
  }

  /** The search filter; a null or empty search string applies none. */
  function BySearch(products: seq<Product>, search: Option<string>): seq<Product>
  {
    if IsNullOrEmpty(search) then products
    else Filter(products, (p: Product) => MatchesSearch(p, Lower(search.value)))
  }

  /** The product list of `OnGetAsync`: filter by category, then by search, then newest first. */
  function CatalogProducts(products: seq<Product>, categoryId: Option<int>, search: Option<string>): seq<Product>
  {
    SortBy(BySearch(ByCategory(products, categoryId), search), NewerOrSame)
  }

  /** Reference definition of which products the catalog selects. */
  predicate Selected(p: Product, categoryId: Option<int>, search: Option<string>)
  {
    && (categoryId.None? || p.categoryId == categoryId.value)
    && (IsNullOrEmpty(search) || MatchesSearch(p, Lower(search.value)))
  }

  /**
   * The catalog lists exactly the selected products of the table, each as
   * often as it occurs there, newest first; without a category and a search
   * it lists the whole table.
   */
  lemma CatalogSelectsExactly(products: seq<Product>, categoryId: Option<int>, search: Option<string>)
    ensures var r := CatalogProducts(products, categoryId, search);
            && (forall p :: multiset(r)[p] == if Selected(p, categoryId, search) then multiset(products)[p] else 0)
            && SortedBy(r, NewerOrSame)
            && (categoryId.None? && IsNullOrEmpty(search) ==> multiset(r) == multiset(products))
  {
    NewerOrSameIsTotalPreorder();
    SortBySorted(BySearch(ByCategory(products, categoryId), search), NewerOrSame);
    if categoryId.Some? {
      FilterCounts(products, (p: Product) => p.categoryId == categoryId.value);
    }
    if !IsNullOrEmpty(search) {
      FilterCounts(ByCategory(products, categoryId), (p: Product) => MatchesSearch(p, Lower(search.value)));
    }
  }

  /** Every listed product has the chosen category and matches the search. */
  lemma CatalogResultsMatch(products: seq<Product>, categoryId: Option<int>, search: Option<string>)
    ensures var r := CatalogProducts(products, categoryId, search);
            forall p :: p in r ==> p in products && Selected(p, categoryId, search)
  {
    var r := CatalogProducts(products, categoryId, search);
    CatalogSelectsExactly(products, categoryId, search);
    forall p | p in r ensures p in products && Selected(p, categoryId, search) {
      assert multiset(r)[p] > 0;
    }
  }

  /**
   * The search ignores case: a product whose name contains the search
   * string as written is listed whatever the case of either, and a search
   * string and its upper-case form list the same products.
   */
  lemma SearchIgnoresCase(products: seq<Product>, categoryId: Option<int>, search: string, p: Product)
    requires search != ""
    ensures p in ByCategory(products, categoryId) && Contains(p.name, search) ==>
              p in CatalogProducts(products, categoryId, Some(search))
    ensures CatalogProducts(products, categoryId, Some(Upper(search))) == CatalogProducts(products, categoryId, Some(search))
  {
    LowerForgetsCase(search);
    if p in ByCategory(products, categoryId) && Contains(p.name, search) {
      LowerKeepsContains(p.name, search);
      CatalogSelectsExactly(products, categoryId, Some(search));
      var r := CatalogProducts(products, categoryId, Some(search));
      assert p in multiset(products) by {
        if categoryId.Some? {
          FilterCounts(products, (p: Product) => p.categoryId == categoryId.value);
          assert multiset(ByCategory(products, categoryId))[p] > 0;
        }
      }
      assert multiset(r)[p] > 0;
    }
  }

  /** What `OnGetAsync` puts on the page. */
  datatype CatalogView = CatalogView(categories: seq<Category>, products: seq<Product>)

  function CatalogIndex(categories: seq<Category>, products: seq<Product>, categoryId: Option<int>,
                        search: Option<string>): CatalogView
  {
    CatalogView(SortedCategories(categories), CatalogProducts(products, categoryId, search))
  }

  /**
   * The page lists every category once per row of the table, by name, and
   * exactly the selected products, newest first.
   */
  lemma CatalogIndexLists(categories: seq<Category>, products: seq<Product>, categoryId: Option<int>,
                          search: Option<string>)
    ensures var v := CatalogIndex(categories, products, categoryId, search);
            && multiset(v.categories) == multiset(categories)
            && (forall i, j :: 0 <= i < j < |v.categories| ==> LexLe(v.categories[i].name, v.categories[j].name))
            && (forall p :: multiset(v.products)[p] == if Selected(p, categoryId, search) then multiset(products)[p] else 0)
            && SortedBy(v.products, NewerOrSame)
  {
    SortedCategoriesOrdered(categories);
    CatalogSelectsExactly(products, categoryId, search);
  }

  // ---------------------------------------------------------------------------
  // OnPostAddToCartAsync.
  // ---------------------------------------------------------------------------

  /** How the handler ended. */
  datatype CatalogOutcome =
    | NotFound              // "Товар не найден"
    | SoldOut               // "Товар отсутствует на складе"
    | AddedToCart           // the service call returned
    | Failed(e: CartError)  // the service threw; the exception is caught and reported

  datatype CatalogStep = CatalogStep(outcome: CatalogOutcome, lines: seq<CartLine>)

  /**
   * The table after the catalog's add-to-cart: a missing product or one with
   * stock 0 or less stops the handler; otherwise the service adds one.
   */
  function CatalogAdd(lines: seq<CartLine>, products: seq<Product>, userId: Option<string>,
                      productId: int, newId: int, now: int): CatalogStep
  {
    match FindProduct(products, productId)
    case None => CatalogStep(NotFound, lines)
    case Some(p) =>
      if p.stockQuantity <= 0 then CatalogStep(SoldOut, lines)
      else match ServiceAdd(lines, products, userId, productId, 1, newId, now)
        case Ok(r) => CatalogStep(AddedToCart, r)
        case Err(e) => CatalogStep(Failed(e), lines)
  }

  /**
   * The guard stops a missing or sold-out product before the service is
   * reached, whoever asks (an anonymous visitor too), and leaves the table
   * alone; past the guard the handler does what the service does with a
   * quantity of exactly one, and the only failure left is a missing user.
   */
  lemma CatalogAddGuard(lines: seq<CartLine>, products: seq<Product>, userId: Option<string>,
                        productId: int, newId: int, now: int)
    ensures var c := CatalogAdd(lines, products, userId, productId, newId, now);
            var p := FindProduct(products, productId);
            && (p.None? ==> c == CatalogStep(NotFound, lines))
            && (p.Some? && p.value.stockQuantity <= 0 ==> c == CatalogStep(SoldOut, lines))
            && (p.Some? && p.value.stockQuantity > 0 ==>
                  var s := ServiceAdd(lines, products, userId, productId, 1, newId, now);
                  && (s.Ok? ==> c == CatalogStep(AddedToCart, s.value))
                  && (s.Err? ==> c == CatalogStep(Failed(Unauthorized), lines) && IsNullOrEmpty(userId)))
  {
  }

  /**
   * The guard looks at the stock only, not at what the cart already holds:
   * a line already at the stock grows past it (unless it holds the largest
   * `int`, where the sum wraps).
   */
  lemma CatalogAddPassesStock(lines: seq<CartLine>, products: seq<Product>, u: string,
                              productId: int, newId: int, now: int)
    requires u != ""
    requires FindProduct(products, productId).Some? && FindProduct(products, productId).value.stockQuantity > 0
    requires PairLines(lines, u, productId) != []
    ensures FindPair(lines, u, productId).Some?
    ensures var c := CatalogAdd(lines, products, Some(u), productId, newId, now);
            var i := FindPair(lines, u, productId).value;
            var stock := FindProduct(products, productId).value.stockQuantity;
            && c.outcome == AddedToCart && i < |lines|
            && c.lines[i].quantity == Wrap32(lines[i].quantity + 1)
            && (stock <= lines[i].quantity < Int32Max ==> c.lines[i].quantity > stock)
  {
    AddIncrementsExisting(lines, products, u, productId, 1, newId, now);
  }

  class CatalogModel {
    const context: ShopDb
    const cartService: CartService

    constructor (context: ShopDb, cartService: CartService)
      requires cartService.context == context
      ensures this.context == context && this.cartService == cartService
    {
      this.context := context;
      this.cartService := cartService;
    }

    /** `OnPostAddToCartAsync`: the table afterwards is `CatalogAdd` of the table before. */
    method OnPostAddToCart(userId: Option<string>, productId: int, now: int) returns (outcome: CatalogOutcome)
      requires context.Valid() && cartService.context == context
      modifies context`cartItems, context`nextCartItemId
      ensures context.Valid()
      ensures var c := CatalogAdd(old(context.cartItems), context.products, userId, productId,
                                  old(context.nextCartItemId), now);
              outcome == c.outcome && context.cartItems == c.lines
      ensures context.nextCartItemId == old(context.nextCartItemId) + |context.cartItems| - |old(context.cartItems)|
      ensures outcome != AddedToCart ==> unchanged(context)
    {
      var product := FindProduct(context.products, productId);
      if product.None? {
        return NotFound;
      }
      if product.value.stockQuantity <= 0 {
        return SoldOut;
      }
      var r := cartService.AddToCart(userId, productId, 1, now);
      if r.Err? {
        return Failed(r.error);
      }
      return AddedToCart;
    }
  }
}
