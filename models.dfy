/**
 * The entities of the shop: products, categories, cart lines and users, with
 * the field constraints the product form declares.
 */
module Models {
  import opened Common

  /**
   * A catalog category. Categories are only read by the code modelled here
   * (the filter list of the catalog page).
   */
  datatype Category = Category(id: int, name: string)

  /**
   * A product row. `price` is in hundredths of the currency unit: the column
   * is `decimal(18,2)`, so cents represent every stored price exactly.
   * `createdDate` is an opaque, ordered timestamp.
   */
  datatype Product = Product(
    id: int,
    name: string,
    description: Option<string>,
    price: int,
    imageUrl: Option<string>,
    stockQuantity: int,
    categoryId: int,
    createdDate: int)

  /**
   * One user's holding of one product. `userId` is required, so it is never
   * null; `addedAt` and `updatedAt` are opaque timestamps.
   */
  datatype CartLine = CartLine(
    id: int,
    userId: string,
    productId: int,
    quantity: int,
    addedAt: int,
    updatedAt: Option<int>)

  /** The identity user with the profile fields the pages read and write. */
  class AppUser {
    var userName: Option<string>
    var email: Option<string>
    var firstName: Option<string>
    var lastName: Option<string>
    var phoneNumber: Option<string>
    var avatarUrl: Option<string>

    constructor (userName: Option<string>, email: Option<string>, firstName: Option<string>, lastName: Option<string>,
                 phoneNumber: Option<string>, avatarUrl: Option<string>)
      ensures this.userName == userName && this.email == email && this.firstName == firstName && this.lastName == lastName
      ensures this.phoneNumber == phoneNumber && this.avatarUrl == avatarUrl
    {
      this.userName := userName;
      this.email := email;
      this.firstName := firstName;
      this.lastName := lastName;
      this.phoneNumber := phoneNumber;
      this.avatarUrl := avatarUrl;
    }
  }

  // ---------------------------------------------------------------------------
  // Product defaults and field constraints.
  // ---------------------------------------------------------------------------

  const PlaceholderImage: string := "/images/placeholder.jpg"
  const DefaultStockQuantity: int := 10

  const MaxNameLength: int := 100
  const MaxDescriptionLength: int := 500
  /** 0.01 and 100000 in cents. */
  const MinPrice: int := 1
  const MaxPrice: int := 10_000_000
  const MinStock: int := 0
  const MaxStock: int := 1000

  const NameRequiredMessage: string := "Название обязательно"
  const NameLengthMessage: string := "Максимум 100 символов"
  const DescriptionLengthMessage: string := "Максимум 500 символов"
  const PriceRangeMessage: string := "Цена должна быть больше 0"
  const StockRangeMessage: string := "Количество должно быть от 1 до 1000"

  /** A product as `new Product()` leaves it, created at `now`. */
  function NewProduct(now: int): Product
  {
    Product(0, "", None, 0, Some(PlaceholderImage), DefaultStockQuantity, 0, now)
  }

  predicate IsWhiteSpace(c: char)
  {
    c == ' ' || c == '\t' || c == '\n' || c == '\r' || c == '\U{B}' || c == '\U{C}'
  }

  /** `[Required]` on a string: not null, not empty and not only white space. */
  predicate RequiredString(s: string)
  {
    exists i :: 0 <= i < |s| && !IsWhiteSpace(s[i])
  }

  predicate NameValid(name: string) { RequiredString(name) && |name| <= MaxNameLength }

  predicate DescriptionValid(d: Option<string>) { d.None? || |d.value| <= MaxDescriptionLength }

  predicate PriceValid(price: int) { MinPrice <= price <= MaxPrice }

  predicate StockValid(stock: int) { MinStock <= stock <= MaxStock }

  /** Every annotated field of the product satisfies its attributes. */
  predicate ValidProduct(p: Product)
  {
    NameValid(p.name) && DescriptionValid(p.description) && PriceValid(p.price) && StockValid(p.stockQuantity)
  }

  /** The messages model validation reports for `p`, one per failed attribute, in field order. */
  function ProductErrors(p: Product): seq<string>
  {
    (if !RequiredString(p.name) then [NameRequiredMessage] else [])
    + (if |p.name| > MaxNameLength then [NameLengthMessage] else [])
    + (if !DescriptionValid(p.description) then [DescriptionLengthMessage] else [])
    + (if !PriceValid(p.price) then [PriceRangeMessage] else [])
    + (if !StockValid(p.stockQuantity) then [StockRangeMessage] else [])
  }

  /** A product is valid exactly when validation reports no message. */
  lemma ValidIffNoErrors(p: Product)
    ensures ValidProduct(p) <==> ProductErrors(p) == []
  {
  }

  /**
   * The defaults satisfy the description, image and stock constraints, so a
   * new product becomes valid exactly when the form supplies a valid name and
   * price.
   */
  lemma NewProductNeedsNameAndPrice(now: int, name: string, price: int)
    ensures !ValidProduct(NewProduct(now))
    ensures NewProduct(now).stockQuantity == 10 && NewProduct(now).imageUrl == Some("/images/placeholder.jpg")
    ensures ValidProduct(NewProduct(now).(name := name, price := price)) <==> NameValid(name) && PriceValid(price)
  {
  }

  /** The stock range admits 0 although its message speaks of 1 to 1000. */
  lemma StockRangeAdmitsZero(p: Product)
    requires ValidProduct(p)
    ensures ValidProduct(p.(stockQuantity := 0))
    ensures !ValidProduct(p.(stockQuantity := -1)) && !ValidProduct(p.(stockQuantity := 1001))
  {
  }
}
