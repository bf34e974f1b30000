# Shop cart engine, catalog and profile rules — a Dafny model

This project models the core of an ASP.NET Core online shop in Dafny.

The heart of it is the cart. The cart is a table of cart lines, one per (user, product) pair, each holding a
quantity. Product stock bounds the quantity. Two separate implementations change the table:

- **The cart service** (`Services/CartService.cs`) does add-by-delta with find-or-create, remove by key and
  owner, and set-quantity with a stock check. It also computes the item count and builds the cart view
  model with its totals.
- **The home page's inline handlers** (`Pages/Index.cshtml.cs`) work on the table directly. They add one
  at a time up to the stock, and apply a signed change, deleting the line at zero and rejecting anything
  above the stock.

Each operation is first written as a function on the cart-line table: `ServiceAdd`, `ServiceRemove`,
`ServiceUpdate`, `HomeAdd`, `HomeUpdate` and `CatalogAdd`. The page and service classes hold a reference
to one `Store.ShopDb`. That object is the database context: a product table, a category table, the
cart-line table and the next cart-line key. The classes' methods change the `ShopDb` step by step, as the
C# does, and each method is proved to leave exactly the table its function describes. Every method also
keeps the keys unique. The lemmas about the functions are where the behaviour is stated, and they put the
two implementations side by side:

- **Stock on add.** The service adds past the stock, and accepts a zero or negative delta.
- **Stock on update.** The inline update creates a line of quantity 1 without looking at the stock.
- **Update by signed change.** On an existing line, the inline update agrees exactly with the service's
  `UpdateQuantityAsync`.
- **Deleted product.** The service looks up the product before it handles a quantity of 0 or less, so a
  line whose product was deleted cannot be removed through `UpdateQuantityAsync`.
- **Catalog add.** The catalog's guard checks the product's stock, not what the cart already holds. So a
  catalog add, too, can take a line past the stock.

Smaller parts of the core are modelled as well:

- the catalog query: category filter, case-insensitive search on name or description, newest first, and
  categories sorted by name;
- the home page's newest-twelve selection;
- the avatar initials of the profile and settings pages;
- the two upload validators and the change rule of the profile update;
- the field constraints of `Product`.

Modelling choices:

- **Prices** are decimals with two places, modelled exactly as integer cents. (The column attribute in
  `Models/Product.cs` reads `"decimal(18,2"`, without the closing parenthesis.)
- **Timestamps** (`DateTime.UtcNow`, `DateTime.Now`) are an opaque `now: int` parameter.
- **Null** in C# is `Option.None`.
- **Identity**: the current user's id, whether the request is authenticated, and whether the user record
  loads are all parameters.
- **Results of library and identity calls are parameters**. These are the verdict of the `[Phone]`
  attribute, the success of `SetPhoneNumberAsync` and `UpdateAsync`, the fresh GUID, and the extension
  `Path.GetExtension` returns.
- **Case mapping** maps the ASCII letters only.
- **Category names** are compared ordinally.

- **Quantities** are C# `int` values, and the sums the code forms on them (`+=`, `++` and `+ change`)
  are unchecked. `Common.Wrap32` brings each sum back into the 32-bit range, as the C# arithmetic does.

The service's add does not check the stock; `CartService.ServiceAddIgnoresStock` shows it.

## Model

| member | source | states |
|---|---|---|
| Models.ValidIffNoErrors | csaspn-COLL-ESHOP/Models/Product.cs:10-31 | A product is valid (required name of at most 100 characters, description at most 500 when present, price 0.01–100000, stock 0–1000) exactly when validation reports no message |
| Models.NewProductNeedsNameAndPrice | csaspn-COLL-ESHOP/Models/Product.cs:13-31 | A new product has stock 10 and the placeholder image. It is not valid as created, and becomes valid exactly when it gets a valid name and price |
| Models.StockRangeAdmitsZero | csaspn-COLL-ESHOP/Models/Product.cs:30 | The stock range admits 0 although its message says 1 to 1000; −1 and 1001 are refused |
| Store.FindProduct | csaspn-COLL-ESHOP/Services/CartService.cs:128 | The lookup returns a product of the table with the requested key, or nothing only when no product has that key |
| Store.RemoveMembership | csaspn-COLL-ESHOP/Services/CartService.cs:53 | With unique keys, deleting a line leaves exactly the lines with other keys |
| Store.NewerOrSameIsTotalPreorder | csaspn-COLL-ESHOP/Pages/Index.cshtml.cs:49 | Ordering by creation date, newest first, is a total preorder |
| Cart.FindOwned | csaspn-COLL-ESHOP/Services/CartService.cs:151-155 | The key-and-owner lookup finds a line with that key owned by that user, and finds none when no such line exists; a null user owns nothing |
| Cart.FindPairIffHeld | csaspn-COLL-ESHOP/Services/CartService.cs:134-135 | The (user, product) lookup finds a line exactly when the user holds a line for the product, and the line it finds is one |
| Cart.FindOwnedUnique | csaspn-COLL-ESHOP/Services/CartService.cs:151-155 | With unique keys, looking up a line's own key and owner finds that line |
| Cart.ItemCountIsSumOfShares | csaspn-COLL-ESHOP/Services/CartService.cs:88-93 | The item count is 0 on an empty table, and otherwise the first line's quantity if it is the user's plus the count of the rest |
| Cart.ItemCountWithoutLines | csaspn-COLL-ESHOP/Services/CartService.cs:88-93 | A user who holds no line has count 0, whatever other users hold |
| Cart.Views | csaspn-COLL-ESHOP/Services/CartService.cs:105-122 | The projection has one row per line, in order, each the line's view |
| Cart.CartViewRows | csaspn-COLL-ESHOP/Services/CartService.cs:97-123 | The view has one row per line of the user, carrying the line's key, product key and quantity. A row whose product is missing shows "Unknown Product", price 0, the placeholder image, stock 0 and no product. Any other row shows the product's name, price, stock and product view, its image or the placeholder when it has none, and its total is price × quantity |
| Cart.CartTotalIsResolvedTotal | csaspn-COLL-ESHOP/Services/CartService.cs:158-172 | The cart total equals price × quantity summed over the user's lines whose product exists; orphaned lines contribute 0 |
| CartService.ProductMessages | csaspn-COLL-ESHOP/Services/CartService.cs:126-131 | The add path's missing-product message carries the parameter name, "Product not found (Parameter 'productId')"; the update path's (line 68) is the bare "Product not found" |
| CartService.StockMessageNamesQuantity | csaspn-COLL-ESHOP/Services/CartService.cs:80 | The insufficient-stock message determines the available quantity it embeds |
| CartService.AddFailures | csaspn-COLL-ESHOP/Services/CartService.cs:35-41 | Adding fails with the authorization error when the user id is null or empty, then with the missing-product error naming `productId` when the product is missing; it succeeds exactly otherwise |
| CartService.AddCreatesOneLine | csaspn-COLL-ESHOP/Services/CartService.cs:134-146 | With no line for the pair, adding appends exactly one line for it, holding 0 plus the delta as an `int`, which is the delta for any `int` delta. The user's count grows by that much and every other user's count is unchanged |
| CartService.AddIncrementsExisting | csaspn-COLL-ESHOP/Services/CartService.cs:41-42 | With a line for the pair, that line's quantity becomes the unchecked `int` sum of the old quantity and the delta (the plain sum when it fits), every other line is kept and no second line for the pair appears |
| CartService.AddToExistingCounts | csaspn-COLL-ESHOP/Services/CartService.cs:41-42 | With a line for the pair, the user's item count moves from the line's old quantity to its wrapped new one, so by the delta when the sum fits an `int`; no other user's count changes |
| CartService.ServiceAddWrapsAround | csaspn-COLL-ESHOP/Services/CartService.cs:42 | Adding the largest `int` to a line of 1 stores the smallest `int` |
| CartService.AddKeepsPairsUnique | csaspn-COLL-ESHOP/Services/CartService.cs:134-146 | If no pair has two lines before an add, none has after it |
| CartService.ServiceAddIgnoresStock | csaspn-COLL-ESHOP/Services/CartService.cs:41-43 | A line already at its product's stock grows past it, and a negative delta is stored as it is |
| CartService.RemoveOnlyOwnedLine | csaspn-COLL-ESHOP/Services/CartService.cs:46-56 | Remove deletes the one line whose key and owner match and keeps every other line, taking that line's quantity off its owner's count. A missing key or another user's line leaves the table unchanged. Keys stay unique |
| CartService.UpdateFailures | csaspn-COLL-ESHOP/Services/CartService.cs:58-81 | Update fails with "Cart item not found" on a missing or foreign line. It fails with the bare "Product not found" when the line's product is gone, whatever the quantity. With the product present it fails exactly when the quantity is positive and above the stock, reporting the stock |
| CartService.UpdateRemovesAtZero | csaspn-COLL-ESHOP/Services/CartService.cs:70-75 | A quantity of 0 or less removes the line: the table shrinks by one, no line with that key is left, and the owner's count drops by the line's quantity |
| CartService.UpdateSetsQuantity | csaspn-COLL-ESHOP/Services/CartService.cs:77-85 | A quantity from 1 to the stock becomes the line's quantity exactly, with the update time set. Every other line is kept, and only the owner's count moves, by the difference |
| CartService.CartService.GetOrCreateCartItem | csaspn-COLL-ESHOP/Services/CartService.cs:126-149 | Returns the user's line for the product, or appends a quantity-0 line with a fresh key, using up one key; fails with the missing-product error naming `productId` and changes nothing when the product is missing |
| CartService.CartService.AddToCart | csaspn-COLL-ESHOP/Services/CartService.cs:33-44 | The table afterwards is `ServiceAdd` of the table before, and a key is used up exactly when a line was created; or the error and no change |
| CartService.CartService.RemoveFromCart | csaspn-COLL-ESHOP/Services/CartService.cs:46-56 | The table afterwards is `ServiceRemove` of the table before |
| CartService.CartService.UpdateQuantity | csaspn-COLL-ESHOP/Services/CartService.cs:58-86 | The table afterwards is `ServiceUpdate` of the table before, or the error and no change |
| HomePage.HomeAddRejections | csaspn-COLL-ESHOP/Pages/Index.cshtml.cs:66-90 | Add is turned away with the table unchanged, in this order: login redirect when not authenticated, no user, missing product, stock 0 or less. It reaches the cart exactly when none of these holds |
| HomePage.HomeAddCreatesLine | csaspn-COLL-ESHOP/Pages/Index.cshtml.cs:96-108 | With no line for the pair, add appends exactly one line for it, with quantity 1 |
| HomePage.HomeAddIncrements | csaspn-COLL-ESHOP/Pages/Index.cshtml.cs:109-121 | On an existing line, add is rejected with the table unchanged when the quantity has reached the stock. Otherwise the quantity goes up by 1 as an unchecked `int` sum, which is exactly 1 when quantity and stock are `int` values; the update time is set and every other line is kept |
| HomePage.HomeAddKeepsStockBound | csaspn-COLL-ESHOP/Pages/Index.cshtml.cs:86-119 | If every line is within its product's stock before an inline add, and every quantity is an `int`, every line is within its stock after |
| HomePage.HomeAddVersusService | csaspn-COLL-ESHOP/Pages/Index.cshtml.cs:92-121 | Compared with the service's add of 1: a created line is the same; an increment is the same except the service leaves the update time alone; where the inline add stops at the stock the service still changes the table |
| HomePage.HomeUpdateRejections | csaspn-COLL-ESHOP/Pages/Index.cshtml.cs:134-152 | Update is turned away with the table unchanged when not authenticated, without a user, or with a missing product, and proceeds exactly otherwise |
| HomePage.HomeUpdateWithoutLine | csaspn-COLL-ESHOP/Pages/Index.cshtml.cs:157-172 | With no line for the pair, a positive change of any size creates one line of quantity 1; a change of 0 or less does nothing |
| HomePage.HomeUpdateExisting | csaspn-COLL-ESHOP/Pages/Index.cshtml.cs:173-195 | On an existing line, with the new quantity the unchecked `int` sum of the old one and the change: 0 or less deletes the line; above the stock is rejected with the table unchanged; otherwise the line takes the new quantity and update time and every other line is kept |
| HomePage.HomeUpdateWrapDeletes | csaspn-COLL-ESHOP/Pages/Index.cshtml.cs:175-180 | A line of 2 with stock 5 and a change of the largest `int` wraps to a negative quantity and is deleted, not rejected |
| HomePage.HomeUpdateCreatesPastStock | csaspn-COLL-ESHOP/Pages/Index.cshtml.cs:157-171 | The line the update creates is not checked against the stock: for a product with stock 0 or less it breaks the stock bound |
| HomePage.HomeUpdateKeepsStockBound | csaspn-COLL-ESHOP/Pages/Index.cshtml.cs:175-194 | Every update that creates no line keeps every line within its product's stock |
| HomePage.HomeUpdateAgreesWithService | csaspn-COLL-ESHOP/Pages/Index.cshtml.cs:175-194 | With unique keys, the inline update of an existing line matches `UpdateQuantityAsync` with that line's key and the page's new quantity (old plus change, as an `int`): the same deletion, the same rejection with the stock, the same new table |
| HomePage.NewestChoosesNewest | csaspn-COLL-ESHOP/Pages/Index.cshtml.cs:47-51 | The selection keeps min(n, table size) products of the table, newest first, and no product left out is newer than one kept |
| HomePage.HomeIndexShowsOwnCart | csaspn-COLL-ESHOP/Pages/Index.cshtml.cs:40-64 | The page shows nothing to an anonymous visitor. Otherwise it shows at most 12 products, newest first, all from the table. Its cart list holds exactly the current user's lines, and is empty when the user record does not load |
| HomePage.IndexModel.OnPostAddToCart | csaspn-COLL-ESHOP/Pages/Index.cshtml.cs:66-132 | The outcome and the table afterwards are `HomeAdd` of the table before; a key is used up only when a line is created |
| HomePage.IndexModel.OnPostUpdateCart | csaspn-COLL-ESHOP/Pages/Index.cshtml.cs:134-206 | The outcome and the table afterwards are `HomeUpdate` of the table before; a key is used up only when a line is created |
| CatalogPage.NameOrderIsTotalPreorder | csaspn-COLL-ESHOP/Pages/Catalog/Index.cshtml.cs:35 | Ordering categories by name is a total preorder |
| CatalogPage.SortedCategoriesOrdered | csaspn-COLL-ESHOP/Pages/Catalog/Index.cshtml.cs:35 | The filter list holds every category as often as the table does, ordered by name |
| CatalogPage.CatalogSelectsExactly | csaspn-COLL-ESHOP/Pages/Catalog/Index.cshtml.cs:37-58 | The catalog lists exactly the products that are in the chosen category, when one is chosen, and match the search, when it is non-empty. Each appears as often as in the table, newest first. With neither filter the whole table is listed |
| CatalogPage.CatalogResultsMatch | csaspn-COLL-ESHOP/Pages/Catalog/Index.cshtml.cs:43-55 | Every listed product is in the table, has the chosen category, and contains the lower-cased search in its lower-cased name or non-null description |
| CatalogPage.SearchIgnoresCase | csaspn-COLL-ESHOP/Pages/Catalog/Index.cshtml.cs:49-55 | A product of the category whose name contains the search as written is listed, and upper-casing the search lists the same products |
| CatalogPage.CatalogAddGuard | csaspn-COLL-ESHOP/Pages/Catalog/Index.cshtml.cs:63-87 | A missing or sold-out product stops the handler before the service, for any user, with the table unchanged. Otherwise the handler does what the service's add of exactly 1 does, and its only failure is the caught authorization error |
| CatalogPage.CatalogAddPassesStock | csaspn-COLL-ESHOP/Pages/Catalog/Index.cshtml.cs:74-80 | On an existing line the catalog add raises the quantity by 1 (as an `int` sum) even when it is already at the stock, so a line at the stock and below the largest `int` goes past it |
| CatalogPage.CatalogModel.OnPostAddToCart | csaspn-COLL-ESHOP/Pages/Catalog/Index.cshtml.cs:63-100 | The outcome and the table afterwards are `CatalogAdd` of the table before; a key is used up exactly when a line was created; any outcome but a successful add leaves the store unchanged |
| CatalogPage.CatalogIndexLists | csaspn-COLL-ESHOP/Pages/Catalog/Index.cshtml.cs:32-61 | The page lists every category as often as the table holds it, ordered by name, and exactly the selected products, newest first |
| ProfilePage.ProfileInitialsCases | csaspn-COLL-ESHOP/Pages/Account/Profile.cshtml.cs:49-64 | Initials are drawn exactly when the avatar URL is null or empty. They have 1 or 2 characters and no lower-case letter: both names' first letters upper-cased when both names are given, else the user name's first letter, else "U" |
| ProfilePage.ProfileShowsStoredFields | csaspn-COLL-ESHOP/Pages/Account/Profile.cshtml.cs:40-64 | The page shows the user's name, e-mail, phone, first and last name and avatar as stored, and initials of 1 or 2 characters exactly when there is no avatar |
| ProfileSettings.MaxFileSizeFailsIff | csaspn-COLL-ESHOP/Pages/Account/Manage/ProfileSettings.cshtml.cs:71-79 | The size validator fails exactly on a file longer than the limit, with the size message, and passes non-file values; 5 MB exactly passes, one byte more fails |
| ProfileSettings.AvatarSizeMessage | csaspn-COLL-ESHOP/Pages/Account/Manage/ProfileSettings.cshtml.cs:81-84 | For the 5 MB limit the reported message reads "…5MB.", not the field's declared "…5 МБ" |
| ProfileSettings.SizeMessageNamesMegabytes | csaspn-COLL-ESHOP/Pages/Account/Manage/ProfileSettings.cshtml.cs:83 | Two limits give the same message exactly when they have the same number of whole megabytes (truncating division) |
| ProfileSettings.SmallLimitReportsZero | csaspn-COLL-ESHOP/Pages/Account/Manage/ProfileSettings.cshtml.cs:83 | A limit under one megabyte is reported as 0MB |
| ProfileSettings.AllowedExtensionsFailsIff | csaspn-COLL-ESHOP/Pages/Account/Manage/ProfileSettings.cshtml.cs:97-109 | The extension validator fails exactly on a file whose extension is empty or whose lower-cased extension is not listed, with the list message; non-file values pass |
| ProfileSettings.AvatarExtensionExamples | csaspn-COLL-ESHOP/Pages/Account/Manage/ProfileSettings.cshtml.cs:57 | For the avatar list, ".JPG" passes, ".bmp" fails, and an empty extension fails even where "" is listed |
| ProfileSettings.AvatarExtensionsMessage | csaspn-COLL-ESHOP/Pages/Account/Manage/ProfileSettings.cshtml.cs:111-114 | The extension message for the avatar lists ".jpg, .jpeg, .png, .gif" |
| ProfileSettings.AllowedExtensionsIgnoresCase | csaspn-COLL-ESHOP/Pages/Account/Manage/ProfileSettings.cshtml.cs:101 | Upper-casing a file's extension does not change the verdict |
| ProfileSettings.SettingsInitialsMatchProfile | csaspn-COLL-ESHOP/Pages/Account/Manage/ProfileSettings.cshtml.cs:124-126 | The settings page draws the initials the profile page draws, and draws them also when an avatar is set; they have 1 or 2 characters |
| ProfileSettings.UpdateIssuedIffChanges | csaspn-COLL-ESHOP/Pages/Account/Manage/ProfileSettings.cshtml.cs:183-263 | An update is issued exactly when the form passes validation (both names present and not blank, the phone verdict, both avatar validators) and the phone step, and first name, last name or phone differ or a non-empty file came. "No changes" is reported exactly when the stored fields are kept as they were and no file came. A missing or blank name never reaches the user |
| ProfileSettings.NoUpdateWithoutChanges | csaspn-COLL-ESHOP/Pages/Account/Manage/ProfileSettings.cshtml.cs:189-263 | A form equal to the stored fields with no file never issues an update and changes no field |
| ProfileSettings.SavedAvatarIsValid | csaspn-COLL-ESHOP/Pages/Account/Manage/ProfileSettings.cshtml.cs:224-241 | When the avatar changes it is the fresh upload path of a non-empty file of at most 5 MB whose lower-cased extension is one of the four images |
| ProfileSettings.PhoneRejectionStopsBeforeUpdate | csaspn-COLL-ESHOP/Pages/Account/Manage/ProfileSettings.cshtml.cs:205-218 | A rejected phone stops the handler with no update issued; the handler has already assigned the names to the user in memory, and does not assign the phone or the avatar |
| ProfileSettings.OnPost | csaspn-COLL-ESHOP/Pages/Account/Manage/ProfileSettings.cshtml.cs:166-263 | The outcome, whether an update is issued, and the user's fields afterwards are those of `SettingsPost` for the fields before; the user name is never touched |
| Common.Wrap32 | csaspn-COLL-ESHOP/Services/CartService.cs:42 | The unchecked `int` sum: a value in the 32-bit range that differs from the exact sum by a multiple of 2^32, and equals it when it fits |
| Common.Wrap32Overflow | csaspn-COLL-ESHOP/Pages/Index.cshtml.cs:175 | A sum of two `int` values changes under wrapping exactly when it leaves the range; past the largest `int` it comes out negative |
| Common.ContainsIffOccurs | csaspn-COLL-ESHOP/Pages/Catalog/Index.cshtml.cs:53 | The substring scan succeeds exactly when the term occurs at some position |
| Common.LowerKeepsContains | csaspn-COLL-ESHOP/Pages/Catalog/Index.cshtml.cs:51-54 | An occurrence survives lower-casing both strings |

## Left out

- Persistence: `SaveChangesAsync`, `Include`/`ThenInclude`, migrations and the admin product pages. The
  database is the in-memory `ShopDb`. A key is handed out when a line is added, rather than when it is
  saved, and a failing save is not modelled.
- The `catch` blocks of the home page handlers and of `OnPostAsync`. They only catch persistence and I/O
  failures, which are not modelled. The catalog handler's `catch` is modelled, as the outcome
  `Failed(error)` for the errors the cart service raises.
- Identity: `UserManager`, `SignInManager`, claims and `IHttpContextAccessor`. The user id, the
  authentication flag and whether the user record loads are parameters. The claim id the service reads
  and the `user.Id` the pages read are taken to be the same string.
- `SetPhoneNumberAsync` and `UpdateAsync` are given only by whether they succeed. What they persist is
  not modelled. In particular, `SetPhoneNumberAsync` itself saves the user.
- Transport and messages: the API controller, the cart page, the cart summary component, `TempData`
  texts and redirects. Each handler reports an outcome value instead.
- File I/O of the avatar upload (directory, stream, copy). The new GUID is a parameter, and the file's
  extension is given as a field rather than computed by `Path.GetExtension`.
- The `[Phone]` attribute's format check. Its verdict is a parameter.
- The profile settings page's `OnGetAsync` and the rest of `LoadAsync`. They only copy user fields onto
  the page; the initials are modelled.
- Concurrency: two concurrent adds can both miss the line and create two. The model is sequential and
  proves pair uniqueness only for one operation at a time (`AddKeepsPairsUnique`).
- Store.FindProduct: `FindAsync` is modelled as the first product with the key; product keys are unique
  in the database, so this picks the only one.
- Store.NewerOrSameIsTotalPreorder: the engine's order among products with equal creation dates is not
  modelled. The model sorts with a fixed insertion sort, and no lemma depends on the order of ties.
- CatalogPage.SortedCategoriesOrdered: names are compared ordinally, char by char, not with the
  database collation.
- Models.RequiredString: white space is the ASCII white space only. `string.IsNullOrWhiteSpace`, which
  `[Required]` uses, also counts Unicode spaces such as U+00A0.
- ProfileSettings.FormValid: the implicit `[Required]` on the two names assumes nullable reference types
  are enabled for the project, as the page's `string?` and `IFormFile?` annotations indicate. The project
  file is not part of this model.
- HomePage.HomeAddKeepsStockBound: it assumes every stored quantity is an `int`, as the column is. The
  model's quantities are unbounded integers, and an increment wraps only from outside that range.
- Cart.CartTotalIsResolvedTotal: price × quantity is a `decimal` product; its overflow, which throws in
  C#, is not modelled.
- Common.LowerKeepsContains: `ToLower` and `ToUpper` map the ASCII letters only. Culture-sensitive and
  full Unicode casing are not modelled. C# strings index UTF-16 code units, while here they index
  characters.
- Cart.ItemCountIsSumOfShares: the count is an unbounded sum, so 32-bit overflow of `SumAsync` is not
  modelled.
- HomePage.HomeIndexShowsOwnCart: the loading of each product's category is not modelled; the page does
  not use it.
