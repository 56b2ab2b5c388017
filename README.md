# Store-backed services of an e-commerce backend, modelled in Dafny

This project models the service layer of a NestJS/Mongoose e-commerce API:

- the **account service** (`AuthService`): registration, login with a signed session token, session re-validation and its error classifier;
- the **orders service**: owner-scoped creation, paged listing, lookup and removal;
- the **sales service**: a sale recorded from one of the acting user's orders, with its amount and unit count folded from the order's items, and owner-scoped listing with an optional inclusive date window;
- the **products service**: creation, paged listing, lookup, field-merge update and removal;
- the **order-item validator** (`CreateOrderDto`), which bounds the sale arithmetic.

Each collection is a `map<Id, Record>`. A service whose operations write to it is a class holding that map (`AuthService`, `OrdersService`, `SalesService`, `ProductsService`). Its writing methods state the new map in terms of the old one. The read-only queries are functions over the map. Every operation that can fail answers with a `Result`; `Sales.FindAll` cannot fail and answers the matching sales directly. The errors are the framework exceptions `BadRequest`, `Unauthorized`, `NotFound` and `InternalServerError`, with the messages the code uses.

Things outside the code's control are parameters:
- the bcrypt hasher (`Auth.Hasher`, with the salt it draws);
- the JWT signer (`Auth.Signer`, which may fail);
- the id the store assigns to a new record (`newId`, required to be unused);
- the clock (`now`, `date`);
- the fault a store call raises, if any (`fault`, `readFault`, `writeFault`). These appear only where the code catches them.

The idealised hasher, where a digest verifies exactly the plaintext it was made from, is the predicate `Auth.Ideal`. It is a hypothesis of the lemmas that need it, not an axiom.

**What the code does, modelled as written.** Several services throw an HTTP exception inside a `try` whose `catch` hands every error to `handleDBErrors`. That classifier only recognises duplicate keys (code 11000) and schema `ValidationError`s. So the thrown exception comes back as `InternalServerError("Please check server logs")`. This affects:
- a registration with an email already held by any user (src/auth/auth.service.ts:35, caught at :47);
- a missing product in `findOne`, `update` and `remove` (src/products/products.service.ts:52, :69, :82);
- a missing or foreign order in `findOne` and `remove` (src/orders/orders.service.ts:63, :80).

The contracts state this observable 500, not the intended 400/404. For registration the intent is plain in the code itself: src/auth/auth.service.ts:35 throws `BadRequestException('Email already registered')`, so a 400 was evidently meant. The model follows what the code produces, a 500, unless the duplicate is caught by the store's unique index during `save()` (then 400 "Email already exists in the database"). Sales lookups are not inside a `try`, so their `NotFound` does surface as 404.

**Store semantics.** Paged listings apply the sort before `skip` and `limit`, as the document store does. A `limit` of 0 means no limit. Skipping past the end gives an empty page. Records with equal sort keys come back in an order the store does not specify. The model fixes one such order (`Store.NewestFirst`) and proves every listing sorted, duplicate-free and complete.

Modules: `Store` (ids, options, the sort/skip/limit window), `Errors`, `OrderItems`, `Auth`, `Orders`, `Sales`, `Products`, one file each.

## Model

| member | source | states |
|---|---|---|
| `Auth.HandleDbErrors` | src/auth/auth.service.ts:109-121 | Duplicate key gives 400 "Email already exists in the database". A validation failure gives 400 with its own message. Everything else, including any HTTP exception thrown inside the `try`, gives 500 "Please check server logs". |
| `Auth.AuthService.Create` | src/auth/auth.service.ts:28-50 | Succeeds iff neither store call faults and no user, active or not, holds the email. A taken email stores nothing and answers 500, not 400. On success exactly one user is added under the new id. Its stored password is `hash(password, salt)`, it is active, and the answer is that record without the password. Every failure leaves the store unchanged. Unique emails are preserved. |
| `Auth.FindActiveByEmail` | src/auth/auth.service.ts:55-58 | Finds a user iff some user with that email is active. What it finds has that email and is active. |
| `Auth.GetJwtToken` | src/auth/auth.service.ts:87-94 | Fails iff signing fails, and then with 500 "Error during login process". Otherwise it answers the signed token. |
| `Auth.Login` | src/auth/auth.service.ts:52-85 | When no user with the email is active, the answer is 401 "Invalid credentials", whatever the password. The only errors are that 401 and the signing 500, and the 500 arises only when an active holder of the email verifies the password but the token cannot be signed. On success the answer belongs to an active user with that email whose digest verifies the password. It is `{id, username, email, isActive: true}` with no password, plus the token signed over `{id, username, email}`. The store is a value, so it is unchanged. |
| `Auth.ValidateUser` | src/auth/auth.service.ts:96-107 | Answers the stored user iff the id exists, the account is active and the lookup did not fault. Every other outcome is a bare 401. |
| `Auth.LoginSucceedsIff` | src/auth/auth.service.ts:55-84 | With unique emails, login succeeds iff the user holding the email is active, the password verifies and signing succeeds. |
| `Auth.LoginFailuresIndistinguishable` | src/auth/auth.service.ts:60-68 | On any store, unique emails or not, an unknown email, an inactive account and a wrong password all give the same 401 "Invalid credentials". |
| `Auth.LoginSigningFailure` | src/auth/auth.service.ts:79-83 | With unique emails, an active holder of the email who gives a verifying password but whose token cannot be signed gets 500 "Error during login process", not 401. |
| `Auth.ValidRegistration` | src/auth/dto/create-auth.dto.ts:3-14 | The decorators on the registration body, and the precondition of `AuthService.Create`: a username of at least 4 and a password of at least 6 characters, and an email with an '@' that is neither its first nor its last character. |
| `Auth.RegisterThenLogin` | src/auth/auth.service.ts:38-84 | Take the store after a successful registration, with an ideal hasher and a working signer. Login with the registered email succeeds iff the password is the registered one, and answers the new user. Any other password gives 401 "Invalid credentials". |
| `OrderItems.TotalAmount` | src/sales/sales.service.ts:27 | The left fold Σ price·quantity. It is never negative for validated items. |
| `OrderItems.ItemsCount` | src/sales/sales.service.ts:28 | The left fold Σ quantity. For validated items it is at least the number of lines. |
| `OrderItems.ValidItemIff` | src/orders/dto/create-order.dto.ts:4-16 | An item passes validation iff its product id has 24 characters and is either all hexadecimal digits or `0x`/`0h` (either case) followed by 22 of them. Its quantity must be at least 1 and its price at least 0. The non-empty check is implied by the id check. |
| `OrderItems.PrefixedIdAccepted` | src/orders/dto/create-order.dto.ts:5 | `0x` followed by 22 hexadecimal digits passes `@IsMongoId()`, as validator.js's hexadecimal test allows that prefix. Such an id is not a storable ObjectId; see "## Left out". |
| `OrderItems.ValidItemsAppend` | src/orders/dto/create-order.dto.ts:18-22 | `items` is checked element by element: a concatenation of item lists passes iff both parts pass. |
| `OrderItems.TotalAmountIsLineSum` | src/sales/sales.service.ts:27 | The left fold of the code equals the reference sum Σ price·quantity taken from the front. |
| `OrderItems.ItemsCountIsQuantitySum` | src/sales/sales.service.ts:28 | The left fold of the code equals the reference sum Σ quantity taken from the front. |
| `OrderItems.ItemsCountIsLinesIffSingleUnits` | src/orders/dto/create-order.dto.ts:9-11 | For validated items (quantity ≥ 1), the unit count equals the number of lines iff every quantity is 1. |
| `OrderItems.TotalAmountCoversUnitPrices` | src/orders/dto/create-order.dto.ts:9-15 | For validated items (quantity ≥ 1, price ≥ 0), the sale amount is at least the sum of the unit prices. |
| `Store.OrDefault` | src/orders/orders.service.ts:33 | A missing paging parameter takes its default; a given one is kept. `Products.Merge` uses the same helper for the fields a patch leaves out. |
| `Store.Window` | src/orders/orders.service.ts:39-40 | `skip(offset).limit(limit)` gives a contiguous run of the sorted result starting at `offset`. It has at most `limit` entries when `limit > 0`. It stops early only at the end of the result. |
| `Store.NewestFirst` | src/orders/orders.service.ts:41 | The descending sort lists every record exactly once, newest first. |
| `Store.PageIds` | src/products/products.service.ts:31-34 | Sort, skip and limit together: keys of the collection, newest first, without repeats. The page is the window of the full descending order starting at `offset`, at most `limit` long (0: no limit), and short only at the end. |
| `Orders.HandleDbErrors` | src/orders/orders.service.ts:89-97 | A validation failure gives 400 with its message. Everything else, including a duplicate key and any thrown HTTP exception, gives 500 "Please check server logs". |
| `Orders.OwnedDates` | src/orders/orders.service.ts:36-37 | Exactly the acting user's orders, each with its `order_date`. |
| `Orders.OwnedPage` | src/orders/orders.service.ts:37-41 | The page holds only the acting user's stored orders, sorted by `order_date` descending. It is at most `limit` long. It is the window of that user's full descending order starting at `offset`. |
| `Orders.FindAll` | src/orders/orders.service.ts:33-53 | `total` counts exactly the acting user's orders. The page is `Orders.OwnedPage` for the effective `offset` and `limit`, which are echoed with defaults 0 and 10. A store fault goes through the classifier. |
| `Orders.FindOne` | src/orders/orders.service.ts:55-70 | Answers the order iff it exists and the acting user owns it. A missing or foreign id gives 500, never 404. |
| `Orders.OwnedCountAfterInsert` | src/orders/orders.service.ts:18-36 | Storing a new order raises its owner's total by one and leaves every other user's total unchanged. |
| `Orders.OwnedCountAfterRemove` | src/orders/orders.service.ts:72-77 | Removing an order lowers its owner's total by one and leaves every other user's total unchanged. |
| `Orders.OrdersService.Create` | src/orders/orders.service.ts:18-31 | On success exactly one order is added, owned by the acting user, dated `now`, with exactly the request's items. A store fault stores nothing. Every stored order keeps validated items. |
| `Orders.OrdersService.Remove` | src/orders/orders.service.ts:72-87 | Deletes exactly the matching owned order and answers "Order deleted successfully". A missing or foreign id deletes nothing and gives 500. |
| `Sales.NewSale` | src/sales/sales.service.ts:23-29 | The sale's amount is Σ price·quantity and its unit count is Σ quantity over the order's items. For validated items the amount is ≥ 0 and the count is at least the number of lines. |
| `Sales.FindAll` | src/sales/sales.service.ts:34-42 | A sale is listed iff the acting user owns it and, when both bounds are given, its date lies within them, inclusive. With either bound missing, every owned sale is listed. |
| `Sales.FindOne` | src/sales/sales.service.ts:44-52 | Answers the sale iff it exists and the acting user owns it. Otherwise 404 "Sale not found". |
| `Sales.WindowNarrows` | src/sales/sales.service.ts:37-39 | A windowed listing is contained in the unwindowed one. It keeps every owned sale dated within the bounds. |
| `Sales.SalesService.Create` | src/sales/sales.service.ts:16-32 | Succeeds iff the order exists and the acting user owns it. Otherwise 404 "Order not found", and nothing is stored. On success exactly one sale is added, recording the acting user, the order's id and the two folds. The order collection is only read. |
| `Products.HandleDbErrors` | src/products/products.service.ts:90-102 | Duplicate key gives 400 "Duplicate entry in database". A validation failure gives 400 with its message. Everything else, including any thrown HTTP exception, gives 500 "Please check server logs". |
| `Products.Merge` | src/products/products.service.ts:62-66 | `$set` overwrites exactly the fields the patch carries and keeps the others. The id and creation time never change; `updatedAt` becomes `now`. |
| `Products.MergeIdempotent` | src/products/products.service.ts:62-66 | Applying the same patch twice equals applying it once. |
| `Products.CreationTimes` | src/products/products.service.ts:34 | The sort key of every product and of nothing else. |
| `Products.ProductWindow` | src/products/products.service.ts:31-34 | The page holds stored products only, sorted by `createdAt` descending. It is at most `limit` long. It is the window of the full descending order starting at `offset`. |
| `Products.FindAll` | src/products/products.service.ts:27-46 | `total` is the count of all products. The page is `Products.ProductWindow` for the effective `offset` and `limit`, which are echoed with defaults 0 and 10. A store fault goes through the classifier. |
| `Products.FindOne` | src/products/products.service.ts:48-58 | Answers the product iff it exists. A missing id gives 500, because the `NotFound` is reclassified. |
| `Products.ProductsService.Create` | src/products/products.service.ts:17-25 | On success exactly one product is added, built from the request. A store fault stores nothing and goes through the classifier. |
| `Products.ProductsService.Update` | src/products/products.service.ts:60-76 | Only that product changes, as `Merge` says, and the post-update record is answered. Other products are unchanged. A missing id changes nothing and gives 500. |
| `Products.ProductsService.Remove` | src/products/products.service.ts:78-88 | Deletes exactly that product and answers "Product deleted successfully". A missing id changes nothing and gives 500. |

## Left out

- HTTP wiring is not modelled: controllers, routing, the `jwt` cookie and its 7-day expiry, CORS and the global validation pipe. Only the registration and order DTOs become `requires` clauses (`ValidRegistration`, `ValidCreateOrder`). Product and sale requests are taken unconstrained: the `MinLength`/`Min` checks of `CreateProductDto` and the `IsMongoId` check of `CreateSaleDto` are not modelled.
- The JWT strategy (src/auth/strategies/jwt.strategy.ts) is not modelled. As written, its `validate` passes the `id` of its first argument to `validateUser`. Signature and expiry checks happen inside passport-jwt, which is not part of this model.
- bcrypt and JWT internals are not modelled: cost factor, salting algorithm, signature maths, the `iat`/`exp` claims. `Hasher` and `Signer` are parameters; the signer stands for the library with its secret, expiry and clock fixed for the call.
- The controller calls `findAll`, `findOne`, `update`, `disableAccount`, `deleteAccountPermanently` and `changePassword` on `AuthService`. None of them exists in src/auth/auth.service.ts, so none is modelled.
- Mongoose mechanics are not modelled: `populate`, ObjectId casting of ids, `select('+password')`, the `__v` field, the logger.
- Auth.ValidateUser: answers the stored user with its password digest. The schema hides `password` (login must ask for it with `select('+password')`), so the program's `findById` answers the user without it.
- Orders.OrdersService.Create: a product id that passes `@IsMongoId()` in the `0x`/`0h` form is accepted by the model as it is by the validator. The cast failure that `save()` would then raise is not derived from the id; it is one of the `fault` values.
- Concurrent registrations are not modelled as a race. The store's unique-index rejection appears only as a `writeFault` of `DuplicateKey`.
- Store faults in `login` and in the sales service are not modelled. The code has no `catch` there, so the framework would answer a generic 500.
- Prices and quantities are JavaScript numbers, and quantity need not be an integer. The model uses integers (whole cents, whole units), so floating-point rounding in the folds is not captured.
- `new Date()` and `Date.now()` are the parameter `now`. Sale date bounds are already-parsed timestamps. Parsing `fromDate`/`toDate` strings, including invalid dates and the midnight cut-off of a date-only `toDate`, is not modelled. An empty-string bound counts as missing (`None`), as JavaScript truthiness makes it.
- `limit` and `offset` are natural numbers. Negative or non-numeric query values are not modelled.
- The `createdAt`/`updatedAt` timestamps of orders and sales are left out; no operation reads them.
- The user and product entity files are not part of this model. Their fields are taken from the DTOs, the code's use of them, and the schema timestamps implied by sorting on `createdAt`.
- update-product.dto.ts is not part of this model. `UpdateProductDto` is taken to be the partial of `CreateProductDto`, and its field constraints are not required.
- `Auth.ValidRegistration` only approximates `@IsEmail()`: it requires a non-empty local part, an '@' and a non-empty domain. It therefore admits more addresses than the real validator.
- `Auth.Login`: with several active users sharing an email, the store's `findOne` returns one of them in its natural order. The model picks one without fixing which. `Auth.LoginSucceedsIff` and `Auth.RegisterThenLogin` assume unique emails, which `AuthService.Create` preserves.
- `Store.NewestFirst`: the order among records with equal sort keys is a fixed but unspecified choice, not the store's actual tie order.
