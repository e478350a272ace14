# bitmarket order lifecycle, modelled in Dafny

This project models the back end of the bitmarket marketplace. It covers these services and entities:

- **`OrdersService`** places, lists, updates and cancels orders.
- **`ProductsService`** holds the product catalogue and the stock counts.
- **`UsersService`** is the in-memory user list.
- **The entities** are the order, order item and product rows.

The model proves properties of it with the Dafny verifier.

The stores are Dafny values:

- The `orders` table is a map from order id to `Order`.
- `order_items` is a sequence of `OrderItem`.
- The `products` table is a map from product id to `Product`.
- The users are a sequence.

Each service is a `class` whose methods change those fields, as the TypeScript services change their repositories.

Each method's contract ties its result and new state to pure functions. The properties the service promises are then proved about those functions:

- the validation pass of `create`;
- the stock runs of `create` and `cancel`;
- the access policy;
- the field whitelist of `update`;
- the listings.

Modules, one per concern:

| module | file | models |
|---|---|---|
| `Wrappers`, `Identity`, `Exceptions`, `Seqs` | wrappers.dfy, identity.dfy, exceptions.dfy, seqs.dfy | Nullable values, the caller's id and role, the NestJS exceptions, and filter/find helpers |
| `ProductEntity`, `OrderEntity` | product_entity.dfy, order_entity.dfy | `Product`, `Order` and `OrderItem`, with the `Currency`, `Condition` and `OrderStatus` enums |
| `Products` | products_service.dfy | `ProductsService` |
| `Users` | users_service.dfy | `UsersService` |
| `OrderRules` | order_rules.dfy | Validation, snapshots, stock runs, access and patch rules of `OrdersService` |
| `OrderQueries` | order_queries.dfy | `findOne`, `findAll` and `findBySeller` as functions, and the invariant the order tables keep |
| `Orders` | orders_service.dfy | The `OrdersService` class |

What the source does, as the model states it:

- **Missing or inactive products are NotFound.** `ProductsService.findOne` only returns active rows, so the `!product.active` check in `create` can never fire. The model asserts it unreachable. A missing or inactive product is NotFound, not the BadRequest that check would raise.
- **Stock writes are owner-only.** Every stock write in `create` and `cancel` goes through `updateStock` with the buyer or canceller as actor. `updateStock` is Forbidden unless that user sells the product. So a run stops at the first product the caller does not sell (`OrderRules.AdjustSpec`).
- **Stock writes survive a failure.** Stock writes are not part of the query-runner transaction. The ones made before a failure stay, while the header and the items are discarded (`OrderRules.PartialStockWriteSurvives`).
- **Repeated products can oversell.** Validation checks each line against the stock as it was before any write. Two lines for the same product therefore pass separately and are then decremented cumulatively, which can drive stock negative (`OrderRules.DuplicateLinesOversell`).
- **Create then cancel restores stock.** A `create` whose stock writes all went through, followed by `cancel` by the same caller, restores every product exactly (`OrderRules.CancelRestoresStock`).
  - `Orders.OrdersService.Create` states that the committed items are `Snapshot(...)`.
  - `Orders.OrdersService.Commit` states that `ItemsOf` the new order is those items.
  - `Orders.OrdersService.Cancel` restores `ItemsOf` the order.
- **The transaction is not all-or-nothing.** The comment at src/orders/orders.service.ts:35 says the transaction makes every operation of `create` happen together. The code's stock writes are not part of it, so the model follows the code and keeps them.

## Model

| member | source | states |
|---|---|---|
| `Products.FindActive` | src/products/products.service.ts:51-62 | Succeeds exactly for a stored, active id and returns that row; a missing or inactive id is NotFound |
| `Products.Owned` | src/products/products.service.ts:87-98 | The shared guard: NotFound for a missing id (active or not), Forbidden unless the caller is the seller, otherwise the stored row |
| `Products.SetStock` | src/products/products.service.ts:205-222 | Succeeds exactly for the owner; the row comes back with `stockQuantity` set to exactly the given value and nothing else changed; the error is the guard's |
| `Products.ApplyPatch` | src/products/products.service.ts:100-101 | Every present key overwrites its field, absent keys keep theirs, and `id` and `sellerId` never change |
| `Products.ActiveProducts` | src/products/products.service.ts:37-43 | Lists only stored, active rows, every active row, and each row once |
| `Products.ProductsOfSeller` | src/products/products.service.ts:69-75 | Lists exactly the seller's rows, active or not, each once |
| `Products.FindOneAgreesWithFindAll` | src/products/products.service.ts:37-62 | `findOne` succeeds on exactly the ids `findAll` lists and returns the listed row |
| `Products.ActiveListedBySeller` | src/products/products.service.ts:37-75 | Every product `findAll` lists appears in `findBySeller` of its seller |
| `Products.ProductsService.constructor` | src/products/products.service.ts:13-16 | Starts with an empty table |
| `Products.ProductsService.Create` | src/products/products.service.ts:24-31 | Stores the DTO under a fresh id with the caller as seller, whatever the DTO holds; `active` defaults to true |
| `Products.ProductsService.Update` | src/products/products.service.ts:86-105 | The guard's error with nothing changed, or the row replaced by the merged patch and returned |
| `Products.ProductsService.Remove` | src/products/products.service.ts:115-133 | The guard's error with nothing changed, or only `active` set to false; removing an inactive product changes nothing |
| `Products.ProductsService.HardDelete` | src/products/products.service.ts:147-168 | NotFound; Forbidden for a non-admin before ownership is looked at; Forbidden for a non-owner admin; otherwise the row is deleted |
| `Products.ProductsService.Reactivate` | src/products/products.service.ts:178-196 | The guard's error with nothing changed, or only `active` set to true; reactivating an active product changes nothing |
| `Products.ProductsService.UpdateStock` | src/products/products.service.ts:205-222 | Result is `SetStock` of the old table; the table changes only at that row and only on success |
| `Users.FirstWithUsername` | src/users/users.service.ts:10-12 | None exactly when no user has the name; otherwise the first user in list order with that name |
| `Users.FirstWithEmail` | src/users/users.service.ts:14-16 | None exactly when no user has the email; otherwise the first user in list order with it |
| `Users.IdsIncrease` | src/users/users.service.ts:8-30 | In a list numbered from one, ids strictly increase with position, so they are unique |
| `Users.AppendKeepsNumbering` | src/users/users.service.ts:29-36 | Appending the user `create` builds keeps the numbering 1, 2, 3, … |
| `Users.EmailTaken` | src/users/users.service.ts:19-22 | An absent or empty email is never checked; a non-empty one is taken exactly when some stored user already holds it |
| `Users.UsernameNotUnique` | src/users/users.service.ts:10-36 | Appending a user whose name is already taken leaves two users with that name, and `findOne` still returns the earlier one |
| `Users.UsersService.constructor` | src/users/users.service.ts:7-8 | Empty list, counter at 1 |
| `Users.UsersService.Create` | src/users/users.service.ts:18-38 | Conflict with nothing changed when a truthy email is held; otherwise the hashed password, the next id, growth by exactly one, and the user found by name afterwards |
| `OrderRules.CanAccess` | src/orders/orders.service.ts:178-181 | An admin may always see, update or cancel an order; a regular user exactly when they are its buyer (the same test guards `update` at 212-215 and `cancel` at 258-261) |
| `OrderRules.Cancellable` | src/orders/orders.service.ts:263-264 | `cancel` accepts a status exactly when it is not Shipped, Delivered, Cancelled or Refunded |
| `OrderRules.CheckLines` | src/orders/orders.service.ts:41-71 | On success every line names a stored product and the currency is fixed; failures are BadRequest or NotFound |
| `OrderRules.CheckLinesSpec` | src/orders/orders.service.ts:46-71 | With the currency fixed: success exactly when every line's product is active with enough stock and every product is in that currency; the tally adds Σ price × quantity; with all products available only BadRequest remains |
| `OrderRules.ValidationSpec` | src/orders/orders.service.ts:42-71 | The whole first loop: the currency is the first product's, success exactly when all lines are orderable in it, total Σ price × quantity |
| `OrderRules.Snapshot` | src/orders/orders.service.ts:89-99 | One item per line, linked to the order, with the line's quantity and the product's price and currency |
| `OrderRules.SnapshotTotal` | src/orders/orders.service.ts:70-98 | The saved items add up to the total the validation pass computed |
| `OrderRules.Decrements` | src/orders/orders.service.ts:101-105 | One write per line: the line's product, with its quantity subtracted |
| `OrderRules.Restores` | src/orders/orders.service.ts:280-291 | One write per item of the order: the item's product, with its quantity added |
| `OrderRules.Step` | src/orders/orders.service.ts:89-105 | One loop iteration: NotFound for a missing or inactive product; otherwise Forbidden unless the actor sells it, with the table unchanged; otherwise only that product's stock moves by the delta |
| `OrderRules.Adjust` | src/orders/orders.service.ts:89-108 | A stock loop that stops at the first failure keeps the table's set of products |
| `OrderRules.AdjustCons` | src/orders/orders.service.ts:89-108 | A run is its first write followed, if that went through, by the rest |
| `OrderRules.AdjustKeepsCatalog` | src/products/products.service.ts:205-222 | A run, complete or stopped, changes stock and nothing else in any row |
| `OrderRules.AdjustSpec` | src/orders/orders.service.ts:101-105 | A run completes exactly when the actor sells every product it touches (all active); each stock then moves by the sum of its deltas; with all products present and active the only failure is Forbidden |
| `OrderRules.NetDeltaOfSnapshot` | src/orders/orders.service.ts:96-103 | The restores over the saved items move every product by the opposite of the decrements |
| `OrderRules.CancelRestoresStock` | src/orders/orders.service.ts:280-291 | After a successful decrement run, the restores over its snapshot by the same actor succeed and give back exactly the original table |
| `OrderRules.DuplicateLinesOversell` | src/orders/orders.service.ts:46-108 | Two lines for the same one-unit product pass validation and leave its stock at −1 |
| `OrderRules.PartialStockWriteSurvives` | src/orders/orders.service.ts:89-117 | A run that hits a product the buyer does not sell is Forbidden and keeps the earlier product's decrement |
| `OrderRules.ReservingStep` | src/orders/orders.service.ts:89-108 | A line that goes through keeps the loop state: stock-only changes, the rest of the run, and the snapshots so far extended by this line's |
| `OrderRules.ReservingStop` | src/orders/orders.service.ts:89-108 | A failing line ends the whole run with the table as it stands |
| `OrderRules.PatchKeys` | src/orders/orders.service.ts:222 | The keys listed are exactly those present in the body |
| `OrderRules.Disallowed` | src/orders/orders.service.ts:219-226 | Holds `status` exactly when it is present, `paymentId` exactly when it is present, and nothing a non-admin may send; empty exactly when neither is present |
| `OrderRules.FieldNames` | src/orders/orders.service.ts:227-229 | The names listed in the error are the disallowed keys' names, in order |
| `OrderRules.Merge` | src/orders/orders.service.ts:234 | Every present key overwrites its field; id, buyer, total, currency and creation time never change |
| `OrderRules.AllowedPatchKeepsStatus` | src/orders/orders.service.ts:218-234 | A patch a non-admin may send leaves status and payment id unchanged |
| `OrderQueries.ItemsOf` | src/orders/orders.service.ts:184-187 | Exactly the stored items with that order id, in stored order |
| `OrderQueries.ItemsOfAppend` | src/orders/orders.service.ts:184-187 | Looking up items over two appended lists is looking them up in each |
| `OrderQueries.SoldByListedProduct` | src/orders/orders.service.ts:317-321 | The join condition `SoldBy` of `findBySeller` holds for an item exactly when its product is among the seller's products as the products service lists them |
| `OrderQueries.SellerItemsOf` | src/orders/orders.service.ts:336-341 | Exactly the order's items whose product the seller sells |
| `OrderQueries.InsertNewest` | src/orders/orders.service.ts:137-143 | Inserting an order into a newest-first list keeps it newest first, adds exactly that id and keeps ids distinct |
| `OrderQueries.SortNewest` | src/orders/orders.service.ts:137-143 | Same ids, same length, newest first, distinctness kept |
| `OrderQueries.Hydrate` | src/orders/orders.service.ts:148-157 | Each listed header with the items attached to it |
| `OrderQueries.FindOrder` | src/orders/orders.service.ts:169-192 | NotFound for an unknown id, Forbidden unless buyer or admin, success exactly otherwise with the header and all its items |
| `OrderQueries.ListedKeys` | src/orders/orders.service.ts:130-145 | Exactly the selected stored ids, each once, newest first |
| `OrderQueries.Listing` | src/orders/orders.service.ts:130-160 | Exactly the selected stored headers, each once, newest first, each with its attached items |
| `OrderQueries.ListOrders` | src/orders/orders.service.ts:130-160 | Every order an admin or the buyer may see and no other, each once, newest first, each with all its items |
| `OrderQueries.TouchedBy` | src/orders/orders.service.ts:317-324 | The distinct order ids of the items whose product the seller sells |
| `OrderQueries.SellerOrders` | src/orders/orders.service.ts:314-349 | Exactly the stored orders holding a seller's item, each once, newest first, with only that seller's items and the header as stored |
| `OrderQueries.SellerViewIsPartOfOrder` | src/orders/orders.service.ts:332-346 | A seller's view of an order is non-empty and holds only the order's own items |
| `OrderQueries.FindOrderAgreesWithList` | src/orders/orders.service.ts:130-192 | An order `findOne` shows a caller is in that caller's `findAll`, with the same items |
| `OrderQueries.ConsistentAfterCreate` | src/orders/orders.service.ts:74-108 | A fresh header with snapshots summing to its total in one currency keeps the tables consistent, and they are exactly its items |
| `OrderQueries.ConsistentAfterReplace` | src/orders/orders.service.ts:234-235 | Replacing a header by one with the same total and currency keeps the tables consistent |
| `Orders.NewHeader` | src/orders/orders.service.ts:74-81 | Pending, the buyer as given, the validated currency and total, absent address, zip code and notes stored as the empty string, no payment id |
| `Orders.Placement` | src/orders/orders.service.ts:31-71 | An empty request is BadRequest; otherwise success exactly when all lines are orderable in the first product's currency, with tally Σ price × quantity; only BadRequest once all products are available |
| `Orders.UpdateGuard` | src/orders/orders.service.ts:203-231 | NotFound, Forbidden unless buyer or admin, Forbidden listing exactly the disallowed keys for a non-admin, success exactly otherwise |
| `Orders.CancelGuard` | src/orders/orders.service.ts:249-266 | NotFound, Forbidden unless buyer or admin, BadRequest unless pending, paid or processing, success exactly otherwise |
| `Orders.SecondCancelRejected` | src/orders/orders.service.ts:263-294 | Cancelling an order already set to cancelled is a BadRequest |
| `Orders.OrdersService.constructor` | src/orders/orders.service.ts:14-21 | Empty tables over the given products service |
| `Orders.OrdersService.Create` | src/orders/orders.service.ts:29-122 | A validation failure is returned with nothing written. Otherwise the stock table is the decrement run's result; on a failed write no header or item is kept; on success the pending header at the next id and its snapshots are committed and returned |
| `Orders.OrdersService.Commit` | src/orders/orders.service.ts:83-110 | The header is added at the next id, its items appended and found as its items, and the tables stay consistent |
| `Orders.OrdersService.Validate` | src/orders/orders.service.ts:46-71 | The first loop computes exactly `CheckLines` over the current products, writing nothing |
| `Orders.OrdersService.ReserveStock` | src/orders/orders.service.ts:89-108 | The products table and the failure are exactly the decrement run's; when it completes the items are the snapshots |
| `Orders.OrdersService.ReserveLine` | src/orders/orders.service.ts:90-105 | One iteration: the item snapshot and exactly one `Step` of stock |
| `Orders.OrdersService.RestoreStock` | src/orders/orders.service.ts:275-291 | The products table and the failure are exactly the restore run's |
| `Orders.OrdersService.RestoreLine` | src/orders/orders.service.ts:282-290 | One iteration: exactly one `Step` of stock |
| `Orders.OrdersService.Update` | src/orders/orders.service.ts:202-239 | The guard's error with nothing changed, or the merged header stored and returned with its items |
| `Orders.OrdersService.Cancel` | src/orders/orders.service.ts:248-307 | The guard's error with nothing changed; otherwise the stock table is the restore run's; on success the status becomes cancelled and the order is returned |

## Left out

- **HTTP layer.** Controllers, route guards, Swagger decorators and `plainToInstance` shaping are not modelled. The caller's id and role are plain parameters; a missing role counts as a regular user.
- **DTO validation.** class-validator rules on the DTOs only fix the shape of the input datatypes. The global `ValidationPipe` runs without a whitelist. An order update body may therefore carry keys outside the five declared ones, or keys whose value is null. The patch here holds only the five declared keys, each with a value. With the real body such keys would also be listed as forbidden, or assigned for an admin.
- **Relation loading.** Returned orders and items carry ids, not the joined `buyer`, `seller` and `product` rows (`relations: [...]`, `innerJoinAndSelect`).
- **Ids and timestamps.** uuid and auto-increment ids are natural numbers from a counter. Order items have no id of their own. `createdAt` is a `now` parameter to `Create`, and `updatedAt` and the product timestamps are omitted.
- **Ordering ties.** Several orders with the same `createdAt` are listed in an order the database does not define. The model fixes one, and its contracts only promise a non-increasing `createdAt`.
- **Transactions.** The query runner's connect, commit, rollback and release are modelled by keeping the header and items local until the end of `create` and writing stock straight to the products table. Isolation and concurrent requests (`Promise.all`, races between orders) are out of scope; the model is sequential.
- **Number types.** Prices and totals are floats in the source; here they are integers in minor units, with no rounding.
- Products.ApplyPatch, Products.ProductsService.Update, Products.ProductsService.Create: the product DTOs here hold only their declared keys. The global `ValidationPipe` (src/main.ts:10) transforms bodies but has no whitelist, so undeclared keys reach the service. In `update`, an undeclared `sellerId` is copied onto the row by `Object.assign` (src/products/products.service.ts:101), so an owner can hand a product to another seller. In `create`, an `id` in the body is spread into the row (lines 25-28), so `save` writes over the product already stored under that id. The model captures neither.
- OrderRules.CreateOrderItemDto: `quantity` is an integer. The request DTO only requires a number, so the source also accepts fractional quantities, which the model does not represent.
- OrderQueries.ItemsOf, Orders.OrdersService.Cancel: an order's items are returned in insertion order. The source's item queries name no sort order, so the database decides it. Any other row order is not modelled. For `cancel` that order matters: it decides which restores are written before a failing one.
- OrderRules.PatchKeys, OrderRules.FieldNames: the model lists disallowed keys in a fixed order, `status` before `paymentId`. The source lists them in the order the request body sends them, because `ValidationPipe` with `transform: true` keeps the body's key order. The set of keys reported is the same.
- **Password hashing.** bcrypt is a `hash` function parameter. Its random salt, which makes two hashes of one password differ, is not modelled.
- **Database constraints.** `HardDelete` does not model what the database does with order items that still reference the deleted product.
- **Error messages.** The texts of the exceptions are replaced by structured reasons, such as the offending product id or the list of disallowed field names.
- **Inactive-product check.** `Orders.OrdersService.Validate` states the source's `!product.active` check at orders.service.ts:50 as an assertion that it cannot fire, not as a branch. Its BadRequest is therefore never produced.
- **Per-class query functions.** `FindAll`, `FindOne` and `FindBySeller` of `Products.ProductsService` and of `Orders.OrdersService`, and `FindOne` and `FindByEmail` of `Users.UsersService`, only delegate to the table functions listed above. The contracts live on those functions.
- **Users as a list.** The user store has no persistence, and `user.interface` fields beyond id, username, password and email are not part of this model.
