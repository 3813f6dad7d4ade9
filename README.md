# Order management: a Dafny model

This project models the core of the order-management backend, a Spring
service that stores customer orders with their line items. Its parts are:

- **The order aggregate.** An `Order` keeps a list of `Item`s. Each item
  points back at its order. The order's total is the sum of unit price times
  quantity.
- **The order and item services.** They create, read, update and delete
  orders and items over the repository, behind a two-namespace read cache:
  `"order"` is keyed by id, and `"orders"` holds the whole list.
- **The mapper.** It converts between entities and the request and response
  objects.
- **The request constraints.** These are the declarative checks on
  `OrderRequest` and `ItemRequest`.
- **The exception handler.** It turns every exception into an error response.
- **The order endpoints.** They choose the status code, the `Location` header
  and the paging defaults.
- **The login and refresh-token endpoints.** They are written over abstract
  collaborators.
- **The route-protection and CORS policy.**
- **The seeding of the two start-up users.**

How things are represented:

- Money (`BigDecimal`) is an integer in minor units. Times are integers
  passed in by the caller. A Java reference that may be null is an `Option`.
- An exception is the `Err` case of a `Result`. A call that throws changes
  nothing: its transaction rolls back, and `@CacheEvict` runs only after a
  normal return.

The modules follow the source files:

| file | models |
|---|---|
| `common.dfy` | nullable values, exceptions, `@NotBlank`, the decimal rendering of a `long`, `String.replace` |
| `entity.dfy` | `entity/Order.java` (class `Order`, class `Item`, the total) |
| `dto.dfy` | `dto/ItemRequest.java`, `dto/OrderRequest.java` and the response records |
| `mapper.dfy` | `mapper/OrderMapper.java` |
| `persistence.dfy` | the order and item repositories as a store of rows |
| `cache.dfy` | the `"order"`/`"orders"` caches and what it means for them to agree with the store |
| `order_service.dfy` | `service/OrderService.java` |
| `item_service.dfy` | `service/ItemService.java` |
| `exception_handler.dfy` | `exception/GlobalExceptionHandler.java` |
| `order_controller.dfy` | `controller/OrderController.java` |
| `auth_controller.dfy` | `controller/AuthController.java` |
| `web_config.dfy` | `config/WebConfig.java` (authorization rules and CORS) |
| `data_initializer.dfy` | `config/DataInitializer.java` |

### The entities and the store

The entities are Dafny classes, and they change in place as they do in the
source:

- `addItem` and `removeItem` update the list and the item's back-reference;
- `linkItems` loops over the list;
- `updateEntity` sets four fields;
- `@PrePersist` and `@PreUpdate` set the creation time and the total.

The repository is a class `Database` that holds rows:

- an order row per id, and an item row per item id, which carries the id of
  its order;
- the next ids to hand out.

An order is loaded by building a fresh `Order` and its `Item`s from the rows.
It is saved by writing the entity's fields back as rows. Saving a new order
first runs `@PrePersist` and then numbers the new items. Saving a loaded
order is a merge:

- the new items are numbered at once;
- the order row is written when the transaction commits, after the service
  has built its answer;
- `@PreUpdate` runs then, and only when one of the order's own columns
  changed. A changed item list alone does not count.

### The caches

The caches are a class `CacheManager`. The central invariant,
`Caching.Coherent`, says that every cached value is exactly what the store
would answer now:

- a cached `"order"[id]` equals the response for order `id`;
- a cached `"orders"` list equals the responses of all orders.

Every service operation keeps this invariant. Its proof is what the eviction
discipline of each mutation has to achieve:

- `create` evicts only `"orders"`. Its new id can never be cached yet, since
  `findById` of a missing id throws and caches nothing.
- `update` and `delete` evict both caches entirely.
- Every item operation evicts both caches.

## Model

| member | source | states |
|---|---|---|
| Entity.Order.Build | src/main/java/com/example/ordermanagement/entity/Order.java:22-52 | a built order has the four given fields, status PENDING, payment status UNPAID, an empty item list and every other field null |
| Entity.Item.Build | src/main/java/com/example/ordermanagement/service/OrderService.java:65-73 | the item builder sets every field to the given value |
| Entity.Order.CalculateTotalAmount | src/main/java/com/example/ordermanagement/entity/Order.java:67-73 | with a list, the total becomes the sum of price times quantity (0 for an empty list); with no list, the total is left unchanged |
| Entity.Order.OnCreate | src/main/java/com/example/ordermanagement/entity/Order.java:54-60 | the creation time is set only when it was null, and then the total is recomputed; nothing else changes |
| Entity.Order.OnUpdate | src/main/java/com/example/ordermanagement/entity/Order.java:62-65 | only the total changes, to the recomputed sum |
| Entity.Order.AddItem | src/main/java/com/example/ordermanagement/entity/Order.java:75-78 | the item is appended after the unchanged earlier items, it points back at this order, and a fully linked list stays linked |
| Entity.Order.RemoveItem | src/main/java/com/example/ordermanagement/entity/Order.java:80-83 | the list loses the first occurrence of the item, and the item's order reference becomes null whether or not the item was in the list |
| Entity.RemoveFirstShape | src/main/java/com/example/ordermanagement/entity/Order.java:80-83 | removal leaves a list without the item unchanged; otherwise it cuts out exactly the first occurrence and keeps the others in order |
| Entity.RemoveFirstCount | src/main/java/com/example/ordermanagement/entity/Order.java:80-83 | removing a present item takes away exactly one copy of it and shortens the list by one |
| Entity.SumAppend | src/main/java/com/example/ordermanagement/entity/Order.java:69-72 | the total of two lists one after the other is the sum of their totals |
| Entity.SumPositive | src/main/java/com/example/ordermanagement/entity/Order.java:67-73 | items with quantity at least 1 and a positive price give a non-negative total, which is positive when there is at least one item |
| Common.LongToStringInjective | src/main/java/com/example/ordermanagement/service/OrderService.java:43 | distinct ids give distinct not-found messages: the decimal rendering of a `long` is injective |
| Dto.ItemViolations | src/main/java/com/example/ordermanagement/dto/ItemRequest.java:20-32 | an item request has no violation exactly when sku and name are non-blank, quantity is present and at least 1, and unit price is present and positive; each broken constraint is reported under its field path with its own fixed message ("SKU is required", "Item name is required", "Quantity is required", "Quantity must be at least 1", "Unit price is required", "Unit price must be positive"); at most four violations |
| Dto.ItemViolationsApart | src/main/java/com/example/ordermanagement/dto/ItemRequest.java:20-32 | at most one violation per field, each under one of the four constrained field paths |
| Dto.ItemExtrasIrrelevant | src/main/java/com/example/ordermanagement/dto/ItemRequest.java:34-35 | imageUrl and weight never affect the validity of an item request |
| Dto.NestedViolations | src/main/java/com/example/ordermanagement/dto/OrderRequest.java:29-32 | the cascaded item checks report nothing exactly when every item request is valid |
| Dto.NestedViolationsApart | src/main/java/com/example/ordermanagement/dto/OrderRequest.java:29-32 | cascaded violations name distinct paths, each under the `items[k].` prefix of an element in range |
| Dto.TopViolations | src/main/java/com/example/ordermanagement/dto/OrderRequest.java:20-32 | the order's own constraints report at most one violation per field, only for orderNumber, customerName and items |
| Dto.OrderViolations | src/main/java/com/example/ordermanagement/dto/OrderRequest.java:20-32 | an order request has no violation exactly when orderNumber and customerName are non-blank, the item list is present and non-empty, and every item is valid |
| Dto.OrderViolationsApart | src/main/java/com/example/ordermanagement/dto/OrderRequest.java:20-32 | no two violations of an order request name the same field path |
| Dto.EmptyOrderRequestRejected | src/main/java/com/example/ordermanagement/dto/OrderRequest.java:20-32 | a request with an empty number, an empty name and an empty item list gets exactly the three field errors with their fixed messages, whatever its addresses |
| Dto.AddressesIrrelevant | src/main/java/com/example/ordermanagement/dto/OrderRequest.java:26-27 | the shipping and billing addresses never affect the validity of an order request |
| Dto.ValidRequestTotalPositive | src/main/java/com/example/ordermanagement/dto/ItemRequest.java:26-32 | valid item requests all carry a price and a quantity, and a non-empty list of them has a positive total |
| Dto.ValidOrderRequestStorable | src/main/java/com/example/ordermanagement/dto/OrderRequest.java:20-32 | a request that passes its constraints has number and customer name present and a list whose items all carry price and quantity, with a positive total |
| Mapper.ItemResponses | src/main/java/com/example/ordermanagement/mapper/OrderMapper.java:36 | the list mapping keeps the length and maps element k to the response of item k |
| Mapper.ToResponse | src/main/java/com/example/ordermanagement/mapper/OrderMapper.java:14-15 | the response carries the order's id and number, and its items one by one in list order; there is a response list exactly when the order has a list |
| Mapper.ToEntity | src/main/java/com/example/ordermanagement/mapper/OrderMapper.java:17-24 | a fresh order takes the four mapped fields; id, createdAt, totalAmount and trackingNumber are unset, and status and payment status keep their defaults whatever the request; there is one fresh, distinct, unsaved item per requested item, in order, each matching its request and linked back |
| Mapper.ItemRequestToEntity | src/main/java/com/example/ordermanagement/mapper/OrderMapper.java:38-40 | a fresh item carries the six request values, with no id and no order |
| Mapper.UpdateEntity | src/main/java/com/example/ordermanagement/mapper/OrderMapper.java:26-47 | orderNumber, customerName and both addresses take the request's values, and then (`@AfterMapping linkItems`) every item of the list points back at the order; the frame leaves id, createdAt, totalAmount, the statuses, trackingNumber, the item list and the items' other fields unchanged |
| Mapper.LinkItems | src/main/java/com/example/ordermanagement/mapper/OrderMapper.java:42-47 | every item of the list points back at the order, and only the items' order references change; with no list, nothing changes |
| Mapper.MatchingTotal | src/main/java/com/example/ordermanagement/service/OrderService.java:63-76 | items built from requests add up to the requests' total |
| Persistence.Database.LoadOrder | src/main/java/com/example/ordermanagement/service/OrderService.java:42-44 | a found order is a fresh entity whose fields are the stored row, whose items are linked back, and whose response is the store's response for that id |
| Persistence.Database.InsertOrder | src/main/java/com/example/ordermanagement/service/OrderService.java:78-79 | saving a new order runs `onCreate`, gives it the next order id and its items the next item ids, writes exactly one new order row and the item rows, keeps the store well formed, and the saved entity maps to what the store now answers |
| Persistence.PersistChanged | src/main/java/com/example/ordermanagement/service/OrderService.java:117 | `save` of a loaded order changes only the ids of its new items, which become consecutive from the item counter, and the entity then maps to the order's own fields with those items |
| Persistence.Database.DeleteOrder | src/main/java/com/example/ordermanagement/service/OrderService.java:126 | deleting an order removes its row and, by cascade, exactly its item rows |
| Persistence.Database.LoadItem | src/main/java/com/example/ordermanagement/service/ItemService.java:50-51 | a found item is a fresh entity holding the stored row, with its id and a reference to its order |
| Persistence.Database.InsertItem | src/main/java/com/example/ordermanagement/service/ItemService.java:44 | saving a new item writes exactly one row under the next item id |
| Persistence.Database.SaveItem | src/main/java/com/example/ordermanagement/service/ItemService.java:60 | saving a found item overwrites exactly its row and keeps its order |
| Persistence.Database.DeleteItem | src/main/java/com/example/ordermanagement/service/ItemService.java:69 | deleting an item removes exactly its row |
| Persistence.NewRowsResponse | src/main/java/com/example/ordermanagement/service/OrderService.java:78-79 | an order stored with fresh item rows reads back with exactly those items, in order, under consecutive new ids |
| Persistence.NewRowsFrame | src/main/java/com/example/ordermanagement/service/OrderService.java:78-79 | storing item rows of one order does not change what the store answers for any other order |
| Caching.CacheManager.PutOrder | src/main/java/com/example/ordermanagement/service/OrderService.java:40 | `@Cacheable("order", key = id)` stores a value under exactly that id |
| Caching.CacheManager.PutOrders | src/main/java/com/example/ordermanagement/service/OrderService.java:32 | `@Cacheable("orders")` stores the whole list |
| Caching.CacheManager.EvictOrders | src/main/java/com/example/ordermanagement/service/OrderService.java:47 | `@CacheEvict("orders", allEntries)` clears `"orders"` and leaves `"order"` as it was |
| Caching.CacheManager.EvictAll | src/main/java/com/example/ordermanagement/service/OrderService.java:82 | `@CacheEvict({"order","orders"}, allEntries)` clears both caches, whatever the key |
| OrderServices.OrderService.FindAll | src/main/java/com/example/ordermanagement/service/OrderService.java:31-37 | the answer is the response of every stored order; a cached list is returned as is and the cache keeps it; on a miss the answer is cached; the caches stay coherent |
| OrderServices.OrderService.FindById | src/main/java/com/example/ordermanagement/service/OrderService.java:39-45 | a missing id throws "Order not found with id: <id>" and caches nothing; otherwise the answer is the stored order's response, a cache hit returns the cached value unchanged, and a miss caches the answer under that id |
| OrderServices.OrderService.Create | src/main/java/com/example/ordermanagement/service/OrderService.java:47-80 | a taken order number throws "Order number already exists: <n>" and changes nothing. Success holds exactly when the number is free, every item has price and quantity, and number and name are present. Then one order is inserted with the request's items in order under new ids, the other orders read back unchanged, `"orders"` is cleared, `"order"` is kept, and the caches stay coherent |
| OrderServices.OrderService.BuildOrder | src/main/java/com/example/ordermanagement/service/OrderService.java:55-76 | the built order has the request's four fields, the defaults, and one fresh, distinct item per requested item, in order, each matching its request; nothing is set before the save (no id, no creation time) |
| OrderServices.AddRequestedItems | src/main/java/com/example/ordermanagement/service/OrderService.java:63-76 | the loop of `addItem` calls leaves exactly one fresh, distinct, linked item per request, each matching its request |
| OrderServices.InsertedShape | src/main/java/com/example/ordermanagement/service/OrderService.java:78-79 | after a create, the new order reads back with its creation time, total and requested items, and every earlier order reads back as before |
| OrderServices.OrderService.Update | src/main/java/com/example/ordermanagement/service/OrderService.java:82-119 | a missing id throws not-found. A change of number to one that exists throws the duplicate error, and keeping the same number never conflicts. Otherwise it fails only when one of the four fields changed and then an item lacks price or quantity, or number or name is null. On success the old items are gone, the requested items are stored in order, the row is `UpdatedRow` (new total only when a field changed), the answer carries the total the order was loaded with, and both caches are cleared; on failure nothing changes |
| OrderServices.OrderService.Refill | src/main/java/com/example/ordermanagement/service/OrderService.java:96-115 | after the list is cleared and refilled and `updateEntity` runs, the order holds exactly the requested items (fresh, distinct, each matching its request and linked back) and the request's four fields, and the rest of its row, the total included, is unchanged |
| OrderServices.OrderService.SaveChanged | src/main/java/com/example/ordermanagement/service/OrderService.java:117-118 | the save and commit succeed exactly when, if a field of the row changed, every item is priced and number and name are present; then the order is replaced as `Replaced` describes, and the answer is the refilled entity with its loaded total and the new item ids; a failure changes nothing |
| OrderServices.OrderService.Flush | src/main/java/com/example/ordermanagement/entity/Order.java:62-65 | at commit the total is recomputed only when a column of the row differs from the loaded one; that fails exactly when an item lacks price or quantity, and otherwise the entity's row is `UpdatedRow` |
| OrderServices.OrderService.Commit | src/main/java/com/example/ordermanagement/service/OrderService.java:117 | the commit fails on a missing price or quantity only when the row changed, and on a null number or name; otherwise it writes the updated row and replaces the order's item rows as `Replaced` describes; a failure changes nothing |
| OrderServices.RefilledRow | src/main/java/com/example/ordermanagement/mapper/OrderMapper.java:26-33 | the refilled row equals the loaded row exactly when none of the four request fields differs |
| OrderServices.ReplacedShape | src/main/java/com/example/ordermanagement/service/OrderService.java:96-118 | after an update, the order reads back with `UpdatedRow` (the loaded total kept when no field changed) and exactly the requested items under new ids, and none of its old item ids remains |
| OrderServices.OrderService.Delete | src/main/java/com/example/ordermanagement/service/OrderService.java:121-127 | a missing id throws not-found and removes nothing; otherwise exactly that order and its items are removed and both caches are cleared |
| ItemServices.Overwrite | src/main/java/com/example/ordermanagement/service/ItemService.java:53-58 | the six setters give the item exactly the request's six values; the frame keeps its id and order |
| ItemServices.ItemService.Create | src/main/java/com/example/ordermanagement/service/ItemService.java:29-46 | a missing order throws "Order not found with id: <orderId>" and saves nothing; otherwise exactly one item row carrying the request's six values is saved under the next id for that order, the response is that row, and both caches are cleared |
| ItemServices.ItemService.Update | src/main/java/com/example/ordermanagement/service/ItemService.java:48-62 | a missing id throws "Item not found with id: <id>"; otherwise only that item's row changes, to the request's six values under the same order, and both caches are cleared |
| ItemServices.ItemService.Delete | src/main/java/com/example/ordermanagement/service/ItemService.java:64-70 | a missing id throws and removes nothing; otherwise exactly that item row goes and both caches are cleared |
| ExceptionHandling.StatusOf | src/main/java/com/example/ordermanagement/exception/GlobalExceptionHandler.java:21-87 | 404 exactly for not-found, 409 exactly for a duplicate number, 400 exactly for a validation failure, and 500 for every other exception |
| ExceptionHandling.Handle | src/main/java/com/example/ordermanagement/exception/GlobalExceptionHandler.java:21-87 | the response has the status and error text of the exception's handler, the exception's message ("Invalid input data" for validation) and the description without "uri="; a field map is present exactly for validation failures, where it is the last-wins map of the field errors |
| ExceptionHandling.PathOfDescription | src/main/java/com/example/ordermanagement/exception/GlobalExceptionHandler.java:31 | taking "uri=" out of the request description gives back the request path when that path has no "uri=" of its own |
| ExceptionHandling.CollectFieldErrors | src/main/java/com/example/ordermanagement/exception/GlobalExceptionHandler.java:57-62 | the `forEach`/`put` loop builds the last-wins map of the field errors |
| ExceptionHandling.LastWinsFields | src/main/java/com/example/ordermanagement/exception/GlobalExceptionHandler.java:57-62 | the map has an entry for exactly the fields some error names |
| ExceptionHandling.LastWinsMessage | src/main/java/com/example/ordermanagement/exception/GlobalExceptionHandler.java:57-62 | a field's entry is the message of the last error naming it |
| OrderEndpoints.ValidationErrorsComplete | src/main/java/com/example/ordermanagement/exception/GlobalExceptionHandler.java:57-62 | for a rejected order request, every broken constraint appears in the field map with its own message, so the order in which violations are reported does not matter |
| OrderEndpoints.Respond | src/main/java/com/example/ordermanagement/exception/GlobalExceptionHandler.java:21-87 | an endpoint's answer passes through unchanged; an exception becomes the handler's error body, with the handler's status and path and no Location |
| OrderEndpoints.AscendingSpellings | src/main/java/com/example/ordermanagement/controller/OrderController.java:49-51 | the sort is ascending exactly for the three-letter case-insensitive spellings of "asc"; every other value, "desc" included, sorts descending |
| OrderEndpoints.PageRequest | src/main/java/com/example/ordermanagement/controller/OrderController.java:44-52 | page and size take the parameter or its default; sort field and direction take the parameter unless it is absent or empty, and then "createdAt" and "desc"; the sort field is never empty |
| OrderEndpoints.DefaultPageRequest | src/main/java/com/example/ordermanagement/controller/OrderController.java:44-51 | with no parameters, or empty sort parameters: page 0, size 10, sorted by createdAt, descending |
| OrderEndpoints.OrderController.GetAllOrders | src/main/java/com/example/ordermanagement/controller/OrderController.java:43-56 | 200 with the responses of all stored orders |
| OrderEndpoints.OrderController.GetOrderById | src/main/java/com/example/ordermanagement/controller/OrderController.java:63-68 | 200 with the stored order's response; a missing id gives the not-found exception |
| OrderEndpoints.OrderController.CreateOrder | src/main/java/com/example/ordermanagement/controller/OrderController.java:75-89 | an invalid body is rejected with its violations before the service runs, and nothing changes; a valid one succeeds exactly when its number is free, and a taken number passes the duplicate error through; success is 201 with Location `<request URI>/<new id>` and the created order as body |
| OrderEndpoints.OrderController.UpdateOrder | src/main/java/com/example/ordermanagement/controller/OrderController.java:97-103 | an invalid body is rejected with its violations and nothing changes; a valid one succeeds exactly when the id exists and the number is kept or free, a missing id gives not-found and a taken number the duplicate error; success is 200 with the order as now stored, except for the total, which is the one it had before |
| OrderEndpoints.OrderController.DeleteOrder | src/main/java/com/example/ordermanagement/controller/OrderController.java:110-115 | a missing id gives not-found; otherwise 204 with no body, and the order is gone |
| WebSecurity.FirstMatch | src/main/java/com/example/ordermanagement/config/WebConfig.java:79-87 | rules are consulted in declaration order: the chosen rule matches and no earlier rule does, and -1 means no rule matches |
| WebSecurity.DecideByPatterns | src/main/java/com/example/ordermanagement/config/WebConfig.java:80-86 | some rule always matches (the catch-all), and a path is permitted without authentication exactly when it falls under one of the seven public patterns |
| WebSecurity.OrderAndItemPathsProtected | src/main/java/com/example/ordermanagement/config/WebConfig.java:80-86 | every path starting with /api/orders or /api/items requires authentication |
| WebSecurity.AuthChild | src/main/java/com/example/ordermanagement/config/WebConfig.java:81 | every path under /api/auth/ is permitted |
| WebSecurity.AuthEndpointsPublic | src/main/java/com/example/ordermanagement/config/WebConfig.java:81 | the login and refresh endpoints are permitted without authentication |
| WebSecurity.CorsPolicy | src/main/java/com/example/ordermanagement/config/WebConfig.java:144-160 | on every path, a cross-origin request is allowed exactly for origin http://localhost:4200 and the methods GET, POST, PUT, DELETE and OPTIONS, with credentials and all headers allowed |
| Authentication.RefreshTokenStore.CreateRefreshToken | src/main/java/com/example/ordermanagement/controller/AuthController.java:38 | the new record holds the token, the username and the expiry, and is stored under its token |
| Authentication.AuthController.Login | src/main/java/com/example/ordermanagement/controller/AuthController.java:33-46 | success holds exactly when authentication succeeds. Then the access token is generated for the username, and the refresh token is that of the record just stored for the same user. A not-authenticated result throws "invalid user request !", and a failed authentication propagates its exception; neither touches the store |
| Authentication.AuthController.Refresh | src/main/java/com/example/ordermanagement/controller/AuthController.java:48-60 | an unknown token throws "Refresh token is not in database!", and a failed expiry check propagates its exception. Success holds exactly when the token is stored and passes the check; the presented token is echoed back, and the access token is generated for the checked record's user |
| Authentication.LoginThenRefresh | src/main/java/com/example/ordermanagement/controller/AuthController.java:48-60 | refreshing with a stored, unexpired token gives an access token generated for its user and the same refresh token (no rotation) |
| Seeding.Admin | src/main/java/com/example/ordermanagement/config/DataInitializer.java:20-26 | the admin user: name admin, the encoder's output for "admin", admin@example.com, roles {ADMIN}, active |
| Seeding.StandardUser | src/main/java/com/example/ordermanagement/config/DataInitializer.java:32-38 | the standard user: name user, the encoder's output for "password", user@example.com, roles {USER}, active |
| Seeding.AddIfAbsent | src/main/java/com/example/ordermanagement/config/DataInitializer.java:19-29 | a user is added when the name is absent; a present name leaves the store unchanged; the name is present afterwards |
| Seeding.Seeded | src/main/java/com/example/ordermanagement/config/DataInitializer.java:18-41 | after seeding, the names are the old ones plus admin and user |
| Seeding.UserRepository.FindByUsername | src/main/java/com/example/ordermanagement/config/DataInitializer.java:19 | the lookup finds a user exactly when the name is stored, and returns that user |
| Seeding.UserRepository.Save | src/main/java/com/example/ordermanagement/config/DataInitializer.java:27 | saving stores the user under its name and changes nothing else |
| Seeding.InitData | src/main/java/com/example/ordermanagement/config/DataInitializer.java:17-43 | the two guarded inserts leave the repository equal to the seeded store of its old contents |
| Seeding.SeededKeepsExisting | src/main/java/com/example/ordermanagement/config/DataInitializer.java:19-41 | users already present are neither modified nor re-created; a missing admin or user is the seeded one |
| Seeding.SeededIdempotent | src/main/java/com/example/ordermanagement/config/DataInitializer.java:18-41 | running the initializer twice leaves the same store as running it once |

## Left out

- Paging of `findAll`: `controller/OrderController.java` line 54 calls
  `orderService.findAll(pageable)` and expects a `PagedResponse`, but the
  service declares only the argument-less `findAll()` returning the whole
  list. The model follows the service. `GetAllOrders` builds the page request
  (see `PageRequest`) and answers with every order. It does not slice a page
  or sort. The argument checks of `PageRequest.of` and `Sort.by` (negative
  page, size below 1, empty sort field) are not modelled either.
- Order of listed data: the store answers `findAll` in ascending order id,
  and an order's items in ascending item id. The source's queries state no
  order; this is a choice of the model.
- `ItemResponse.weight` is a `Double` converted from the stored decimal. The
  floating-point conversion is left out, and the response carries the stored
  value.
- JWT signing and verification, refresh-token persistence, refresh-token
  expiry, BCrypt and the `AuthenticationManager` are parameters: the
  authentication result, the token generator, the new token string, its
  expiry and the expiry check. `RefreshTokenService` and `JwtService` are
  not part of this model.
- Authentication.AuthController.Refresh: the expiry check is a pure
  function. The deletion of an expired record that the token service may
  perform as a side effect is not modelled, nor is a record whose user is
  null.
- `entity/Item.java`, `OrderStatus.java`, `PaymentStatus.java`, `User.java`,
  `UserRepository.java`, `AuthRequest.java`, `AuthResponse.java`,
  `RefreshToken.java`, `ErrorResponse.java` and the exception classes are not
  part of this model. Their fields are the ones the modelled code reads and
  writes. Of the two enums, only the defaults PENDING and UNPAID are named.
- Entity.Order.RemoveItem compares items by object identity. `Item` defines
  no `equals` that the model can see.
- Persistence: the JPA persistence context, lazy loading, transactions,
  isolation and concurrent access to the caches are not modelled. The store
  is a single sequential state. Of the flush, the model keeps what decides
  the outcome of `update`: new items numbered at `save`, the dirty check of
  the order row and `@PreUpdate` at commit.
- OrderServices.OrderService.Update: the answer carries the total the order
  was loaded with, not the requested items' total, since it is built before
  the commit. An update that changes only the items keeps the old total in
  the store as well. The model states both as the source does them.
- OrderServices.OrderService.Update: when the commit fails, the caches are
  taken to stay as they were. Whether the eviction runs before a commit that
  fails depends on the order of the cache and transaction interceptors, which
  is not modelled.
- OrderServices.OrderService.Create: `totalAmount` is a `DECIMAL(10, 2)`
  column (`entity/Order.java` lines 35-36). A total above 99,999,999.99 is
  rejected by the database, and digits below the cent are rounded. The model's
  total is an unbounded integer of minor units, so `Create` and `Update`
  promise success for such totals too.
- Dto.NestedViolations: a JSON `null` element of `items` cannot be written as
  a `seq<ItemRequest>`. In the source `@Valid` skips such an element, and the
  service then fails on it with a `NullPointerException` (a 500 answer). That
  path is not modelled.
- Item operations do not recompute the order's stored total. The source saves
  only the item, so the order's total stays as it was until the order itself
  is saved again. The model keeps that stale total rather than correcting it.
- Exceptions from the persistence provider (a null unit price or quantity met
  by the total, a null number or name rejected by the schema) are the
  `Internal` error. Their messages are not modelled, and the handler's 500
  answer carries no message for them.
- OrderEndpoints.OrderController.CreateOrder: the `Location` header is the
  request URI followed by "/" and the id. The query string and the URI
  builder's normalisation are not modelled.
- OrderEndpoints.PageRequest: page and size arrive as numbers, an empty
  value as absent. The conversion error of a value that is not a number is
  not modelled. Which spellings sort ascending is stated by
  `AscendingSpellings`.
- `Character.toUpperCase` and `toLowerCase` are modelled only on the
  characters whose case mapping reaches an ASCII letter. This is exact for
  the comparison with "ASC" but not a general case mapping.
- WebSecurity.CorsPolicy: the pattern `/**` is modelled as "every path
  starting with /". Spring's path-pattern parsing of other patterns is not
  modelled.
- CSRF, session policy, frame options, the JWT filter, Swagger annotations,
  logging (`aop/LoggingAspect.java` and the handler's log calls), the
  `System.out.println` of the initializer, the item endpoints of
  `controller/ItemController.java` (plain forwarding to the item service) and
  the application bootstrap are not modelled.
- `LocalDateTime.now()` is the `now` parameter of `Create`.
