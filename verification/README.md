# Order-management data layer, modelled in Dafny

This project models the persistence core of a small order-management service.
The service keeps four tables: `users`, `products`, `orders` and `order_items`.
It offers create, get, update and delete on each of them, plus the HTTP handlers that call those operations.

The model is an in-memory store with one table per entity.
Each table maps an integer primary key to an immutable record and carries the sequence that hands out the next key.
Every operation is a pure transition that returns the new store together with the record or an absent/error result.

- `Wrappers`: `Option` and `Result`.
- `Tables`: a generic keyed table with its key sequence. It provides find, append, replace, remove, and `Extends`, which says "a later state whose new rows all have newly issued keys".
- `Models`: the `User`, `Product`, `Order` and `OrderItem` records with the schema's nullability. Nullable columns are `Option`s. It also has the NOT NULL check a table applies on insert.
- `Truthiness`: Python's `if value:` for optional strings and numbers, and the merge rule that every partial update uses.
- `Database`: the `Store`, its well-formedness (`Valid`), and the declared foreign keys as a predicate (`ReferencesResolve`).
- `DbOperations`: the sixteen CRUD operations.
- `DbProperties`: lemmas relating several CRUD calls.
- `Api`: the HTTP handlers, reduced to their decisions.
- `Server`: dispatch of a request to its handler, and serving a sequence of requests.
- `ApiProperties`: lemmas about the handlers and about whole request sequences.

Conventions:

- Money (`price`, `total_amount`) is an exact decimal column. It is held as an `int` counting the smallest currency unit, never as a real or a float.
- Creation timestamps are opaque `Timestamp` values. They are passed in as `now` and never modified.
- Keys come from a per-table sequence that starts at 1, like the backend's serial key. A create therefore never reuses a key, including one freed by an earlier delete.
- Creates take `Option` arguments for the columns the schema declares NOT NULL. A missing one is rejected with `NotNullViolation`, and the store is left unchanged. The HTTP handlers always supply those columns, because request bodies arrive already parsed.

Where the intended design of the service and its code disagree, the model follows the code:

- The code checks no foreign key before a write. Foreign keys appear here only as the store predicate `ReferencesResolve`, with lemmas giving the conditions under which each operation keeps it.
- The code does not reject zero or negative quantities. A negative quantity is stored.
- Partial updates use plain truthiness, not a "present vs. absent" signal. `None`, `""` and `0` all mean "keep the current value".
- The order-item handlers write first and check the parent order afterwards (see Findings).

## Model

| member | source | states |
|---|---|---|
| Models.NewUser | app/database/models.py:11-18 | a users row is built exactly when username, email and password_hash are all non-null; otherwise the rejection names a null mandatory column |
| Models.NewProduct | app/database/models.py:21-28 | a products row is built exactly when name and price are non-null; a null description is stored as null |
| Models.NewOrder | app/database/models.py:31-37 | an orders row is built exactly when total_amount is non-null; user_id may be null and is stored as given |
| Models.NewOrderItem | app/database/models.py:40-46 | an order_items row is built exactly when quantity is non-null; order_id and product_id may be null |
| Truthiness.MergeText | app/database/db_operations.py:21-24 | the merged text is either the current value or a non-empty supplied value; it differs from the current value only when the supply is truthy |
| Truthiness.MergeNullableText | app/database/db_operations.py:57-58 | a nullable text column changes only to a truthy supplied value, so it is never set to null or "" |
| Truthiness.MergeNumber | app/database/db_operations.py:59-60 | the merged number is either the current value or a non-zero supplied value (negative values included) |
| DbOperations.CreateUser | app/database/db_operations.py:5-11 | succeeds iff all mandatory fields are supplied; the new row has a key no row had, drawn from the sequence, and carries the supplied values; all other rows and tables are unchanged; on failure the store is unchanged |
| DbOperations.GetUser | app/database/db_operations.py:14-15 | returns the row stored under the key, whose user_id is that key, or None iff there is none |
| DbOperations.UpdateUser | app/database/db_operations.py:18-27 | a missing key gives None and an unchanged store; otherwise username and email are overwritten only by truthy values, and user_id, password_hash and created_at never change; only that row changes |
| DbOperations.DeleteUser | app/database/db_operations.py:30-35 | returns the removed row's snapshot, or None iff absent; removes exactly that key; the store is unchanged when the key is absent |
| DbOperations.CreateProduct | app/database/db_operations.py:39-44 | succeeds iff name and price are supplied; fresh key from the sequence; description stored as given, null included; nothing else changes |
| DbOperations.GetProduct | app/database/db_operations.py:47-48 | returns the row under the key, or None iff there is none |
| DbOperations.UpdateProduct | app/database/db_operations.py:51-63 | missing key gives None and changes nothing; name, description and price are overwritten only by truthy values; product_id and created_at never change |
| DbOperations.DeleteProduct | app/database/db_operations.py:66-72 | returns the removed snapshot or None; removes exactly that key; nothing else changes |
| DbOperations.CreateOrder | app/database/db_operations.py:76-81 | succeeds iff total_amount is supplied; fresh key; user_id and total stored as given, order_date is the creation time |
| DbOperations.GetOrder | app/database/db_operations.py:84-85 | returns the row under the key, or None iff there is none |
| DbOperations.UpdateOrder | app/database/db_operations.py:88-95 | missing key gives None and changes nothing; only total_amount can change, and only to a non-zero amount; order_id, user_id and order_date never change |
| DbOperations.DeleteOrder | app/database/db_operations.py:98-103 | returns the removed snapshot or None; removes exactly that key; nothing else changes |
| DbOperations.CreateOrderItem | app/database/db_operations.py:107-113 | succeeds iff quantity is supplied; fresh key; order_id, product_id and quantity stored as given, with no reference check |
| DbOperations.GetOrderItem | app/database/db_operations.py:116-117 | returns the row under the key, or None iff there is none |
| DbOperations.UpdateOrderItem | app/database/db_operations.py:120-128 | missing key gives None and changes nothing; quantity is overwritten by any non-zero value; order_id and product_id never change |
| DbOperations.DeleteOrderItem | app/database/db_operations.py:131-137 | returns the removed snapshot or None; removes exactly that key; nothing else changes |
| DbProperties.GetAfterCreateUser | app/database/db_operations.py:5-15 | after a successful create, get on the new key returns the created row, the key was absent before, and every other key reads as before |
| DbProperties.GetAfterCreateProduct | app/database/db_operations.py:39-48 | the same for products |
| DbProperties.GetAfterCreateOrder | app/database/db_operations.py:76-85 | the same for orders |
| DbProperties.GetAfterCreateOrderItem | app/database/db_operations.py:107-117 | the same for order items |
| DbProperties.DeletedUserKeyNotReused | app/database/models.py:14 | a create after a delete never hands out the deleted key again |
| DbProperties.DeleteUserIdempotent | app/database/db_operations.py:30-35 | after a delete, get yields None, and a second delete yields None and leaves the store unchanged |
| DbProperties.DeleteProductIdempotent | app/database/db_operations.py:66-72 | the same for products |
| DbProperties.DeleteOrderIdempotent | app/database/db_operations.py:98-103 | the same for orders |
| DbProperties.DeleteOrderItemIdempotent | app/database/db_operations.py:131-137 | the same for order items |
| DbProperties.UpdateUserFalsyIsNoOp | app/database/db_operations.py:18-27 | an update supplying only None or "" leaves the store unchanged and returns the current row |
| DbProperties.UpdateUserIdempotent | app/database/db_operations.py:18-27 | applying the same user update twice has the same effect as applying it once |
| DbProperties.GetAfterUpdateUser | app/database/db_operations.py:18-27 | after an update, get returns the row the update reported, or None when it reported None |
| DbProperties.UpdateProductFalsyIsNoOp | app/database/db_operations.py:51-63 | an empty name, an empty or null description and a zero or null price together leave the store unchanged |
| DbProperties.UpdateProductCannotClear | app/database/db_operations.py:51-63 | after an update the price is 0, the description null or "", or the name "", only if it already was |
| DbProperties.UpdateProductIdempotent | app/database/db_operations.py:51-63 | applying the same product update twice has the same effect as applying it once |
| DbProperties.ZeroPriceUpdateKeepsPrice | app/database/db_operations.py:59-60 | concretely: a product created at price 500 and updated with price 0 still has price 500 and the store is unchanged |
| DbProperties.UpdateOrderFalsyIsNoOp | app/database/db_operations.py:88-95 | an order update with a null or zero total leaves the store unchanged |
| DbProperties.UpdateOrderTotal | app/database/db_operations.py:88-95 | an order total becomes 0 only if it was 0, and any change of total is to the supplied amount |
| DbProperties.UpdateOrderItemQuantity | app/database/db_operations.py:120-128 | a negative quantity is stored as given; a zero or null quantity leaves the store unchanged |
| DbProperties.CreateUserOrProductKeepsReferences | app/database/models.py:34-46 | creating users or products never breaks a declared foreign key |
| DbProperties.UpdatesKeepReferences | app/database/db_operations.py:18-128 | no update changes a reference column or a key set, so all four updates keep the foreign keys resolving |
| DbProperties.CreateOrderKeepsReferences | app/database/models.py:35 | an order whose user_id is null or names an existing user keeps the foreign keys resolving |
| DbProperties.CreateOrderItemKeepsReferences | app/database/models.py:44-45 | an item whose order_id and product_id are null or exist keeps the foreign keys resolving |
| DbProperties.DeletesKeepReferences | app/database/db_operations.py:30-137 | deleting an item never breaks a reference; deleting a user, product or order does not when no row references it |
| Api.CreateUserApi | app/main.py:39-43 | always answers 201 with a fresh user carrying the body's username, email and password_hash |
| Api.GetUserApi | app/main.py:46-51 | 404 "User not found" iff the key is absent, otherwise 200 with the stored row |
| Api.UpdateUserApi | app/main.py:54-60 | 404 with an unchanged store iff absent; otherwise the update with only username and email forwarded, so the stored password_hash is kept |
| Api.DeleteUserApi | app/main.py:63-68 | 404 with an unchanged store iff absent, otherwise 204 after the delete |
| Api.CreateProductApi | app/main.py:72-76 | always 201 with a fresh product carrying the body's name, optional description and price |
| Api.GetProductApi | app/main.py:79-84 | 404 "Product not found" iff absent, otherwise 200 with the row |
| Api.UpdateProductApi | app/main.py:87-93 | 404 with an unchanged store iff absent; otherwise name, description and price are forwarded to the update |
| Api.DeleteProductApi | app/main.py:96-101 | 404 with an unchanged store iff absent, otherwise 204 after the delete |
| Api.CreateOrderApi | app/main.py:105-108 | always 201 with a fresh order for the body's user_id and total |
| Api.GetOrderApi | app/main.py:111-116 | 404 "Order not found" iff absent, otherwise 200 with the row |
| Api.UpdateOrderApi | app/main.py:119-124 | 404 with an unchanged store iff absent; otherwise only total_amount is forwarded, so the stored user_id is kept |
| Api.DeleteOrderApi | app/main.py:127-132 | 404 with an unchanged store iff absent, otherwise 204 after the delete |
| Api.CreateOrderItemApi | app/main.py:136-140 | always 201 with a fresh item whose order_id is the path's order and whose product_id and quantity come from the body unchecked |
| Api.GetOrderItemApi | app/main.py:143-151 | 200 with the stored item iff it exists and its order_id equals the path's order; 404 "Order item not found" when absent, 404 "...for this order" on a mismatch |
| Api.UpdateOrderItemApi | app/main.py:154-162 | whenever the item exists, the store is the one after the quantity update, whether or not the order matches; 200 iff the order matches, else 404 |
| Api.DeleteOrderItemApi | app/main.py:165-173 | the store is always the one after the delete; 204 iff the item existed under the path's order, else 404 |
| Api.UpdateOrderItemApiChecked | app/main.py:154-162 | corrected: any 404 leaves the store unchanged; when it answers 200, it does exactly what the handler as written does |
| Api.DeleteOrderItemApiChecked | app/main.py:165-173 | corrected: any 404 leaves the store unchanged; when it answers 204, it does exactly what the handler as written does |
| Server.HandleUser | app/main.py:39-68 | a /users request changes only the users table, only with newly issued keys, and a GET or a 404 changes nothing |
| Server.HandleProduct | app/main.py:72-101 | the same for /products |
| Server.HandleOrder | app/main.py:105-132 | the same for /orders |
| Server.HandleItem | app/main.py:136-173 | an item request changes only order_items; GET never changes the store; a 404 from POST or GET changes nothing |
| Server.Handle | app/main.py:39-173 | any request keeps the store valid and only extends tables with newly issued keys; reads, and 404s other than item PUT/DELETE, leave the store unchanged |
| Server.Serve | app/main.py:39-173 | over any request sequence the store stays valid, every table only gains rows under newly issued keys, and a sequence of reads changes nothing |
| ApiProperties.AbsentMapsToNotFound | app/main.py:46-132 | for users, products and orders, get, update and delete answer 404 exactly when the store operation reports absent |
| ApiProperties.UpdateUserApiIgnoresPasswordHash | app/main.py:54-60 | two PUT /users bodies that differ only in password_hash give identical results |
| ApiProperties.UpdateOrderApiIgnoresUserId | app/main.py:119-124 | two PUT /orders bodies that differ only in user_id give identical results |
| ApiProperties.UpdateOrderItemApiIgnoresProductId | app/main.py:154-162 | two item PUT bodies that differ only in product_id give identical results |
| ApiProperties.WrongOrderUpdateStillWrites | app/main.py:154-162 | through the wrong order, an item PUT answers 404 "...for this order", yet the new quantity is stored |
| ApiProperties.WrongOrderDeleteStillRemoves | app/main.py:165-173 | through the wrong order, an item DELETE answers 404, yet the item is gone |
| ApiProperties.WrongOrderUpdateExample | app/main.py:154-162 | concretely: an item of order 1 with quantity 2, PUT through order 2 with quantity 5, answers 404 and now has quantity 5 |
| ApiProperties.CheckedHandlersAnswerAlike | app/main.py:154-173 | the corrected item handlers give the same response as the handlers as written on every input |
| ApiProperties.CheckedWrongOrderLeavesItem | app/main.py:154-173 | through the wrong order, the corrected item handlers answer 404 and leave the store unchanged |
| ApiProperties.ServeNeverReissuesKeys | app/database/models.py:14-43 | after any request sequence, a key issued before it is present only if it was present at the start, so no new row takes a deleted row's key |
| ApiProperties.OrderScenario | app/main.py:39-140 | create a user, an order of 10.00 for it, a product at 5.00 and an item of 2: the item references that order and product, and all references resolve |

## Left out

- Authentication (app/main.py:25-35) compares credentials against environment variables. Every handler here is taken as already authorised.
- Session and engine plumbing is not modelled: `get_db`, the database URL, `create_engine`, `sessionmaker`, commit/refresh, and the FastAPI/uvicorn wiring.
- Timestamps from `datetime.utcnow` are opaque values passed in as `now`. The clock itself is not modelled.
- Transactions, concurrency and lost updates belong to the database and the session. Every operation here is a single atomic step.
- Foreign-key enforcement and delete-with-dependents are left to the database, which checks them at commit. The operations themselves do no reference check. The model states the foreign keys only as `ReferencesResolve`, with preservation lemmas under store-level preconditions.
- NOT NULL rejection is enforced by the database at commit and surfaces as an exception. Here it is a `Failure` result with the store unchanged. The gap the backend's sequence may leave after a failed insert is not modelled.
- Request validation and response serialisation by pydantic (app/schemas.py) are not modelled. This includes the `orderitem_id` response field not matching the `orderitemid` column, leaving `password_hash` out of responses, and rejecting a response whose `user_id` is null.
- The console client (client.py) is not modelled. It does interactive I/O and HTTP calls, and converts prices to floats.
- Integer columns are unbounded here. The backend's 32-bit INTEGER range and its overflow are not modelled.
- DECIMAL columns declare no scale, so any fixed smallest unit is a modelling choice. Amounts finer than that unit are not represented.

## Findings

| source | as written | input that shows it | evidently intended | confidence | as-written member | corrected member |
|---|---|---|---|---|---|---|
| app/main.py:154-162 | the quantity update is committed before the item's order_id is compared with the path's order | item 1 belongs to order 1 with quantity 2; PUT /orders/2/items/1 with quantity 5 answers 404 but item 1 now has quantity 5 | reject a mismatched order before writing | high; not executed | Api.UpdateOrderItemApi, shown by ApiProperties.WrongOrderUpdateExample and ApiProperties.WrongOrderUpdateStillWrites | Api.UpdateOrderItemApiChecked, proved by ApiProperties.CheckedWrongOrderLeavesItem and ApiProperties.CheckedHandlersAnswerAlike |
| app/main.py:165-173 | the item is deleted and committed before its order_id is compared with the path's order | item 1 belongs to order 1; DELETE /orders/2/items/1 answers 404 but item 1 is gone | reject a mismatched order before deleting | high; not executed | Api.DeleteOrderItemApi, shown by ApiProperties.WrongOrderDeleteStillRemoves | Api.DeleteOrderItemApiChecked, proved by ApiProperties.CheckedWrongOrderLeavesItem and ApiProperties.CheckedHandlersAnswerAlike |

`Server.Handle` dispatches to the handlers as written, because it models the service's route table as it is. The corrected handlers show the intended behaviour. They are proved to give the same response on every input and to leave the store unchanged on every 404.
