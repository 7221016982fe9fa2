/**
 Properties relating several calls of the CRUD operations: what a get sees after
 a create, update or delete; idempotence of delete and update; the legacy
 truthiness merge (no-op updates, values that can never be cleared); keys never
 reused; and preservation of the declared foreign keys.
 */
module DbProperties {
  import opened Wrappers
  import opened Models
  import opened Truthiness
  import opened Database
  import opened DbOperations

  // ---------------------------------------------------------------- create then get

  /** The created user is what a get of its key now returns; every other key reads as before. */
  lemma GetAfterCreateUser(s: Store, username: Option<string>, email: Option<string>,
                           passwordHash: Option<string>, now: Timestamp)
    requires Valid(s)
    ensures var r := CreateUser(s, username, email, passwordHash, now);
      && (r.1.Success? ==> GetUser(r.0, r.1.value.userId) == Some(r.1.value))
      && (r.1.Success? ==> GetUser(s, r.1.value.userId) == None)
      && (forall k :: r.1.Success? && k != r.1.value.userId ==> GetUser(r.0, k) == GetUser(s, k))
  {
  }

  /** Same for products: the created row is readable under its new key and nothing else moves. */
  lemma GetAfterCreateProduct(s: Store, name: Option<string>, description: Option<string>,
                              price: Option<Money>, now: Timestamp)
    requires Valid(s)
    ensures var r := CreateProduct(s, name, description, price, now);
      && (r.1.Success? ==> GetProduct(r.0, r.1.value.productId) == Some(r.1.value))
      && (r.1.Success? ==> GetProduct(s, r.1.value.productId) == None)
      && (forall k :: r.1.Success? && k != r.1.value.productId ==> GetProduct(r.0, k) == GetProduct(s, k))
  {
  }

  /** Same for orders. */
  lemma GetAfterCreateOrder(s: Store, userId: Option<int>, totalAmount: Option<Money>, now: Timestamp)
    requires Valid(s)
    ensures var r := CreateOrder(s, userId, totalAmount, now);
      && (r.1.Success? ==> GetOrder(r.0, r.1.value.orderId) == Some(r.1.value))
      && (r.1.Success? ==> GetOrder(s, r.1.value.orderId) == None)
      && (forall k :: r.1.Success? && k != r.1.value.orderId ==> GetOrder(r.0, k) == GetOrder(s, k))
  {
  }

  /** Same for order items. */
  lemma GetAfterCreateOrderItem(s: Store, orderId: Option<int>, productId: Option<int>, quantity: Option<int>)
    requires Valid(s)
    ensures var r := CreateOrderItem(s, orderId, productId, quantity);
      && (r.1.Success? ==> GetOrderItem(r.0, r.1.value.orderItemId) == Some(r.1.value))
      && (r.1.Success? ==> GetOrderItem(s, r.1.value.orderItemId) == None)
      && (forall k :: r.1.Success? && k != r.1.value.orderItemId ==> GetOrderItem(r.0, k) == GetOrderItem(s, k))
  {
  }

  /** A key freed by a delete is never handed out again by the next create. */
  lemma DeletedUserKeyNotReused(s: Store, userId: int, username: Option<string>, email: Option<string>,
                                passwordHash: Option<string>, now: Timestamp)
    requires Valid(s)
    requires userId in s.users.rows
    ensures var s1 := DeleteUser(s, userId).0;
      var r := CreateUser(s1, username, email, passwordHash, now);
      r.1.Success? ==> r.1.value.userId != userId
  {
  }

  // ---------------------------------------------------------------- delete

  /** After deleting a user, a get yields None; a second delete yields None and changes nothing. */
  lemma DeleteUserIdempotent(s: Store, userId: int)
    ensures var s1 := DeleteUser(s, userId).0;
      && GetUser(s1, userId) == None
      && DeleteUser(s1, userId) == (s1, None)
  {
  }

  /** The same for products. */
  lemma DeleteProductIdempotent(s: Store, productId: int)
    ensures var s1 := DeleteProduct(s, productId).0;
      && GetProduct(s1, productId) == None
      && DeleteProduct(s1, productId) == (s1, None)
  {
  }

  /** The same for orders. */
  lemma DeleteOrderIdempotent(s: Store, orderId: int)
    ensures var s1 := DeleteOrder(s, orderId).0;
      && GetOrder(s1, orderId) == None
      && DeleteOrder(s1, orderId) == (s1, None)
  {
  }

  /** The same for order items. */
  lemma DeleteOrderItemIdempotent(s: Store, orderItemId: int)
    ensures var s1 := DeleteOrderItem(s, orderItemId).0;
      && GetOrderItem(s1, orderItemId) == None
      && DeleteOrderItem(s1, orderItemId) == (s1, None)
  {
  }

  // ---------------------------------------------------------------- update: the merge rule

  /** An update supplying only falsy values (None, "") leaves the store exactly as it was. */
  lemma UpdateUserFalsyIsNoOp(s: Store, userId: int, username: Option<string>, email: Option<string>)
    requires !TruthyText(username) && !TruthyText(email)
    ensures UpdateUser(s, userId, username, email).0 == s
    ensures UpdateUser(s, userId, username, email).1 == GetUser(s, userId)
  {
  }

  /** Repeating a user update changes nothing further. */
  lemma UpdateUserIdempotent(s: Store, userId: int, username: Option<string>, email: Option<string>)
    ensures var r := UpdateUser(s, userId, username, email);
      UpdateUser(r.0, userId, username, email) == r
  {
    var r := UpdateUser(s, userId, username, email);
    if userId in s.users.rows {
      var u := r.1.value;
      assert r.0.users.rows[userId] == u;
      var again := UpdateUser(r.0, userId, username, email);
      assert again.1.value == u;
      assert again.0.users.rows == r.0.users.rows[userId := u] == r.0.users.rows;
    }
  }

  /** After an update, a get returns the row the update reported. */
  lemma GetAfterUpdateUser(s: Store, userId: int, username: Option<string>, email: Option<string>)
    ensures var r := UpdateUser(s, userId, username, email);
      GetUser(r.0, userId) == r.1
  {
  }

  /** None, "" and a zero price all keep the stored product unchanged. */
  lemma UpdateProductFalsyIsNoOp(s: Store, productId: int, name: Option<string>, description: Option<string>,
                                 price: Option<Money>)
    requires !TruthyText(name) && !TruthyText(description) && !TruthyNumber(price)
    ensures UpdateProduct(s, productId, name, description, price).0 == s
    ensures UpdateProduct(s, productId, name, description, price).1 == GetProduct(s, productId)
  {
  }

  /**
   Values an update can never produce: a price of zero, a null description or an
   empty description appear after an update only if they were already stored.
   */
  lemma UpdateProductCannotClear(s: Store, productId: int, name: Option<string>, description: Option<string>,
                                 price: Option<Money>)
    requires productId in s.products.rows
    ensures var before := s.products.rows[productId];
      var after := UpdateProduct(s, productId, name, description, price).1.value;
      && (after.price == 0 ==> before.price == 0)
      && (after.description == None ==> before.description == None)
      && (after.description == Some("") ==> before.description == Some(""))
      && (after.name == "" ==> before.name == "")
  {
  }

  /** Repeating a product update changes nothing further. */
  lemma UpdateProductIdempotent(s: Store, productId: int, name: Option<string>, description: Option<string>,
                                price: Option<Money>)
    ensures var r := UpdateProduct(s, productId, name, description, price);
      UpdateProduct(r.0, productId, name, description, price) == r
  {
    var r := UpdateProduct(s, productId, name, description, price);
    if productId in s.products.rows {
      var p := r.1.value;
      assert r.0.products.rows[productId] == p;
      var again := UpdateProduct(r.0, productId, name, description, price);
      assert again.1.value == p;
      assert again.0.products.rows == r.0.products.rows[productId := p] == r.0.products.rows;
    }
  }

  /**
   The legacy quirk on a concrete store: a product created at price 500 and then
   updated with price 0 still costs 500.
   */
  lemma ZeroPriceUpdateKeepsPrice(now: Timestamp)
    ensures var s0 := EmptyStore();
      var c := CreateProduct(s0, Some("p1"), None, Some(500), now);
      && c.1.Success?
      && var u := UpdateProduct(c.0, c.1.value.productId, None, None, Some(0));
      && u.1.Some?
      && u.1.value.price == 500
      && u.0 == c.0
  {
  }

  /** An order update with None or a zero amount leaves the store as it was. */
  lemma UpdateOrderFalsyIsNoOp(s: Store, orderId: int, totalAmount: Option<Money>)
    requires !TruthyNumber(totalAmount)
    ensures UpdateOrder(s, orderId, totalAmount).0 == s
    ensures UpdateOrder(s, orderId, totalAmount).1 == GetOrder(s, orderId)
  {
  }

  /** An order's total can be changed to any non-zero amount, but never to zero. */
  lemma UpdateOrderTotal(s: Store, orderId: int, totalAmount: Option<Money>)
    requires orderId in s.orders.rows
    ensures var after := UpdateOrder(s, orderId, totalAmount).1.value;
      && (after.totalAmount == 0 ==> s.orders.rows[orderId].totalAmount == 0)
      && (after.totalAmount != s.orders.rows[orderId].totalAmount ==> totalAmount == Some(after.totalAmount))
  {
  }

  /** A negative quantity is truthy and is stored as given; zero and None are ignored. */
  lemma UpdateOrderItemQuantity(s: Store, orderItemId: int, quantity: int)
    requires orderItemId in s.items.rows
    ensures quantity < 0 ==> UpdateOrderItem(s, orderItemId, Some(quantity)).1.value.quantity == quantity
    ensures UpdateOrderItem(s, orderItemId, Some(0)).0 == s
    ensures UpdateOrderItem(s, orderItemId, None).0 == s
  {
  }

  // ---------------------------------------------------------------- declared foreign keys

  /** Creating a user or a product never breaks a reference. */
  lemma CreateUserOrProductKeepsReferences(s: Store, now: Timestamp,
                                           username: Option<string>, email: Option<string>,
                                           passwordHash: Option<string>, name: Option<string>,
                                           description: Option<string>, price: Option<Money>)
    requires Valid(s) && ReferencesResolve(s)
    ensures ReferencesResolve(CreateUser(s, username, email, passwordHash, now).0)
    ensures ReferencesResolve(CreateProduct(s, name, description, price, now).0)
  {
  }

  /** No update touches a reference column or a key set, so every update keeps the references resolving. */
  lemma UpdatesKeepReferences(s: Store, id: int, username: Option<string>, email: Option<string>,
                              name: Option<string>, description: Option<string>, price: Option<Money>,
                              totalAmount: Option<Money>, quantity: Option<int>)
    requires ReferencesResolve(s)
    ensures ReferencesResolve(UpdateUser(s, id, username, email).0)
    ensures ReferencesResolve(UpdateProduct(s, id, name, description, price).0)
    ensures ReferencesResolve(UpdateOrder(s, id, totalAmount).0)
    ensures ReferencesResolve(UpdateOrderItem(s, id, quantity).0)
  {
  }

  /** An order whose user reference resolves keeps the foreign keys intact. */
  lemma CreateOrderKeepsReferences(s: Store, userId: Option<int>, totalAmount: Option<Money>, now: Timestamp)
    requires Valid(s) && ReferencesResolve(s)
    requires Resolves(userId, s.users.rows)
    ensures ReferencesResolve(CreateOrder(s, userId, totalAmount, now).0)
  {
  }

  /** An order item whose order and product references resolve keeps the foreign keys intact. */
  lemma CreateOrderItemKeepsReferences(s: Store, orderId: Option<int>, productId: Option<int>, quantity: Option<int>)
    requires Valid(s) && ReferencesResolve(s)
    requires Resolves(orderId, s.orders.rows) && Resolves(productId, s.products.rows)
    ensures ReferencesResolve(CreateOrderItem(s, orderId, productId, quantity).0)
  {
  }

  /** Deleting an item never breaks a reference; deleting a user, product or order does not when nothing references it. */
  lemma DeletesKeepReferences(s: Store, id: int)
    requires ReferencesResolve(s)
    ensures ReferencesResolve(DeleteOrderItem(s, id).0)
    ensures UserUnreferenced(s, id) ==> ReferencesResolve(DeleteUser(s, id).0)
    ensures ProductUnreferenced(s, id) ==> ReferencesResolve(DeleteProduct(s, id).0)
    ensures OrderUnreferenced(s, id) ==> ReferencesResolve(DeleteOrder(s, id).0)
  {
  }
}
