/**
 Properties of the HTTP layer: absent rows become 404, the fields a handler
 ignores cannot influence it, the order-item handlers' write-before-check
 ordering, and the corrected handlers that check the parent order first.
 */
module ApiProperties {
  import opened Wrappers
  import opened Models
  import opened Database
  import opened DbOperations
  import opened Api
  import opened Server

  /** For users, products and orders, a handler answers 404 exactly when the store operation reports absent. */
  lemma AbsentMapsToNotFound(s: Store, id: int, user: UserCreate, product: ProductCreate, order: OrderCreate)
    ensures StatusCode(GetUserApi(s, id)) == 404 <==> GetUser(s, id).None?
    ensures StatusCode(UpdateUserApi(s, id, user).1) == 404 <==>
      UpdateUser(s, id, Some(user.username), Some(user.email)).1.None?
    ensures StatusCode(DeleteUserApi(s, id).1) == 404 <==> DeleteUser(s, id).1.None?
    ensures StatusCode(GetProductApi(s, id)) == 404 <==> GetProduct(s, id).None?
    ensures StatusCode(UpdateProductApi(s, id, product).1) == 404 <==>
      UpdateProduct(s, id, Some(product.name), product.description, Some(product.price)).1.None?
    ensures StatusCode(DeleteProductApi(s, id).1) == 404 <==> DeleteProduct(s, id).1.None?
    ensures StatusCode(GetOrderApi(s, id)) == 404 <==> GetOrder(s, id).None?
    ensures StatusCode(UpdateOrderApi(s, id, order).1) == 404 <==>
      UpdateOrder(s, id, Some(order.totalAmount)).1.None?
    ensures StatusCode(DeleteOrderApi(s, id).1) == 404 <==> DeleteOrder(s, id).1.None?
  {
  }

  /** The password_hash of a PUT /users body has no effect: two bodies that differ only there act alike. */
  lemma UpdateUserApiIgnoresPasswordHash(s: Store, userId: int, b1: UserCreate, b2: UserCreate)
    requires b1.username == b2.username && b1.email == b2.email
    ensures UpdateUserApi(s, userId, b1) == UpdateUserApi(s, userId, b2)
  {
  }

  /** The user_id of a PUT /orders body has no effect. */
  lemma UpdateOrderApiIgnoresUserId(s: Store, orderId: int, b1: OrderCreate, b2: OrderCreate)
    requires b1.totalAmount == b2.totalAmount
    ensures UpdateOrderApi(s, orderId, b1) == UpdateOrderApi(s, orderId, b2)
  {
  }

  /** The product_id of a PUT /orders/{order_id}/items/{item_id} body has no effect. */
  lemma UpdateOrderItemApiIgnoresProductId(s: Store, orderId: int, itemId: int, b1: OrderItemCreate,
                                           b2: OrderItemCreate)
    requires b1.quantity == b2.quantity
    ensures UpdateOrderItemApi(s, orderId, itemId, b1) == UpdateOrderItemApi(s, orderId, itemId, b2)
  {
  }

  /** Updating an item through an order it does not belong to answers 404, yet the new quantity is stored. */
  lemma WrongOrderUpdateStillWrites(s: Store, orderId: int, itemId: int, body: OrderItemCreate)
    requires itemId in s.items.rows && s.items.rows[itemId].orderId != Some(orderId)
    requires body.quantity != 0
    ensures var r := UpdateOrderItemApi(s, orderId, itemId, body);
      && r.1 == NotFound(ItemNotInOrder)
      && r.0.items.rows[itemId].quantity == body.quantity
      && (body.quantity != s.items.rows[itemId].quantity ==> r.0 != s)
  {
  }

  /** Deleting an item through an order it does not belong to answers 404, yet the item is gone. */
  lemma WrongOrderDeleteStillRemoves(s: Store, orderId: int, itemId: int)
    requires itemId in s.items.rows && s.items.rows[itemId].orderId != Some(orderId)
    ensures var r := DeleteOrderItemApi(s, orderId, itemId);
      && r.1 == NotFound(ItemNotInOrder)
      && itemId !in r.0.items.rows
      && r.0 != s
  {
  }

  /**
   A concrete scenario: an item created under order 1 with quantity 2, then PUT through
   order 2 with quantity 5, answers 404 and now holds quantity 5.
   */
  lemma WrongOrderUpdateExample()
    ensures var s0 := EmptyStore();
      var c := CreateOrderItemApi(s0, 1, OrderItemCreate(7, 2));
      var u := UpdateOrderItemApi(c.0, 2, 1, OrderItemCreate(7, 5));
      && c.1 == Created(ItemBody(OrderItem(1, Some(1), Some(7), 2)))
      && StatusCode(u.1) == 404
      && u.0.items.rows[1] == OrderItem(1, Some(1), Some(7), 5)
  {
  }

  /** The corrected handlers answer every request exactly as the handlers as written do. */
  lemma CheckedHandlersAnswerAlike(s: Store, orderId: int, itemId: int, body: OrderItemCreate)
    ensures UpdateOrderItemApiChecked(s, orderId, itemId, body).1 == UpdateOrderItemApi(s, orderId, itemId, body).1
    ensures DeleteOrderItemApiChecked(s, orderId, itemId).1 == DeleteOrderItemApi(s, orderId, itemId).1
  {
  }

  /** Through the wrong order, the corrected handlers leave the item untouched. */
  lemma CheckedWrongOrderLeavesItem(s: Store, orderId: int, itemId: int, body: OrderItemCreate)
    requires itemId in s.items.rows && s.items.rows[itemId].orderId != Some(orderId)
    ensures UpdateOrderItemApiChecked(s, orderId, itemId, body) == (s, NotFound(ItemNotInOrder))
    ensures DeleteOrderItemApiChecked(s, orderId, itemId) == (s, NotFound(ItemNotInOrder))
  {
  }

  /**
   Over any sequence of requests, a key that had been handed out before the
   first request is present at the end only if it was present at the start: a
   deleted row's key is never given to a new row.
   */
  lemma ServeNeverReissuesKeys(s: Store, calls: seq<Call>, id: int)
    requires Valid(s)
    ensures var s' := Serve(s, calls).0;
      && (id in s'.users.rows && id < s.users.nextId ==> id in s.users.rows)
      && (id in s'.products.rows && id < s.products.nextId ==> id in s.products.rows)
      && (id in s'.orders.rows && id < s.orders.nextId ==> id in s.orders.rows)
      && (id in s'.items.rows && id < s.items.nextId ==> id in s.items.rows)
  {
  }

  /**
   The ordering scenario: create a user, an order for that user with total 10.00,
   a product priced 5.00, and an item of two of that product on that order. The
   item is created with the expected references, and every reference resolves.
   */
  lemma OrderScenario(now: Timestamp)
    ensures var s0 := EmptyStore();
      var r1 := CreateUserApi(s0, UserCreate("u1", "u1@example.com", "h"), now);
      var r2 := CreateOrderApi(r1.0, OrderCreate(1, 1000), now);
      var r3 := CreateProductApi(r2.0, ProductCreate("p1", None, 500), now);
      var r4 := CreateOrderItemApi(r3.0, 1, OrderItemCreate(1, 2));
      && r4.1 == Created(ItemBody(OrderItem(1, Some(1), Some(1), 2)))
      && ReferencesResolve(r4.0)
  {
  }
}
