/**
 The request handlers of the HTTP layer, reduced to their decisions: which
 request fields reach the store, how an absent result becomes a 404, and how
 order items are addressed through their parent order.

 Request bodies arrive already parsed into the typed shapes below; their
 mandatory fields are therefore always present when a handler forwards them.
 */
module Api {
  import opened Wrappers
  import opened Models
  import opened Database
  import opened DbOperations
  import Tables

  /** Body of POST /users and PUT /users/{id}. */
  datatype UserCreate = UserCreate(username: string, email: string, passwordHash: string)

  /** Body of POST /products and PUT /products/{id}; the description may be omitted. */
  datatype ProductCreate = ProductCreate(name: string, description: Option<string>, price: Money)

  /** Body of POST /orders and PUT /orders/{id}. */
  datatype OrderCreate = OrderCreate(userId: int, totalAmount: Money)

  /** Body of POST /orders/{order_id}/items and PUT /orders/{order_id}/items/{item_id}. */
  datatype OrderItemCreate = OrderItemCreate(productId: int, quantity: int)

  /** The entity a successful response carries. */
  datatype Body =
    | UserBody(user: User)
    | ProductBody(product: Product)
    | OrderBody(order: Order)
    | ItemBody(item: OrderItem)

  /** What a handler answers: 201 with the created row, 200 with a row, 204 without a body, or 404. */
  datatype Response =
    | Created(body: Body)
    | Ok(body: Body)
    | NoContent
    | NotFound(detail: string)

  function StatusCode(r: Response): int {
    match r
    case Created(_) => 201
    case Ok(_) => 200
    case NoContent => 204
    case NotFound(_) => 404
  }

  const UserNotFound := "User not found"
  const ProductNotFound := "Product not found"
  const OrderNotFound := "Order not found"
  const ItemNotFound := "Order item not found"
  const ItemNotInOrder := "Order item not found for this order"

  // ---------------------------------------------------------------- users

  function CreateUserApi(s: Store, body: UserCreate, now: Timestamp): (r: (Store, Response))
    requires Valid(s)
    ensures Valid(r.0)
    ensures r.1.Created? && r.1.body.UserBody?
    ensures var u := r.1.body.user;
      && u.userId !in s.users.rows
      && s.users.nextId <= u.userId < r.0.users.nextId
      && u == User(u.userId, body.username, body.email, body.passwordHash, now)
      && r.0.users.rows == s.users.rows[u.userId := u]
      && SameExceptUsers(s, r.0)
  {
    var c := CreateUser(s, Some(body.username), Some(body.email), Some(body.passwordHash), now);
    (c.0, Created(UserBody(c.1.value)))
  }

  function GetUserApi(s: Store, userId: int): (r: Response)
    ensures userId !in s.users.rows ==> r == NotFound(UserNotFound)
    ensures userId in s.users.rows ==> r == Ok(UserBody(s.users.rows[userId]))
  {
    match GetUser(s, userId)
    case None => NotFound(UserNotFound)
    case Some(u) => Ok(UserBody(u))
  }

  /** Only username and email are forwarded; the body's password_hash never reaches the store. */
  function UpdateUserApi(s: Store, userId: int, body: UserCreate): (r: (Store, Response))
    ensures userId !in s.users.rows ==> r == (s, NotFound(UserNotFound))
    ensures userId in s.users.rows ==>
      var u := UpdateUser(s, userId, Some(body.username), Some(body.email));
      && r == (u.0, Ok(UserBody(u.1.value)))
      && r.1.body.user.passwordHash == s.users.rows[userId].passwordHash
    ensures Valid(s) ==> Valid(r.0)
  {
    var u := UpdateUser(s, userId, Some(body.username), Some(body.email));
    match u.1
    case None => (u.0, NotFound(UserNotFound))
    case Some(user) => (u.0, Ok(UserBody(user)))
  }

  function DeleteUserApi(s: Store, userId: int): (r: (Store, Response))
    ensures userId !in s.users.rows ==> r == (s, NotFound(UserNotFound))
    ensures userId in s.users.rows ==> r == (DeleteUser(s, userId).0, NoContent)
    ensures Valid(s) ==> Valid(r.0)
  {
    var d := DeleteUser(s, userId);
    if d.1.None? then (d.0, NotFound(UserNotFound)) else (d.0, NoContent)
  }

  // ---------------------------------------------------------------- products

  function CreateProductApi(s: Store, body: ProductCreate, now: Timestamp): (r: (Store, Response))
    requires Valid(s)
    ensures Valid(r.0)
    ensures r.1.Created? && r.1.body.ProductBody?
    ensures var p := r.1.body.product;
      && p.productId !in s.products.rows
      && s.products.nextId <= p.productId < r.0.products.nextId
      && p == Product(p.productId, body.name, body.description, body.price, now)
      && r.0.products.rows == s.products.rows[p.productId := p]
      && SameExceptProducts(s, r.0)
  {
    var c := CreateProduct(s, Some(body.name), body.description, Some(body.price), now);
    (c.0, Created(ProductBody(c.1.value)))
  }

  function GetProductApi(s: Store, productId: int): (r: Response)
    ensures productId !in s.products.rows ==> r == NotFound(ProductNotFound)
    ensures productId in s.products.rows ==> r == Ok(ProductBody(s.products.rows[productId]))
  {
    match GetProduct(s, productId)
    case None => NotFound(ProductNotFound)
    case Some(p) => Ok(ProductBody(p))
  }

  /** name, description and price are all forwarded; an omitted description arrives as None. */
  function UpdateProductApi(s: Store, productId: int, body: ProductCreate): (r: (Store, Response))
    ensures productId !in s.products.rows ==> r == (s, NotFound(ProductNotFound))
    ensures productId in s.products.rows ==>
      var u := UpdateProduct(s, productId, Some(body.name), body.description, Some(body.price));
      r == (u.0, Ok(ProductBody(u.1.value)))
    ensures Valid(s) ==> Valid(r.0)
  {
    var u := UpdateProduct(s, productId, Some(body.name), body.description, Some(body.price));
    match u.1
    case None => (u.0, NotFound(ProductNotFound))
    case Some(p) => (u.0, Ok(ProductBody(p)))
  }

  function DeleteProductApi(s: Store, productId: int): (r: (Store, Response))
    ensures productId !in s.products.rows ==> r == (s, NotFound(ProductNotFound))
    ensures productId in s.products.rows ==> r == (DeleteProduct(s, productId).0, NoContent)
    ensures Valid(s) ==> Valid(r.0)
  {
    var d := DeleteProduct(s, productId);
    if d.1.None? then (d.0, NotFound(ProductNotFound)) else (d.0, NoContent)
  }

  // ---------------------------------------------------------------- orders

  function CreateOrderApi(s: Store, body: OrderCreate, now: Timestamp): (r: (Store, Response))
    requires Valid(s)
    ensures Valid(r.0)
    ensures r.1.Created? && r.1.body.OrderBody?
    ensures var o := r.1.body.order;
      && o.orderId !in s.orders.rows
      && s.orders.nextId <= o.orderId < r.0.orders.nextId
      && o == Order(o.orderId, Some(body.userId), now, body.totalAmount)
      && r.0.orders.rows == s.orders.rows[o.orderId := o]
      && SameExceptOrders(s, r.0)
  {
    var c := CreateOrder(s, Some(body.userId), Some(body.totalAmount), now);
    (c.0, Created(OrderBody(c.1.value)))
  }

  function GetOrderApi(s: Store, orderId: int): (r: Response)
    ensures orderId !in s.orders.rows ==> r == NotFound(OrderNotFound)
    ensures orderId in s.orders.rows ==> r == Ok(OrderBody(s.orders.rows[orderId]))
  {
    match GetOrder(s, orderId)
    case None => NotFound(OrderNotFound)
    case Some(o) => Ok(OrderBody(o))
  }

  /** Only total_amount is forwarded; the body's user_id never reaches the store. */
  function UpdateOrderApi(s: Store, orderId: int, body: OrderCreate): (r: (Store, Response))
    ensures orderId !in s.orders.rows ==> r == (s, NotFound(OrderNotFound))
    ensures orderId in s.orders.rows ==>
      var u := UpdateOrder(s, orderId, Some(body.totalAmount));
      && r == (u.0, Ok(OrderBody(u.1.value)))
      && r.1.body.order.userId == s.orders.rows[orderId].userId
    ensures Valid(s) ==> Valid(r.0)
  {
    var u := UpdateOrder(s, orderId, Some(body.totalAmount));
    match u.1
    case None => (u.0, NotFound(OrderNotFound))
    case Some(o) => (u.0, Ok(OrderBody(o)))
  }

  function DeleteOrderApi(s: Store, orderId: int): (r: (Store, Response))
    ensures orderId !in s.orders.rows ==> r == (s, NotFound(OrderNotFound))
    ensures orderId in s.orders.rows ==> r == (DeleteOrder(s, orderId).0, NoContent)
    ensures Valid(s) ==> Valid(r.0)
  {
    var d := DeleteOrder(s, orderId);
    if d.1.None? then (d.0, NotFound(OrderNotFound)) else (d.0, NoContent)
  }

  // ---------------------------------------------------------------- order items

  /** The parent order comes from the path; product_id and quantity are passed through unchecked. */
  function CreateOrderItemApi(s: Store, orderId: int, body: OrderItemCreate): (r: (Store, Response))
    requires Valid(s)
    ensures Valid(r.0)
    ensures r.1.Created? && r.1.body.ItemBody?
    ensures var it := r.1.body.item;
      && it.orderItemId !in s.items.rows
      && s.items.nextId <= it.orderItemId < r.0.items.nextId
      && it == OrderItem(it.orderItemId, Some(orderId), Some(body.productId), body.quantity)
      && r.0.items.rows == s.items.rows[it.orderItemId := it]
      && SameExceptItems(s, r.0)
  {
    var c := CreateOrderItem(s, Some(orderId), Some(body.productId), Some(body.quantity));
    (c.0, Created(ItemBody(c.1.value)))
  }

  /** An item is found only through the order it belongs to. */
  function GetOrderItemApi(s: Store, orderId: int, itemId: int): (r: Response)
    ensures r.Ok? <==> itemId in s.items.rows && s.items.rows[itemId].orderId == Some(orderId)
    ensures r.Ok? ==> r == Ok(ItemBody(s.items.rows[itemId]))
    ensures itemId !in s.items.rows ==> r == NotFound(ItemNotFound)
    ensures itemId in s.items.rows && s.items.rows[itemId].orderId != Some(orderId) ==>
      r == NotFound(ItemNotInOrder)
  {
    match GetOrderItem(s, itemId)
    case None => NotFound(ItemNotFound)
    case Some(it) =>
      if it.orderId != Some(orderId) then NotFound(ItemNotInOrder) else Ok(ItemBody(it))
  }

  /**
   As written: the quantity is written first and the parent order checked
   afterwards, so a request through the wrong order answers 404 yet has already
   changed the item. The body's product_id is ignored.
   */
  function UpdateOrderItemApi(s: Store, orderId: int, itemId: int, body: OrderItemCreate): (r: (Store, Response))
    ensures itemId !in s.items.rows ==> r == (s, NotFound(ItemNotFound))
    ensures itemId in s.items.rows ==> r.0 == UpdateOrderItem(s, itemId, Some(body.quantity)).0
    ensures r.1.Ok? <==> itemId in s.items.rows && s.items.rows[itemId].orderId == Some(orderId)
    ensures r.1.Ok? ==> r.1 == Ok(ItemBody(r.0.items.rows[itemId]))
    ensures itemId in s.items.rows && s.items.rows[itemId].orderId != Some(orderId) ==>
      r.1 == NotFound(ItemNotInOrder)
    ensures Valid(s) ==> Valid(r.0)
  {
    var u := UpdateOrderItem(s, itemId, Some(body.quantity));
    match u.1
    case None => (u.0, NotFound(ItemNotFound))
    case Some(it) =>
      if it.orderId != Some(orderId) then (u.0, NotFound(ItemNotInOrder)) else (u.0, Ok(ItemBody(it)))
  }

  /**
   As written: the item is deleted first and the parent order checked afterwards,
   so a request through the wrong order answers 404 yet the item is gone.
   */
  function DeleteOrderItemApi(s: Store, orderId: int, itemId: int): (r: (Store, Response))
    ensures itemId !in s.items.rows ==> r == (s, NotFound(ItemNotFound))
    ensures r.0 == DeleteOrderItem(s, itemId).0
    ensures r.1 == NoContent <==> itemId in s.items.rows && s.items.rows[itemId].orderId == Some(orderId)
    ensures itemId in s.items.rows && s.items.rows[itemId].orderId != Some(orderId) ==>
      r.1 == NotFound(ItemNotInOrder)
    ensures Valid(s) ==> Valid(r.0)
  {
    var d := DeleteOrderItem(s, itemId);
    match d.1
    case None => (d.0, NotFound(ItemNotFound))
    case Some(it) =>
      if it.orderId != Some(orderId) then (d.0, NotFound(ItemNotInOrder)) else (d.0, NoContent)
  }

  /** Corrected update: the parent order is checked before anything is written. */
  function UpdateOrderItemApiChecked(s: Store, orderId: int, itemId: int, body: OrderItemCreate): (r: (Store, Response))
    ensures r.1.NotFound? ==> r.0 == s
    ensures r.1.Ok? <==> itemId in s.items.rows && s.items.rows[itemId].orderId == Some(orderId)
    ensures r.1.Ok? ==> r == UpdateOrderItemApi(s, orderId, itemId, body)
    ensures Valid(s) ==> Valid(r.0)
  {
    match GetOrderItem(s, itemId)
    case None => (s, NotFound(ItemNotFound))
    case Some(it) =>
      if it.orderId != Some(orderId) then (s, NotFound(ItemNotInOrder))
      else UpdateOrderItemApi(s, orderId, itemId, body)
  }

  /** Corrected delete: the parent order is checked before anything is removed. */
  function DeleteOrderItemApiChecked(s: Store, orderId: int, itemId: int): (r: (Store, Response))
    ensures r.1.NotFound? ==> r.0 == s
    ensures r.1 == NoContent <==> itemId in s.items.rows && s.items.rows[itemId].orderId == Some(orderId)
    ensures r.1 == NoContent ==> r == DeleteOrderItemApi(s, orderId, itemId)
    ensures Valid(s) ==> Valid(r.0)
  {
    match GetOrderItem(s, itemId)
    case None => (s, NotFound(ItemNotFound))
    case Some(it) =>
      if it.orderId != Some(orderId) then (s, NotFound(ItemNotInOrder))
      else DeleteOrderItemApi(s, orderId, itemId)
  }
}
