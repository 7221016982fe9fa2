/**
 The route table: each request is dispatched to its handler, and a sequence of
 requests is served one after another against the same store.
 */
module Server {
  import opened Models
  import opened Database
  import opened Api
  import Tables

  /** One HTTP request of the route table, with its path parameters and parsed body. */
  datatype Request =
    | UserPost(user: UserCreate)
    | UserGet(userId: int)
    | UserPut(userId: int, user: UserCreate)
    | UserDelete(userId: int)
    | ProductPost(product: ProductCreate)
    | ProductGet(productId: int)
    | ProductPut(productId: int, product: ProductCreate)
    | ProductDelete(productId: int)
    | OrderPost(order: OrderCreate)
    | OrderGet(orderId: int)
    | OrderPut(orderId: int, order: OrderCreate)
    | OrderDelete(orderId: int)
    | ItemPost(orderId: int, item: OrderItemCreate)
    | ItemGet(orderId: int, itemId: int)
    | ItemPut(orderId: int, itemId: int, item: OrderItemCreate)
    | ItemDelete(orderId: int, itemId: int)

  /** A request together with the clock reading a create would stamp on its row. */
  datatype Call = Call(request: Request, now: Timestamp)

  predicate IsRead(req: Request) {
    req.UserGet? || req.ProductGet? || req.OrderGet? || req.ItemGet?
  }

  /** Every table of `s'` is a later state of the same table of `s`. */
  ghost predicate StoreExtends(s: Store, s': Store) {
    && Tables.Extends(s.users, s'.users)
    && Tables.Extends(s.products, s'.products)
    && Tables.Extends(s.orders, s'.orders)
    && Tables.Extends(s.items, s'.items)
  }

  predicate IsUserRoute(req: Request) {
    req.UserPost? || req.UserGet? || req.UserPut? || req.UserDelete?
  }

  predicate IsProductRoute(req: Request) {
    req.ProductPost? || req.ProductGet? || req.ProductPut? || req.ProductDelete?
  }

  predicate IsOrderRoute(req: Request) {
    req.OrderPost? || req.OrderGet? || req.OrderPut? || req.OrderDelete?
  }

  /** The /users routes: only the users table can change, and a 404 or a GET changes nothing. */
  function HandleUser(s: Store, call: Call): (r: (Store, Response))
    requires Valid(s) && IsUserRoute(call.request)
    ensures Valid(r.0)
    ensures Tables.Extends(s.users, r.0.users) && SameExceptUsers(s, r.0)
    ensures IsRead(call.request) || r.1.NotFound? ==> r.0 == s
  {
    match call.request
    case UserPost(body) => CreateUserApi(s, body, call.now)
    case UserGet(id) => (s, GetUserApi(s, id))
    case UserPut(id, body) => UpdateUserApi(s, id, body)
    case UserDelete(id) => DeleteUserApi(s, id)
  }

  /** The /products routes: only the products table can change, and a 404 or a GET changes nothing. */
  function HandleProduct(s: Store, call: Call): (r: (Store, Response))
    requires Valid(s) && IsProductRoute(call.request)
    ensures Valid(r.0)
    ensures Tables.Extends(s.products, r.0.products) && SameExceptProducts(s, r.0)
    ensures IsRead(call.request) || r.1.NotFound? ==> r.0 == s
  {
    match call.request
    case ProductPost(body) => CreateProductApi(s, body, call.now)
    case ProductGet(id) => (s, GetProductApi(s, id))
    case ProductPut(id, body) => UpdateProductApi(s, id, body)
    case ProductDelete(id) => DeleteProductApi(s, id)
  }

  /** The /orders routes: only the orders table can change, and a 404 or a GET changes nothing. */
  function HandleOrder(s: Store, call: Call): (r: (Store, Response))
    requires Valid(s) && IsOrderRoute(call.request)
    ensures Valid(r.0)
    ensures Tables.Extends(s.orders, r.0.orders) && SameExceptOrders(s, r.0)
    ensures IsRead(call.request) || r.1.NotFound? ==> r.0 == s
  {
    match call.request
    case OrderPost(body) => CreateOrderApi(s, body, call.now)
    case OrderGet(id) => (s, GetOrderApi(s, id))
    case OrderPut(id, body) => UpdateOrderApi(s, id, body)
    case OrderDelete(id) => DeleteOrderApi(s, id)
  }

  /**
   The /orders/{order_id}/items routes: only the order_items table can change; a
   GET changes nothing, and a 404 from POST or GET changes nothing either (PUT and
   DELETE may answer 404 after writing).
   */
  function HandleItem(s: Store, call: Call): (r: (Store, Response))
    requires Valid(s)
    requires !IsUserRoute(call.request) && !IsProductRoute(call.request) && !IsOrderRoute(call.request)
    ensures Valid(r.0)
    ensures Tables.Extends(s.items, r.0.items) && SameExceptItems(s, r.0)
    ensures IsRead(call.request) ==> r.0 == s
    ensures r.1.NotFound? && !call.request.ItemPut? && !call.request.ItemDelete? ==> r.0 == s
  {
    match call.request
    case ItemPost(orderId, body) => CreateOrderItemApi(s, orderId, body)
    case ItemGet(orderId, itemId) => (s, GetOrderItemApi(s, orderId, itemId))
    case ItemPut(orderId, itemId, body) => UpdateOrderItemApi(s, orderId, itemId, body)
    case ItemDelete(orderId, itemId) => DeleteOrderItemApi(s, orderId, itemId)
  }

  /**
   Serves one request. Reads never change the store, and apart from the two
   order-item writes a 404 never changes it either.
   */
  function Handle(s: Store, call: Call): (r: (Store, Response))
    requires Valid(s)
    ensures Valid(r.0)
    ensures StoreExtends(s, r.0)
    ensures IsRead(call.request) ==> r.0 == s
    ensures r.1.NotFound? && !call.request.ItemPut? && !call.request.ItemDelete? ==> r.0 == s
  {
    if IsUserRoute(call.request) then HandleUser(s, call)
    else if IsProductRoute(call.request) then HandleProduct(s, call)
    else if IsOrderRoute(call.request) then HandleOrder(s, call)
    else HandleItem(s, call)
  }

  /**
   Serves `calls` in order. The store stays valid throughout, and no row created
   along the way reuses a key that had been handed out before the first call,
   whatever was deleted in between. A sequence of reads changes nothing.
   */
  function Serve(s: Store, calls: seq<Call>): (r: (Store, seq<Response>))
    requires Valid(s)
    ensures Valid(r.0)
    ensures |r.1| == |calls|
    ensures StoreExtends(s, r.0)
    ensures (forall i :: 0 <= i < |calls| ==> IsRead(calls[i].request)) ==> r.0 == s
    decreases |calls|
  {
    if |calls| == 0 then (s, [])
    else
      var first := Handle(s, calls[0]);
      var rest := Serve(first.0, calls[1..]);
      assert forall i :: 0 <= i < |calls| - 1 ==> calls[1..][i] == calls[i + 1];
      (rest.0, [first.1] + rest.1)
  }
}
