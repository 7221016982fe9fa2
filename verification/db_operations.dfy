/**
 The create / get / update / delete operations on users, products, orders and
 order items, as pure transitions of the store.

 - A create assigns the key the table's sequence hands out next, so it never
   collides with an existing row; it is rejected, and the store left as it was,
   when a NOT NULL column is given no value.
 - A get returns the row with the given key, or None.
 - An update of a missing key returns None and changes nothing; otherwise it
   merges the supplied values with Python truthiness (see module Truthiness) and
   never touches keys, creation times, password hashes or references.
 - A delete returns the snapshot of the removed row, or None when there was none.
 */
module DbOperations {
  import opened Wrappers
  import opened Models
  import opened Truthiness
  import opened Database
  import Tables

  // ---------------------------------------------------------------- users

  function CreateUser(s: Store, username: Option<string>, email: Option<string>,
                      passwordHash: Option<string>, now: Timestamp): (r: (Store, Result<User, DbError>))
    requires Valid(s)
    ensures Valid(r.0)
    ensures r.1.Success? <==> username.Some? && email.Some? && passwordHash.Some?
    ensures r.1.Failure? ==> r.0 == s
    ensures r.1.Success? ==>
      var u := r.1.value;
      && u.userId !in s.users.rows
      && s.users.nextId <= u.userId < r.0.users.nextId
      && u.username == username.value
      && u.email == email.value
      && u.passwordHash == passwordHash.value
      && u.createdAt == now
      && r.0.users.rows == s.users.rows[u.userId := u]
      && SameExceptUsers(s, r.0)
  {
    match NewUser(s.users.nextId, username, email, passwordHash, now)
    case Failure(e) => (s, Failure(e))
    case Success(u) => (s.(users := Tables.Append(s.users, u)), Success(u))
  }

  function GetUser(s: Store, userId: int): (r: Option<User>)
    ensures r.Some? <==> userId in s.users.rows
    ensures r.Some? ==> r.value == s.users.rows[userId]
    ensures Valid(s) && r.Some? ==> r.value.userId == userId
  {
    Tables.Find(s.users, userId)
  }

  function UpdateUser(s: Store, userId: int, username: Option<string>,
                      email: Option<string>): (r: (Store, Option<User>))
    ensures userId !in s.users.rows ==> r == (s, None)
    ensures userId in s.users.rows ==>
      var before := s.users.rows[userId];
      && r.1.Some?
      && r.1.value.userId == before.userId
      && r.1.value.passwordHash == before.passwordHash
      && r.1.value.createdAt == before.createdAt
      && (TruthyText(username) ==> r.1.value.username == username.value)
      && (!TruthyText(username) ==> r.1.value.username == before.username)
      && (TruthyText(email) ==> r.1.value.email == email.value)
      && (!TruthyText(email) ==> r.1.value.email == before.email)
      && r.0.users.rows == s.users.rows[userId := r.1.value]
      && r.0.users.nextId == s.users.nextId
      && SameExceptUsers(s, r.0)
    ensures Valid(s) ==> Valid(r.0)
  {
    match Tables.Find(s.users, userId)
    case None => (s, None)
    case Some(u) =>
      var u' := u.(username := MergeText(u.username, username), email := MergeText(u.email, email));
      (s.(users := Tables.Replace(s.users, userId, u')), Some(u'))
  }

  function DeleteUser(s: Store, userId: int): (r: (Store, Option<User>))
    ensures r.1.Some? <==> userId in s.users.rows
    ensures r.1.Some? ==> r.1.value == s.users.rows[userId]
    ensures userId !in s.users.rows ==> r.0 == s
    ensures r.0.users.rows == s.users.rows - {userId}
    ensures r.0.users.nextId == s.users.nextId
    ensures SameExceptUsers(s, r.0)
    ensures Valid(s) ==> Valid(r.0)
  {
    match Tables.Find(s.users, userId)
    case None => (s, None)
    case Some(u) => (s.(users := Tables.Remove(s.users, userId)), Some(u))
  }

  // ---------------------------------------------------------------- products

  function CreateProduct(s: Store, name: Option<string>, description: Option<string>,
                         price: Option<Money>, now: Timestamp): (r: (Store, Result<Product, DbError>))
    requires Valid(s)
    ensures Valid(r.0)
    ensures r.1.Success? <==> name.Some? && price.Some?
    ensures r.1.Failure? ==> r.0 == s
    ensures r.1.Success? ==>
      var p := r.1.value;
      && p.productId !in s.products.rows
      && s.products.nextId <= p.productId < r.0.products.nextId
      && p.name == name.value
      && p.description == description
      && p.price == price.value
      && p.createdAt == now
      && r.0.products.rows == s.products.rows[p.productId := p]
      && SameExceptProducts(s, r.0)
  {
    match NewProduct(s.products.nextId, name, description, price, now)
    case Failure(e) => (s, Failure(e))
    case Success(p) => (s.(products := Tables.Append(s.products, p)), Success(p))
  }

  function GetProduct(s: Store, productId: int): (r: Option<Product>)
    ensures r.Some? <==> productId in s.products.rows
    ensures r.Some? ==> r.value == s.products.rows[productId]
    ensures Valid(s) && r.Some? ==> r.value.productId == productId
  {
    Tables.Find(s.products, productId)
  }

  function UpdateProduct(s: Store, productId: int, name: Option<string>, description: Option<string>,
                         price: Option<Money>): (r: (Store, Option<Product>))
    ensures productId !in s.products.rows ==> r == (s, None)
    ensures productId in s.products.rows ==>
      var before := s.products.rows[productId];
      && r.1.Some?
      && r.1.value.productId == before.productId
      && r.1.value.createdAt == before.createdAt
      && (TruthyText(name) ==> r.1.value.name == name.value)
      && (!TruthyText(name) ==> r.1.value.name == before.name)
      && (TruthyText(description) ==> r.1.value.description == description)
      && (!TruthyText(description) ==> r.1.value.description == before.description)
      && (TruthyNumber(price) ==> r.1.value.price == price.value)
      && (!TruthyNumber(price) ==> r.1.value.price == before.price)
      && r.0.products.rows == s.products.rows[productId := r.1.value]
      && r.0.products.nextId == s.products.nextId
      && SameExceptProducts(s, r.0)
    ensures Valid(s) ==> Valid(r.0)
  {
    match Tables.Find(s.products, productId)
    case None => (s, None)
    case Some(p) =>
      var p' := p.(name := MergeText(p.name, name),
                   description := MergeNullableText(p.description, description),
                   price := MergeNumber(p.price, price));
      (s.(products := Tables.Replace(s.products, productId, p')), Some(p'))
  }

  function DeleteProduct(s: Store, productId: int): (r: (Store, Option<Product>))
    ensures r.1.Some? <==> productId in s.products.rows
    ensures r.1.Some? ==> r.1.value == s.products.rows[productId]
    ensures productId !in s.products.rows ==> r.0 == s
    ensures r.0.products.rows == s.products.rows - {productId}
    ensures r.0.products.nextId == s.products.nextId
    ensures SameExceptProducts(s, r.0)
    ensures Valid(s) ==> Valid(r.0)
  {
    match Tables.Find(s.products, productId)
    case None => (s, None)
    case Some(p) => (s.(products := Tables.Remove(s.products, productId)), Some(p))
  }

  // ---------------------------------------------------------------- orders

  function CreateOrder(s: Store, userId: Option<int>, totalAmount: Option<Money>,
                       now: Timestamp): (r: (Store, Result<Order, DbError>))
    requires Valid(s)
    ensures Valid(r.0)
    ensures r.1.Success? <==> totalAmount.Some?
    ensures r.1.Failure? ==> r.0 == s
    ensures r.1.Success? ==>
      var o := r.1.value;
      && o.orderId !in s.orders.rows
      && s.orders.nextId <= o.orderId < r.0.orders.nextId
      && o.userId == userId
      && o.totalAmount == totalAmount.value
      && o.orderDate == now
      && r.0.orders.rows == s.orders.rows[o.orderId := o]
      && SameExceptOrders(s, r.0)
  {
    match NewOrder(s.orders.nextId, userId, totalAmount, now)
    case Failure(e) => (s, Failure(e))
    case Success(o) => (s.(orders := Tables.Append(s.orders, o)), Success(o))
  }

  function GetOrder(s: Store, orderId: int): (r: Option<Order>)
    ensures r.Some? <==> orderId in s.orders.rows
    ensures r.Some? ==> r.value == s.orders.rows[orderId]
    ensures Valid(s) && r.Some? ==> r.value.orderId == orderId
  {
    Tables.Find(s.orders, orderId)
  }

  function UpdateOrder(s: Store, orderId: int, totalAmount: Option<Money>): (r: (Store, Option<Order>))
    ensures orderId !in s.orders.rows ==> r == (s, None)
    ensures orderId in s.orders.rows ==>
      var before := s.orders.rows[orderId];
      && r.1.Some?
      && r.1.value.orderId == before.orderId
      && r.1.value.userId == before.userId
      && r.1.value.orderDate == before.orderDate
      && (TruthyNumber(totalAmount) ==> r.1.value.totalAmount == totalAmount.value)
      && (!TruthyNumber(totalAmount) ==> r.1.value.totalAmount == before.totalAmount)
      && r.0.orders.rows == s.orders.rows[orderId := r.1.value]
      && r.0.orders.nextId == s.orders.nextId
      && SameExceptOrders(s, r.0)
    ensures Valid(s) ==> Valid(r.0)
  {
    match Tables.Find(s.orders, orderId)
    case None => (s, None)
    case Some(o) =>
      var o' := o.(totalAmount := MergeNumber(o.totalAmount, totalAmount));
      (s.(orders := Tables.Replace(s.orders, orderId, o')), Some(o'))
  }

  function DeleteOrder(s: Store, orderId: int): (r: (Store, Option<Order>))
    ensures r.1.Some? <==> orderId in s.orders.rows
    ensures r.1.Some? ==> r.1.value == s.orders.rows[orderId]
    ensures orderId !in s.orders.rows ==> r.0 == s
    ensures r.0.orders.rows == s.orders.rows - {orderId}
    ensures r.0.orders.nextId == s.orders.nextId
    ensures SameExceptOrders(s, r.0)
    ensures Valid(s) ==> Valid(r.0)
  {
    match Tables.Find(s.orders, orderId)
    case None => (s, None)
    case Some(o) => (s.(orders := Tables.Remove(s.orders, orderId)), Some(o))
  }

  // ---------------------------------------------------------------- order items

  function CreateOrderItem(s: Store, orderId: Option<int>, productId: Option<int>,
                           quantity: Option<int>): (r: (Store, Result<OrderItem, DbError>))
    requires Valid(s)
    ensures Valid(r.0)
    ensures r.1.Success? <==> quantity.Some?
    ensures r.1.Failure? ==> r.0 == s
    ensures r.1.Success? ==>
      var it := r.1.value;
      && it.orderItemId !in s.items.rows
      && s.items.nextId <= it.orderItemId < r.0.items.nextId
      && it.orderId == orderId
      && it.productId == productId
      && it.quantity == quantity.value
      && r.0.items.rows == s.items.rows[it.orderItemId := it]
      && SameExceptItems(s, r.0)
  {
    match NewOrderItem(s.items.nextId, orderId, productId, quantity)
    case Failure(e) => (s, Failure(e))
    case Success(it) => (s.(items := Tables.Append(s.items, it)), Success(it))
  }

  function GetOrderItem(s: Store, orderItemId: int): (r: Option<OrderItem>)
    ensures r.Some? <==> orderItemId in s.items.rows
    ensures r.Some? ==> r.value == s.items.rows[orderItemId]
    ensures Valid(s) && r.Some? ==> r.value.orderItemId == orderItemId
  {
    Tables.Find(s.items, orderItemId)
  }

  function UpdateOrderItem(s: Store, orderItemId: int, quantity: Option<int>): (r: (Store, Option<OrderItem>))
    ensures orderItemId !in s.items.rows ==> r == (s, None)
    ensures orderItemId in s.items.rows ==>
      var before := s.items.rows[orderItemId];
      && r.1.Some?
      && r.1.value.orderItemId == before.orderItemId
      && r.1.value.orderId == before.orderId
      && r.1.value.productId == before.productId
      && (TruthyNumber(quantity) ==> r.1.value.quantity == quantity.value)
      && (!TruthyNumber(quantity) ==> r.1.value.quantity == before.quantity)
      && r.0.items.rows == s.items.rows[orderItemId := r.1.value]
      && r.0.items.nextId == s.items.nextId
      && SameExceptItems(s, r.0)
    ensures Valid(s) ==> Valid(r.0)
  {
    match Tables.Find(s.items, orderItemId)
    case None => (s, None)
    case Some(it) =>
      var it' := it.(quantity := MergeNumber(it.quantity, quantity));
      (s.(items := Tables.Replace(s.items, orderItemId, it')), Some(it'))
  }

  function DeleteOrderItem(s: Store, orderItemId: int): (r: (Store, Option<OrderItem>))
    ensures r.1.Some? <==> orderItemId in s.items.rows
    ensures r.1.Some? ==> r.1.value == s.items.rows[orderItemId]
    ensures orderItemId !in s.items.rows ==> r.0 == s
    ensures r.0.items.rows == s.items.rows - {orderItemId}
    ensures r.0.items.nextId == s.items.nextId
    ensures SameExceptItems(s, r.0)
    ensures Valid(s) ==> Valid(r.0)
  {
    match Tables.Find(s.items, orderItemId)
    case None => (s, None)
    case Some(it) => (s.(items := Tables.Remove(s.items, orderItemId)), Some(it))
  }
}
