/**
 The four record shapes of the order-management schema (users, products,
 orders, order_items) and the NOT NULL rule each table applies when a row is
 first inserted.

 Nullable columns are `Option`s; mandatory columns are plain values, so a stored
 row can never hold a null where the schema forbids one. Money columns are exact
 decimals, held here as integers counting the smallest currency unit.
 */
module Models {
  import opened Wrappers

  /** A server-side creation time. Its value is chosen by the clock and is never inspected. */
  datatype Timestamp = Timestamp(ticks: int)

  /** An exact decimal amount, in the smallest currency unit (e.g. cents). */
  type Money = int

  /** Table `users`: username, email and password_hash are NOT NULL; created_at is set on insert. */
  datatype User = User(
    userId: int,
    username: string,
    email: string,
    passwordHash: string,
    createdAt: Timestamp)

  /** Table `products`: name and price are NOT NULL, description may be null. */
  datatype Product = Product(
    productId: int,
    name: string,
    description: Option<string>,
    price: Money,
    createdAt: Timestamp)

  /** Table `orders`: user_id is a nullable reference to users; total_amount is NOT NULL. */
  datatype Order = Order(
    orderId: int,
    userId: Option<int>,
    orderDate: Timestamp,
    totalAmount: Money)

  /** Table `order_items`: order_id and product_id are nullable references; quantity is NOT NULL. */
  datatype OrderItem = OrderItem(
    orderItemId: int,
    orderId: Option<int>,
    productId: Option<int>,
    quantity: int)

  /** The rejection a table raises when an insert leaves a NOT NULL column empty. */
  datatype DbError = NotNullViolation(table: string, column: string)

  /** Builds the `users` row with key `id`, or names a mandatory column left null. */
  function NewUser(id: int, username: Option<string>, email: Option<string>, passwordHash: Option<string>,
                   now: Timestamp): (r: Result<User, DbError>)
    ensures r.Success? <==> username.Some? && email.Some? && passwordHash.Some?
    ensures r.Success? ==>
      r.value == User(id, username.value, email.value, passwordHash.value, now)
    ensures r.Failure? ==>
      && r.error.table == "users"
      && ((r.error.column == "username" && username.None?)
       || (r.error.column == "email" && email.None?)
       || (r.error.column == "password_hash" && passwordHash.None?))
  {
    if username.None? then Failure(NotNullViolation("users", "username"))
    else if email.None? then Failure(NotNullViolation("users", "email"))
    else if passwordHash.None? then Failure(NotNullViolation("users", "password_hash"))
    else Success(User(id, username.value, email.value, passwordHash.value, now))
  }

  /** Builds the `products` row with key `id`; a null description is accepted, a null name or price is not. */
  function NewProduct(id: int, name: Option<string>, description: Option<string>, price: Option<Money>,
                      now: Timestamp): (r: Result<Product, DbError>)
    ensures r.Success? <==> name.Some? && price.Some?
    ensures r.Success? ==>
      r.value == Product(id, name.value, description, price.value, now)
    ensures r.Failure? ==>
      && r.error.table == "products"
      && ((r.error.column == "name" && name.None?)
       || (r.error.column == "price" && price.None?))
  {
    if name.None? then Failure(NotNullViolation("products", "name"))
    else if price.None? then Failure(NotNullViolation("products", "price"))
    else Success(Product(id, name.value, description, price.value, now))
  }

  /** Builds the `orders` row with key `id`; a null user_id is accepted, a null total_amount is not. */
  function NewOrder(id: int, userId: Option<int>, totalAmount: Option<Money>,
                    now: Timestamp): (r: Result<Order, DbError>)
    ensures r.Success? <==> totalAmount.Some?
    ensures r.Success? ==>
      r.value == Order(id, userId, now, totalAmount.value)
    ensures r.Failure? ==>
      r.error == NotNullViolation("orders", "total_amount")
  {
    if totalAmount.None? then Failure(NotNullViolation("orders", "total_amount"))
    else Success(Order(id, userId, now, totalAmount.value))
  }

  /** Builds the `order_items` row with key `id`; null references are accepted, a null quantity is not. */
  function NewOrderItem(id: int, orderId: Option<int>, productId: Option<int>,
                        quantity: Option<int>): (r: Result<OrderItem, DbError>)
    ensures r.Success? <==> quantity.Some?
    ensures r.Success? ==>
      r.value == OrderItem(id, orderId, productId, quantity.value)
    ensures r.Failure? ==>
      r.error == NotNullViolation("order_items", "quantity")
  {
    if quantity.None? then Failure(NotNullViolation("order_items", "quantity"))
    else Success(OrderItem(id, orderId, productId, quantity.value))
  }
}
