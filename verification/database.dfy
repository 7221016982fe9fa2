/**
 The in-memory store: one table per entity kind, and the two whole-store
 conditions the model reasons about.
 */
module Database {
  import opened Wrappers
  import opened Models
  import Tables

  datatype Store = Store(
    users: Tables.Table<User>,
    products: Tables.Table<Product>,
    orders: Tables.Table<Order>,
    items: Tables.Table<OrderItem>)

  /** A store with all four tables empty. */
  function EmptyStore(): (s: Store)
    ensures Valid(s)
    ensures |s.users.rows| == 0 && |s.products.rows| == 0 && |s.orders.rows| == 0 && |s.items.rows| == 0
  {
    Store(Tables.Empty(), Tables.Empty(), Tables.Empty(), Tables.Empty())
  }

  /**
   Every table's keys come from its sequence, and every row carries its own key
   in its primary-key field.
   */
  ghost predicate Valid(s: Store) {
    && Tables.Valid(s.users)
    && Tables.Valid(s.products)
    && Tables.Valid(s.orders)
    && Tables.Valid(s.items)
    && (forall id :: id in s.users.rows ==> s.users.rows[id].userId == id)
    && (forall id :: id in s.products.rows ==> s.products.rows[id].productId == id)
    && (forall id :: id in s.orders.rows ==> s.orders.rows[id].orderId == id)
    && (forall id :: id in s.items.rows ==> s.items.rows[id].orderItemId == id)
  }

  /** A nullable reference resolves when it is null or names an existing key of `rows`. */
  predicate Resolves<T>(ref: Option<int>, rows: map<int, T>) {
    ref.None? || ref.value in rows
  }

  /**
   The declared foreign keys hold: orders.user_id references users, and
   order_items.order_id / product_id reference orders / products.
   */
  ghost predicate ReferencesResolve(s: Store) {
    && (forall id :: id in s.orders.rows ==> Resolves(s.orders.rows[id].userId, s.users.rows))
    && (forall id :: id in s.items.rows ==> Resolves(s.items.rows[id].orderId, s.orders.rows))
    && (forall id :: id in s.items.rows ==> Resolves(s.items.rows[id].productId, s.products.rows))
  }

  /** No order references user `userId`. */
  ghost predicate UserUnreferenced(s: Store, userId: int) {
    forall id :: id in s.orders.rows ==> s.orders.rows[id].userId != Some(userId)
  }

  /** No order item references product `productId`. */
  ghost predicate ProductUnreferenced(s: Store, productId: int) {
    forall id :: id in s.items.rows ==> s.items.rows[id].productId != Some(productId)
  }

  /** No order item references order `orderId`. */
  ghost predicate OrderUnreferenced(s: Store, orderId: int) {
    forall id :: id in s.items.rows ==> s.items.rows[id].orderId != Some(orderId)
  }

  /** Only the users table may differ between `s` and `s'`. */
  predicate SameExceptUsers(s: Store, s': Store) {
    s'.products == s.products && s'.orders == s.orders && s'.items == s.items
  }

  /** Only the products table may differ between `s` and `s'`. */
  predicate SameExceptProducts(s: Store, s': Store) {
    s'.users == s.users && s'.orders == s.orders && s'.items == s.items
  }

  /** Only the orders table may differ between `s` and `s'`. */
  predicate SameExceptOrders(s: Store, s': Store) {
    s'.users == s.users && s'.products == s.products && s'.items == s.items
  }

  /** Only the order_items table may differ between `s` and `s'`. */
  predicate SameExceptItems(s: Store, s': Store) {
    s'.users == s.users && s'.products == s.products && s'.orders == s.orders
  }
}
