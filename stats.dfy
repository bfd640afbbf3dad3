/**
 * The dashboard statistics of lib/actions/stats.ts: counts of users and
 * products, revenue summed over the order items' snapshots, and the number
 * of completed sales. Each requires an administrator.
 */
module Stats {
  import opened Common
  import opened Tables
  import opened Store
  import CustomerInfo

  /** getNumberOfCustomers: the number of users, with no filter on role. */
  function NumberOfCustomers(session: Option<Session>, users: seq<User>): (r: Result<nat, Error>)
    ensures !IsAdmin(session) <==> r == Err(Unauthorized)
    ensures IsAdmin(session) ==> r == Ok(|users|)
  {
    if !IsAdmin(session) then Err(Unauthorized) else Ok(|users|)
  }

  /**
   * The user count is not the length of the customer list: it also counts
   * the administrators and the users without a role, whom the list leaves out.
   */
  lemma CustomerCountIncludesAdmins(session: Option<Session>, users: seq<User>)
    requires IsAdmin(session)
    ensures NumberOfCustomers(session, users).Ok?
    ensures NumberOfCustomers(session, users).value ==
              |CustomerInfo.GetCustomerInfo(session, users).value|
              + |Select(users, ClassOf, Administrator)| + |Select(users, ClassOf, RoleLess)|
    ensures (exists i :: 0 <= i < |users| && ClassOf(users[i]) != Customer) ==>
              NumberOfCustomers(session, users).value > |CustomerInfo.GetCustomerInfo(session, users).value|
  {
    CustomerInfo.CustomersPartitionUsers(session, users);
    if i :| 0 <= i < |users| && ClassOf(users[i]) != Customer {
      if ClassOf(users[i]) == Administrator {
        assert users[i] in Select(users, ClassOf, Administrator);
      } else {
        assert users[i] in Select(users, ClassOf, RoleLess);
      }
    }
  }

  /** getNumberOfProducts: the number of products in the catalog. */
  function NumberOfProducts(session: Option<Session>, products: map<Id, Product>): (r: Result<nat, Error>)
    ensures !IsAdmin(session) <==> r == Err(Unauthorized)
    ensures IsAdmin(session) ==> r == Ok(|products|)
  {
    if !IsAdmin(session) then Err(Unauthorized) else Ok(|products|)
  }

  /**
   * How the product actions move the count: createProduct's new entry under
   * a new id adds one, updateProduct's rewrite of an existing entry keeps it,
   * and deleteProduct's removal of an existing entry takes one away.
   */
  lemma ProductCountAfterWrites(session: Option<Session>, products: map<Id, Product>, id: Id, p: Product)
    requires IsAdmin(session)
    ensures id !in products ==>
              NumberOfProducts(session, products[id := p]) == Ok(NumberOfProducts(session, products).value + 1)
    ensures id in products ==>
              NumberOfProducts(session, products[id := p]) == NumberOfProducts(session, products)
    ensures id in products ==>
              NumberOfProducts(session, products - {id}) == Ok(NumberOfProducts(session, products).value - 1)
  {
    if id !in products {
      assert products[id := p].Keys == products.Keys + {id};
    } else {
      assert products[id := p].Keys == products.Keys;
      assert (products - {id}).Keys == products.Keys - {id};
    }
  }

  // ------------------------------------------------------------ revenue

  /** Every order item of every order, order by order. */
  function AllItems(orders: seq<Order>): (r: seq<OrderItem>)
  {
    if orders == [] then [] else AllItems(orders[..|orders| - 1]) + orders[|orders| - 1].items
  }

  /** Σ price × quantity over all order items; zero when there are none. */
  function Revenue(orders: seq<Order>): int
  {
    ItemsTotal(AllItems(orders))
  }

  /** getTotalRevenue. */
  function TotalRevenue(session: Option<Session>, orders: seq<Order>): (r: Result<int, Error>)
    ensures !IsAdmin(session) <==> r == Err(Unauthorized)
    ensures IsAdmin(session) ==> r == Ok(Revenue(orders))
    ensures r.Ok? && (forall i :: 0 <= i < |orders| ==> orders[i].items == []) ==> r.value == 0
  {
    NoItemsNoRevenue(orders);
    if !IsAdmin(session) then Err(Unauthorized) else Ok(Revenue(orders))
  }

  lemma {:induction false} NoItemsNoRevenue(orders: seq<Order>)
    ensures (forall i :: 0 <= i < |orders| ==> orders[i].items == []) ==> AllItems(orders) == []
  {
    if orders != [] {
      NoItemsNoRevenue(orders[..|orders| - 1]);
    }
  }

  /** The price sum splits over a concatenation. */
  lemma {:induction false} ItemsTotalAppend(a: seq<OrderItem>, b: seq<OrderItem>)
    ensures ItemsTotal(a + b) == ItemsTotal(a) + ItemsTotal(b)
  {
    if b != [] {
      var n := |b| - 1;
      assert (a + b)[..|a + b| - 1] == a + b[..n];
      ItemsTotalAppend(a, b[..n]);
    } else {
      assert a + b == a;
    }
  }

  /** Σ of the orders' totals. */
  function SumOfTotals(orders: seq<Order>): int
  {
    if orders == [] then 0 else SumOfTotals(orders[..|orders| - 1]) + orders[|orders| - 1].total
  }

  /** Because each order's total equals the sum over its snapshots, revenue is the sum of order totals. */
  lemma {:induction false} RevenueIsSumOfTotals(orders: seq<Order>)
    requires forall i :: 0 <= i < |orders| ==> orders[i].total == ItemsTotal(orders[i].items)
    ensures Revenue(orders) == SumOfTotals(orders)
  {
    if orders != [] {
      var pre := orders[..|orders| - 1];
      RevenueIsSumOfTotals(pre);
      ItemsTotalAppend(AllItems(pre), orders[|orders| - 1].items);
    }
  }

  /** A new order adds its snapshot total to revenue. */
  lemma RevenueAfterOrder(orders: seq<Order>, o: Order)
    ensures Revenue(orders + [o]) == Revenue(orders) + ItemsTotal(o.items)
  {
    assert (orders + [o])[..|orders|] == orders;
    ItemsTotalAppend(AllItems(orders), o.items);
  }

  /** Checking out a cart adds the cart's value at the snapshot prices to revenue. */
  lemma RevenueAfterCheckout(orders: seq<Order>, lines: seq<CartItem>, products: map<Id, Product>,
                             id: Id, userId: Id, now: int)
    requires InCatalog(lines, products)
    ensures Revenue(orders + [Order(id, userId, CartTotal(lines, products), Paid, now, Snapshot(lines, products))]) ==
              Revenue(orders) + CartTotal(lines, products)
  {
    var o := Order(id, userId, CartTotal(lines, products), Paid, now, Snapshot(lines, products));
    RevenueAfterOrder(orders, o);
    SnapshotTotal(lines, products);
  }

  /** A status change rewrites no order item, so revenue stays. */
  lemma {:induction false} RevenueIgnoresStatus(orders: seq<Order>, i: nat, status: OrderStatus)
    requires i < |orders|
    ensures Revenue(orders[i := orders[i].(status := status)]) == Revenue(orders)
  {
    AllItemsIgnoresStatus(orders, i, status);
  }

  lemma {:induction false} AllItemsIgnoresStatus(orders: seq<Order>, i: nat, status: OrderStatus)
    requires i < |orders|
    ensures AllItems(orders[i := orders[i].(status := status)]) == AllItems(orders)
  {
    var after := orders[i := orders[i].(status := status)];
    var n := |orders| - 1;
    if i < n {
      assert after[..n] == orders[..n][i := orders[i].(status := status)];
      AllItemsIgnoresStatus(orders[..n], i, status);
    } else {
      assert after[..n] == orders[..n];
    }
  }

  // -------------------------------------------------------------- sales

  /** SHIPPED and DELIVERED orders count as sales. */
  predicate Completed(o: Order)
  {
    o.status == Shipped || o.status == Delivered
  }

  /** Number of orders that count as sales. */
  function SalesCount(orders: seq<Order>): (r: nat)
    ensures r <= |orders|
  {
    if orders == [] then 0
    else SalesCount(orders[..|orders| - 1]) + (if Completed(orders[|orders| - 1]) then 1 else 0)
  }

  /** getTotalSales. */
  function TotalSales(session: Option<Session>, orders: seq<Order>): (r: Result<nat, Error>)
    ensures !IsAdmin(session) <==> r == Err(Unauthorized)
    ensures IsAdmin(session) ==> r == Ok(SalesCount(orders))
    ensures r.Ok? ==> r.value <= |orders|
  {
    if !IsAdmin(session) then Err(Unauthorized) else Ok(SalesCount(orders))
  }

  /** Orders with no completed status contribute nothing; in particular PAID orders never count. */
  lemma {:induction false} SalesIgnoreIncomplete(orders: seq<Order>)
    ensures (forall i :: 0 <= i < |orders| ==> !Completed(orders[i])) ==> SalesCount(orders) == 0
    ensures (forall i :: 0 <= i < |orders| ==> Completed(orders[i])) ==> SalesCount(orders) == |orders|
  {
    if orders != [] {
      SalesIgnoreIncomplete(orders[..|orders| - 1]);
    }
  }

  /** The sales count is the number of orders a status filter keeps. */
  lemma {:induction false} SalesCountIsCompletedOrders(orders: seq<Order>)
    ensures SalesCount(orders) == |Select(orders, Completed, true)|
  {
    if orders != [] {
      var n := |orders| - 1;
      SalesCountIsCompletedOrders(orders[..n]);
      SelectSnoc(orders[..n], orders[n], Completed, true);
      assert orders[..n] + [orders[n]] == orders;
    }
  }

  lemma {:induction false} SelectSnoc<T(!new), K>(s: seq<T>, x: T, key: T -> K, k: K)
    ensures Select(s + [x], key, k) == Select(s, key, k) + (if key(x) == k then [x] else [])
  {
    if s == [] {
      assert [] + [x] == [x];
    } else {
      assert (s + [x])[0] == s[0] && (s + [x])[1..] == s[1..] + [x];
      SelectSnoc(s[1..], x, key, k);
    }
  }

  /** A new PAID order leaves the sales count as it was. */
  lemma SalesAfterPaidOrder(orders: seq<Order>, o: Order)
    requires o.status == Paid
    ensures SalesCount(orders + [o]) == SalesCount(orders)
  {
    assert (orders + [o])[..|orders|] == orders;
  }

  /** A status change adds one sale when it completes an order and removes one when it reopens it. */
  lemma {:induction false} SalesAfterStatusChange(orders: seq<Order>, i: nat, status: OrderStatus)
    requires i < |orders|
    ensures var after := orders[i := orders[i].(status := status)];
            SalesCount(after) ==
              SalesCount(orders) - (if Completed(orders[i]) then 1 else 0)
              + (if Completed(orders[i].(status := status)) then 1 else 0)
  {
    var after := orders[i := orders[i].(status := status)];
    var n := |orders| - 1;
    if i < n {
      assert after[..n] == orders[..n][i := orders[i].(status := status)];
      SalesAfterStatusChange(orders[..n], i, status);
    } else {
      assert after[..n] == orders[..n];
    }
  }
}
