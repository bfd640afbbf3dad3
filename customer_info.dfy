/**
 * The administrator's customer queries of lib/actions/customerInfo.ts: the
 * list of customers, one customer with their cart and their orders newest
 * first, and the change of one order's status.
 */
module CustomerInfo {
  import opened Common
  import opened Tables
  import opened Store

  /**
   * getCustomerInfo: the users the filter `role: { not: "admin" }` keeps, in
   * table order. The filter is a SQL `role <> 'admin'`, which holds of no row
   * whose role is NULL, so users without a role are not listed.
   */
  function GetCustomerInfo(session: Option<Session>, users: seq<User>): (r: Result<seq<User>, Error>)
    ensures !IsAdmin(session) <==> r == Err(Unauthorized)
    ensures IsAdmin(session) ==> r.Ok?
    ensures r.Ok? ==> forall u :: u in r.value <==> u in users && u.role.Some? && u.role.value != AdminRole
    ensures r.Ok? ==> |r.value| <= |users|
  {
    if !IsAdmin(session) then Err(Unauthorized) else Ok(Select(users, ClassOf, Customer))
  }

  /** The customers, the administrators and the users without a role together are exactly the users, each once. */
  lemma {:induction false} RoleClassesPartitionUsers(users: seq<User>)
    ensures multiset(Select(users, ClassOf, Customer)) + multiset(Select(users, ClassOf, Administrator))
              + multiset(Select(users, ClassOf, RoleLess)) == multiset(users)
  {
    if users != [] {
      var h, t := users[0], users[1..];
      RoleClassesPartitionUsers(t);
      SplitCons(users);
      SelectStep(users, ClassOf, Customer);
      SelectStep(users, ClassOf, Administrator);
      SelectStep(users, ClassOf, RoleLess);
      AddToOneClass(h, ClassOf(h),
                    multiset(Select(users, ClassOf, Customer)), multiset(Select(users, ClassOf, Administrator)),
                    multiset(Select(users, ClassOf, RoleLess)),
                    multiset(Select(t, ClassOf, Customer)), multiset(Select(t, ClassOf, Administrator)),
                    multiset(Select(t, ClassOf, RoleLess)));
    }
  }

  /** A row added to the class it belongs to, and to no other, is added once to the union of the classes. */
  lemma AddToOneClass(h: User, k: RoleClass, c': multiset<User>, a': multiset<User>, n': multiset<User>,
                      c: multiset<User>, a: multiset<User>, n: multiset<User>)
    requires c' == (if k == Customer then multiset{h} else multiset{}) + c
    requires a' == (if k == Administrator then multiset{h} else multiset{}) + a
    requires n' == (if k == RoleLess then multiset{h} else multiset{}) + n
    ensures c' + a' + n' == multiset{h} + (c + a + n)
  {
  }

  /** What an administrator is listed: the users less the administrators and the users without a role. */
  lemma CustomersPartitionUsers(session: Option<Session>, users: seq<User>)
    requires IsAdmin(session)
    ensures GetCustomerInfo(session, users).Ok?
    ensures multiset(GetCustomerInfo(session, users).value) + multiset(Select(users, ClassOf, Administrator))
              + multiset(Select(users, ClassOf, RoleLess)) == multiset(users)
    ensures |GetCustomerInfo(session, users).value| + |Select(users, ClassOf, Administrator)|
              + |Select(users, ClassOf, RoleLess)| == |users|
  {
    RoleClassesPartitionUsers(users);
    assert |multiset(users)| == |users|;
  }

  // ------------------------------------------------------ newest first

  predicate NewestFirst(os: seq<Order>)
  {
    forall i, j :: 0 <= i < j < |os| ==> os[i].createdAt >= os[j].createdAt
  }

  /** An order no older than the head of a newest-first list may go in front of it. */
  lemma ConsNewestFirst(h: Order, rest: seq<Order>)
    requires NewestFirst(rest)
    requires rest != [] ==> h.createdAt >= rest[0].createdAt
    ensures NewestFirst([h] + rest)
  {
    var s := [h] + rest;
    forall i, j | 0 <= i < j < |s|
      ensures s[i].createdAt >= s[j].createdAt
    {
      if i == 0 {
        assert s[j] == rest[j - 1];
        assert rest[0].createdAt >= rest[j - 1].createdAt;
      } else {
        assert s[i] == rest[i - 1] && s[j] == rest[j - 1];
      }
    }
  }

  /** The tail of a newest-first list is newest first. */
  lemma TailNewestFirst(os: seq<Order>)
    requires NewestFirst(os) && os != []
    ensures NewestFirst(os[1..])
    ensures os[1..] != [] ==> os[0].createdAt >= os[1..][0].createdAt
  {
    var t := os[1..];
    forall i, j | 0 <= i < j < |t| ensures t[i].createdAt >= t[j].createdAt {
      assert t[i] == os[i + 1] && t[j] == os[j + 1];
    }
  }

  /** Places an order in a newest-first list, ahead of every order no newer than it. */
  function InsertByDate(o: Order, os: seq<Order>): (r: seq<Order>)
    requires NewestFirst(os)
    ensures NewestFirst(r)
    ensures multiset(r) == multiset(os) + multiset{o}
    ensures |r| == |os| + 1
    ensures r[0] == o || (os != [] && r[0] == os[0])
  {
    if os == [] then [o]
    else if o.createdAt >= os[0].createdAt then
      ConsNewestFirst(o, os);
      [o] + os
    else
      TailNewestFirst(os);
      var rest := InsertByDate(o, os[1..]);
      ConsNewestFirst(os[0], rest);
      ConsSplit(os);
      [os[0]] + rest
  }

  lemma ConsSplit(os: seq<Order>)
    requires os != []
    ensures os == [os[0]] + os[1..]
  {
  }

  /** orderBy createdAt descending, as an insertion sort. */
  function SortNewestFirst(os: seq<Order>): (r: seq<Order>)
    ensures NewestFirst(r)
    ensures multiset(r) == multiset(os)
  {
    if os == [] then []
    else
      assert os == [os[0]] + os[1..];
      InsertByDate(os[0], SortNewestFirst(os[1..]))
  }

  // -------------------------------------------------------- one customer

  /** What getOneCustomerInfo returns: the user, their cart's lines if they have a cart, their orders. */
  datatype CustomerDetail = CustomerDetail(user: User, cart: Option<seq<CartItem>>, orders: seq<Order>)

  /** getOneCustomerInfo: administrators only; an unknown user id is an error. */
  function GetOneCustomerInfo(session: Option<Session>, users: seq<User>, carts: seq<Cart>,
                              items: seq<CartItem>, orders: seq<Order>, userId: Id): (r: Result<CustomerDetail, Error>)
    ensures !IsAdmin(session) <==> r == Err(Unauthorized)
    ensures IsAdmin(session) ==>
              (r == Err(CustomerNotFound) <==> forall i :: 0 <= i < |users| ==> users[i].id != userId)
    ensures IsAdmin(session) && (exists i :: 0 <= i < |users| && users[i].id == userId) ==> r.Ok?
    ensures r.Ok? ==> r.value.user in users && r.value.user.id == userId
    ensures r.Ok? ==> (r.value.cart.None? <==> CartOf(carts, userId).None?)
    ensures r.Ok? && r.value.cart.Some? ==> r.value.cart.value == CartLines(carts, items, userId)
    ensures r.Ok? ==> NewestFirst(r.value.orders)
    ensures r.Ok? ==> forall o :: o in r.value.orders <==> o in orders && o.userId == userId
    ensures r.Ok? ==> multiset(r.value.orders) == multiset(Select(orders, OrderUser, userId))
  {
    if !IsAdmin(session) then Err(Unauthorized)
    else match IndexOf(users, UserIdOf, userId)
      case None => Err(CustomerNotFound)
      case Some(i) =>
        var cart := if CartOf(carts, userId).Some? then Some(CartLines(carts, items, userId)) else None;
        var mine := Select(orders, OrderUser, userId);
        var sorted := SortNewestFirst(mine);
        assert forall o :: o in sorted <==> o in multiset(mine);
        Ok(CustomerDetail(users[i], cart, sorted))
  }

  // ------------------------------------------------------ order status

  /**
   * changeOrderStatus: administrators only; sets the status of the order with
   * this id. Updating a missing order fails, and the failure is reported as
   * a failed status update.
   */
  method ChangeOrderStatus(st: Store, session: Option<Session>, id: Id, status: OrderStatus)
    returns (r: Result<(), Error>)
    requires st.Valid()
    modifies st`orders
    ensures st.Valid()
    ensures !IsAdmin(session) ==> r == Err(Unauthorized) && st.orders == old(st.orders)
    ensures IsAdmin(session) ==>
              match old(IndexOf(st.orders, OrderIdOf, id))
              case None => r == Err(OrderStatusUpdateFailed) && st.orders == old(st.orders)
              case Some(i) =>
                && r == Ok(())
                && st.orders == old(st.orders)[i := old(st.orders)[i].(status := status)]
  {
    if !IsAdmin(session) {
      return Err(Unauthorized);
    }
    match IndexOf(st.orders, OrderIdOf, id) {
      case None =>
        r := Err(OrderStatusUpdateFailed);
      case Some(i) =>
        var o := st.orders[i];
        assert o in st.orders;
        UpdateUnique(st.orders, i, o.(status := status), OrderIdOf);
        st.orders := st.orders[i := o.(status := status)];
        r := Ok(());
    }
  }

  /** A status change rewrites the named order's status and nothing else in the order table. */
  lemma StatusChangeTouchesOneOrder(orders: seq<Order>, i: nat, status: OrderStatus)
    requires i < |orders|
    ensures var after := orders[i := orders[i].(status := status)];
            && |after| == |orders|
            && after[i].status == status
            && after[i] == orders[i].(status := status)
            && (forall j :: 0 <= j < |orders| && j != i ==> after[j] == orders[j])
            && (forall j :: 0 <= j < |orders| ==>
                  after[j].id == orders[j].id && after[j].total == orders[j].total && after[j].items == orders[j].items)
  {
  }
}
