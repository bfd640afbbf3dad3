/**
 * The shop's persistence layer as an in-memory store: products, one cart
 * per user, cart lines, orders with price snapshots, and users with a role.
 * `Store.Valid()` collects the constraints the schema and the actions keep:
 * unique keys, references between tables, non-negative stock and prices,
 * and order totals that equal the sum over their snapshots.
 */
module Store {
  import opened Common
  import opened Tables
  import Forms

  // ------------------------------------------------------------ entities

  /** The role a user record or a session carries: a string, or none at all (the column has no default). */
  type Role = Option<string>

  /** The one role string the actions treat specially. */
  const AdminRole: string := "admin"

  /** The session an action sees: who is signed in and with which role. */
  datatype Session = Session(userId: Id, role: Role)

  /** The shopper guard `!session?.user?.id`: an empty id counts as signed out. */
  predicate SignedIn(session: Option<Session>)
  {
    session.Some? && session.value.userId != ""
  }

  /** The admin guard `user?.role !== "admin"` negated: a session user whose role is "admin". */
  predicate IsAdmin(session: Option<Session>)
  {
    session.Some? && session.value.role == Some(AdminRole)
  }

  /**
   * How a `role <> 'admin'` filter sees a user: an administrator, a customer
   * (any other role string), or a user with no role, whom SQL's comparison
   * with NULL drops.
   */
  datatype RoleClass = Administrator | Customer | RoleLess

  /** The order status enumeration; values other than these three are kept by name. */
  datatype OrderStatus = Paid | Shipped | Delivered | OtherStatus(name: string)

  /** Prices are integer cents. */
  datatype Product = Product(name: string, price: int, quantity: int, lowStockAt: Option<int>, image: string)

  datatype Cart = Cart(id: Id, userId: Id)

  datatype CartItem = CartItem(id: Id, cartId: Id, productId: Id, quantity: int)

  /** A line of an order: the quantity bought and the price paid, frozen at purchase. */
  datatype OrderItem = OrderItem(productId: Id, quantity: int, price: int)

  datatype Order = Order(
    id: Id, userId: Id, total: int, status: OrderStatus, createdAt: int, items: seq<OrderItem>)

  datatype User = User(id: Id, email: string, name: string, role: Role, phoneNumber: string)

  /** Everything an action can throw or return as a failure. */
  datatype Error =
    | Unauthorized
    | ValidationFailed(issues: seq<Forms.Issue>)
    | CartEmpty
    | NotEnoughStock(productName: string)
    | InvalidQuantity
    | ProductNotFound
    | InsufficientStock
    | ProductIdRequired
    | ProductInUse
    | CustomerNotFound
    | OrderStatusUpdateFailed
    | RecordNotFound

  // ---------------------------------------------------------- table keys

  function CartIdOf(c: Cart): Id { c.id }
  function CartOwner(c: Cart): Id { c.userId }
  function ItemId(l: CartItem): Id { l.id }
  function ItemCart(l: CartItem): Id { l.cartId }
  function ItemProduct(l: CartItem): Id { l.productId }
  /** The compound unique key cartId_productId. */
  function ItemKey(l: CartItem): (Id, Id) { (l.cartId, l.productId) }
  /** A line addressed by its id within a given cart. */
  function ItemRef(l: CartItem): (Id, Id) { (l.id, l.cartId) }
  function OrderIdOf(o: Order): Id { o.id }
  function OrderUser(o: Order): Id { o.userId }
  function UserIdOf(u: User): Id { u.id }
  function ClassOf(u: User): RoleClass
  {
    match u.role
    case None => RoleLess
    case Some(name) => if name == AdminRole then Administrator else Customer
  }

  // ------------------------------------------------------- cart queries

  /** The user's cart, if one exists. */
  function CartOf(carts: seq<Cart>, userId: Id): (r: Option<Cart>)
    ensures r.Some? ==> r.value in carts && r.value.userId == userId
    ensures r.None? <==> forall i :: 0 <= i < |carts| ==> carts[i].userId != userId
  {
    match IndexOf(carts, CartOwner, userId)
    case None => None
    case Some(i) => Some(carts[i])
  }

  /** The lines of the user's cart, in table order; none when the user has no cart. */
  function CartLines(carts: seq<Cart>, items: seq<CartItem>, userId: Id): (r: seq<CartItem>)
    ensures CartOf(carts, userId).None? ==> r == []
    ensures CartOf(carts, userId).Some? ==>
              forall x :: x in r <==> x in items && x.cartId == CartOf(carts, userId).value.id
    ensures |r| <= |items|
  {
    match CartOf(carts, userId)
    case None => []
    case Some(c) => Select(items, ItemCart, c.id)
  }

  predicate InCatalog(items: seq<CartItem>, products: map<Id, Product>)
  {
    forall k :: 0 <= k < |items| ==> items[k].productId in products
  }

  /** The lines of one cart name each product at most once. */
  lemma CartLinesDistinctProducts(items: seq<CartItem>, cartId: Id)
    requires Unique(items, ItemKey)
    ensures Unique(Select(items, ItemCart, cartId), ItemProduct)
  {
    SelectUnique(items, ItemCart, cartId, ItemKey);
    var lines := Select(items, ItemCart, cartId);
    assert forall i :: 0 <= i < |lines| ==> ItemKey(lines[i]) == (cartId, ItemProduct(lines[i]));
  }

  /** The quantity on the line for (cartId, productId), or 0 when there is no such line. */
  function LineQuantity(items: seq<CartItem>, cartId: Id, productId: Id): int
  {
    match IndexOf(items, ItemKey, (cartId, productId))
    case None => 0
    case Some(i) => items[i].quantity
  }

  /** Rewriting one line under its own key changes that key's quantity only. */
  lemma LineQuantityOfUpdate(items: seq<CartItem>, i: nat, v: CartItem, cartId: Id, productId: Id)
    requires Unique(items, ItemKey) && i < |items| && ItemKey(v) == ItemKey(items[i])
    ensures LineQuantity(items[i := v], cartId, productId) ==
              if (cartId, productId) == ItemKey(v) then v.quantity else LineQuantity(items, cartId, productId)
  {
    var u := items[i := v];
    UpdateUnique(items, i, v, ItemKey);
    if (cartId, productId) == ItemKey(v) {
      IndexOfUnique(u, ItemKey, i);
    } else {
      match IndexOf(items, ItemKey, (cartId, productId))
      case None =>
        assert forall j :: 0 <= j < |u| ==> ItemKey(u[j]) != (cartId, productId);
      case Some(j) =>
        IndexOfUnique(u, ItemKey, j);
    }
  }

  /** Appending a line with a new key gives that key the line's quantity and changes nothing else. */
  lemma LineQuantityOfAppend(items: seq<CartItem>, x: CartItem, cartId: Id, productId: Id)
    requires Unique(items, ItemKey)
    requires forall j :: 0 <= j < |items| ==> ItemKey(items[j]) != ItemKey(x)
    ensures LineQuantity(items + [x], cartId, productId) ==
              if (cartId, productId) == ItemKey(x) then x.quantity else LineQuantity(items, cartId, productId)
  {
    var u := items + [x];
    AppendUnique(items, x, ItemKey);
    if (cartId, productId) == ItemKey(x) {
      IndexOfUnique(u, ItemKey, |items|);
    } else {
      match IndexOf(items, ItemKey, (cartId, productId))
      case None =>
        assert forall j :: 0 <= j < |u| ==> ItemKey(u[j]) != (cartId, productId);
      case Some(j) =>
        IndexOfUnique(u, ItemKey, j);
    }
  }

  /** The first line, in cart order, whose quantity exceeds its product's stock. */
  function Shortage(lines: seq<CartItem>, products: map<Id, Product>): (r: Option<nat>)
    requires InCatalog(lines, products)
    ensures r.None? <==> StockCovers(lines, products)
    ensures r.Some? ==> r.value < |lines|
    ensures r.Some? ==> lines[r.value].quantity > products[lines[r.value].productId].quantity
    ensures r.Some? ==> forall k :: 0 <= k < r.value ==>
              lines[k].quantity <= products[lines[k].productId].quantity
  {
    if lines == [] then None
    else if lines[0].quantity > products[lines[0].productId].quantity then Some(0)
    else
      assert forall k :: 0 <= k < |lines| - 1 ==> lines[1..][k] == lines[k + 1];
      match Shortage(lines[1..], products)
      case None => None
      case Some(i) => Some(i + 1)
  }

  // ------------------------------------------------ totals and snapshots

  /** Σ price × quantity over order items, at their snapshot prices. */
  function ItemsTotal(items: seq<OrderItem>): int
  {
    if items == [] then 0
    else ItemsTotal(items[..|items| - 1]) + items[|items| - 1].price * items[|items| - 1].quantity
  }

  /** Σ price × quantity over cart lines, at the products' current prices. */
  function CartTotal(lines: seq<CartItem>, products: map<Id, Product>): int
    requires InCatalog(lines, products)
  {
    if lines == [] then 0
    else
      var last := lines[|lines| - 1];
      CartTotal(lines[..|lines| - 1], products) + products[last.productId].price * last.quantity
  }

  /** One order item per cart line, carrying the line's quantity and the product's current price. */
  function Snapshot(lines: seq<CartItem>, products: map<Id, Product>): (r: seq<OrderItem>)
    requires InCatalog(lines, products)
    ensures |r| == |lines|
    ensures forall k :: 0 <= k < |r| ==>
              r[k] == OrderItem(lines[k].productId, lines[k].quantity, products[lines[k].productId].price)
  {
    if lines == [] then []
    else
      var last := lines[|lines| - 1];
      Snapshot(lines[..|lines| - 1], products) + [OrderItem(last.productId, last.quantity, products[last.productId].price)]
  }

  /** The order created from a cart totals to the cart's value. */
  lemma {:induction false} SnapshotTotal(lines: seq<CartItem>, products: map<Id, Product>)
    requires InCatalog(lines, products)
    ensures ItemsTotal(Snapshot(lines, products)) == CartTotal(lines, products)
  {
    if lines != [] {
      var pre := lines[..|lines| - 1];
      SnapshotTotal(pre, products);
      var s := Snapshot(lines, products);
      assert s[..|s| - 1] == Snapshot(pre, products);
    }
  }

  // -------------------------------------------------- stock decrements

  /** Σ quantity over the lines for one product. */
  function Demand(lines: seq<CartItem>, productId: Id): int
  {
    if lines == [] then 0
    else
      var last := lines[|lines| - 1];
      Demand(lines[..|lines| - 1], productId) + (if last.productId == productId then last.quantity else 0)
  }

  /** The stock after decrementing, line by line, each line's product by its quantity. */
  function Decrement(products: map<Id, Product>, lines: seq<CartItem>): (r: map<Id, Product>)
    requires InCatalog(lines, products)
    ensures r.Keys == products.Keys
  {
    if lines == [] then products
    else
      var last := lines[|lines| - 1];
      var before := Decrement(products, lines[..|lines| - 1]);
      var p := before[last.productId];
      before[last.productId := p.(quantity := p.quantity - last.quantity)]
  }

  /** Decrementing lowers each product's stock by its total demand and touches nothing else. */
  lemma {:induction false} DecrementEffect(products: map<Id, Product>, lines: seq<CartItem>, id: Id)
    requires InCatalog(lines, products) && id in products
    ensures Decrement(products, lines)[id] ==
              products[id].(quantity := products[id].quantity - Demand(lines, id))
  {
    if lines != [] {
      DecrementEffect(products, lines[..|lines| - 1], id);
    }
  }

  lemma {:induction false} DemandOfAbsent(lines: seq<CartItem>, id: Id)
    requires forall k :: 0 <= k < |lines| ==> lines[k].productId != id
    ensures Demand(lines, id) == 0
  {
    if lines != [] {
      DemandOfAbsent(lines[..|lines| - 1], id);
    }
  }

  /** With one line per product, a product's demand is that line's quantity. */
  lemma {:induction false} DemandOfUniqueLine(lines: seq<CartItem>, k: nat)
    requires Unique(lines, ItemProduct) && k < |lines|
    ensures Demand(lines, lines[k].productId) == lines[k].quantity
  {
    var n := |lines| - 1;
    var pre := lines[..n];
    var id := lines[k].productId;
    assert forall j :: 0 <= j < n ==> pre[j] == lines[j];
    if k == n {
      assert forall j :: 0 <= j < n ==> ItemProduct(lines[j]) != ItemProduct(lines[n]);
      DemandOfAbsent(pre, id);
    } else {
      assert ItemProduct(lines[n]) != ItemProduct(lines[k]);
      assert Unique(pre, ItemProduct) by {
        forall i, j | 0 <= i < |pre| && 0 <= j < |pre| && i != j
          ensures ItemProduct(pre[i]) != ItemProduct(pre[j])
        {
          assert pre[i] == lines[i] && pre[j] == lines[j];
        }
      }
      DemandOfUniqueLine(pre, k);
    }
  }

  /** Stock suffices for every line. */
  predicate StockCovers(lines: seq<CartItem>, products: map<Id, Product>)
    requires InCatalog(lines, products)
  {
    forall k :: 0 <= k < |lines| ==> lines[k].quantity <= products[lines[k].productId].quantity
  }

  /**
   * Decrementing by a cart's lines (one per product) lowers each named
   * product's stock by exactly its line's quantity and leaves the rest alone.
   */
  lemma DecrementByLines(products: map<Id, Product>, lines: seq<CartItem>)
    requires InCatalog(lines, products) && Unique(lines, ItemProduct)
    ensures forall k :: 0 <= k < |lines| ==>
              Decrement(products, lines)[lines[k].productId] ==
              products[lines[k].productId].(quantity := products[lines[k].productId].quantity - lines[k].quantity)
    ensures forall id :: id in products && (forall k :: 0 <= k < |lines| ==> lines[k].productId != id) ==>
              Decrement(products, lines)[id] == products[id]
  {
    forall k | 0 <= k < |lines|
      ensures Decrement(products, lines)[lines[k].productId] ==
              products[lines[k].productId].(quantity := products[lines[k].productId].quantity - lines[k].quantity)
    {
      DecrementEffect(products, lines, lines[k].productId);
      DemandOfUniqueLine(lines, k);
    }
    forall id | id in products && (forall k :: 0 <= k < |lines| ==> lines[k].productId != id)
      ensures Decrement(products, lines)[id] == products[id]
    {
      DecrementEffect(products, lines, id);
      DemandOfAbsent(lines, id);
    }
  }

  /**
   * Checking out a user's cart lowers each of its products' stock by exactly
   * that product's line quantity, keeps it non-negative when stock covers
   * the cart, and leaves every other product as it was.
   */
  lemma CheckoutStock(products: map<Id, Product>, carts: seq<Cart>, items: seq<CartItem>, userId: Id)
    requires Unique(items, ItemKey) && InCatalog(CartLines(carts, items, userId), products)
    ensures var lines := CartLines(carts, items, userId);
            var d := Decrement(products, lines);
            && (forall k :: 0 <= k < |lines| ==>
                  d[lines[k].productId] ==
                  products[lines[k].productId].(quantity := products[lines[k].productId].quantity - lines[k].quantity))
            && (StockCovers(lines, products) ==>
                  forall k :: 0 <= k < |lines| ==> d[lines[k].productId].quantity >= 0)
            && (forall id :: id in products && (forall k :: 0 <= k < |lines| ==> lines[k].productId != id) ==>
                  d[id] == products[id])
  {
    var lines := CartLines(carts, items, userId);
    if CartOf(carts, userId).Some? {
      CartLinesDistinctProducts(items, CartOf(carts, userId).value.id);
    }
    DecrementByLines(products, lines);
  }

  /** After the cart's lines are deleted, the user's cart reads as empty and every other cart is untouched. */
  lemma CartClearedAfterCheckout(carts: seq<Cart>, items: seq<CartItem>, userId: Id, other: Id)
    requires Unique(carts, CartIdOf) && CartOf(carts, userId).Some?
    ensures var left := Reject(items, ItemCart, CartOf(carts, userId).value.id);
            && CartLines(carts, left, userId) == []
            && (other != userId ==> CartLines(carts, left, other) == CartLines(carts, items, other))
  {
    var c := CartOf(carts, userId).value.id;
    SelectOfRejectSame(items, ItemCart, c);
    if other != userId && CartOf(carts, other).Some? {
      var c' := CartOf(carts, other).value;
      var i :| 0 <= i < |carts| && carts[i] == c';
      var j :| 0 <= j < |carts| && carts[j] == CartOf(carts, userId).value;
      assert i != j;
      SelectOfReject(items, ItemCart, c, c'.id);
    }
  }

  // ------------------------------------------------------- invariants

  ghost predicate ProductValid(p: Product)
  {
    p.quantity >= 0 && p.price >= 0 && (p.lowStockAt.Some? ==> p.lowStockAt.value >= 0)
  }

  ghost predicate ProductsValid(products: map<Id, Product>, next: nat)
  {
    forall id :: id in products ==> Issued(id, next) && ProductValid(products[id])
  }

  ghost predicate CartsValid(carts: seq<Cart>, next: nat)
  {
    && (forall c :: c in carts ==> Issued(c.id, next))
    && Unique(carts, CartIdOf)
    && Unique(carts, CartOwner)
  }

  ghost predicate ItemsValid(items: seq<CartItem>, products: map<Id, Product>, next: nat)
  {
    && (forall l :: l in items ==> Issued(l.id, next) && Issued(l.cartId, next) && l.productId in products)
    && Unique(items, ItemId)
    && Unique(items, ItemKey)
  }

  ghost predicate OrderValid(o: Order, products: map<Id, Product>)
  {
    && o.total == ItemsTotal(o.items)
    && (forall k :: 0 <= k < |o.items| ==> o.items[k].productId in products)
  }

  ghost predicate OrdersValid(orders: seq<Order>, products: map<Id, Product>, next: nat)
  {
    && (forall o :: o in orders ==> Issued(o.id, next) && OrderValid(o, products))
    && Unique(orders, OrderIdOf)
  }

  lemma IssuedLater(id: Id, n: nat, m: nat)
    requires Issued(id, n) && n <= m
    ensures Issued(id, m)
  {
  }

  /** Advancing the identifier counter keeps every table valid. */
  lemma TablesLater(s: TablesState, n: nat, m: nat)
    requires n <= m
    requires ProductsValid(s.products, n) && CartsValid(s.carts, n)
    requires ItemsValid(s.items, s.products, n) && OrdersValid(s.orders, s.products, n)
    ensures ProductsValid(s.products, m) && CartsValid(s.carts, m)
    ensures ItemsValid(s.items, s.products, m) && OrdersValid(s.orders, s.products, m)
  {
    forall id | id in s.products ensures Issued(id, m) { IssuedLater(id, n, m); }
    forall c | c in s.carts ensures Issued(c.id, m) { IssuedLater(c.id, n, m); }
    forall l | l in s.items ensures Issued(l.id, m) && Issued(l.cartId, m) {
      IssuedLater(l.id, n, m);
      IssuedLater(l.cartId, n, m);
    }
    forall o | o in s.orders ensures Issued(o.id, m) { IssuedLater(o.id, n, m); }
  }

  /** Inserting a line with new identifiers, an issued cart and a catalogued product keeps the line table valid. */
  lemma AppendLineValid(items: seq<CartItem>, line: CartItem, products: map<Id, Product>, n: nat)
    requires ItemsValid(items, products, n)
    requires Issued(line.id, n) && Issued(line.cartId, n) && line.productId in products
    requires forall l :: l in items ==> l.id != line.id
    requires forall j :: 0 <= j < |items| ==> ItemKey(items[j]) != ItemKey(line)
    ensures ItemsValid(items + [line], products, n)
  {
    AppendUnique(items, line, ItemId);
    AppendUnique(items, line, ItemKey);
  }

  /** Rewriting a line's quantity keeps the line table valid. */
  lemma UpdateLineValid(items: seq<CartItem>, i: nat, v: CartItem, products: map<Id, Product>, n: nat)
    requires ItemsValid(items, products, n) && i < |items|
    requires v == items[i].(quantity := v.quantity)
    ensures ItemsValid(items[i := v], products, n)
  {
    assert items[i] in items;
    UpdateUnique(items, i, v, ItemId);
    UpdateUnique(items, i, v, ItemKey);
  }

  /** Decrementing by lines that stock covers, one line per product, keeps every stock non-negative. */
  lemma DecrementKeepsProductsValid(products: map<Id, Product>, lines: seq<CartItem>, n: nat)
    requires ProductsValid(products, n) && InCatalog(lines, products)
    requires Unique(lines, ItemProduct) && StockCovers(lines, products)
    ensures ProductsValid(Decrement(products, lines), n)
  {
    DecrementByLines(products, lines);
    var d := Decrement(products, lines);
    forall id | id in d
      ensures Issued(id, n) && ProductValid(d[id])
    {
      if k :| 0 <= k < |lines| && lines[k].productId == id {
        assert d[id] == products[id].(quantity := products[id].quantity - lines[k].quantity);
      } else {
        assert d[id] == products[id];
      }
    }
  }

  /** Deleting one cart's lines keeps the line table valid over any catalog with the same keys. */
  lemma ItemsAfterCheckout(items: seq<CartItem>, products: map<Id, Product>, d: map<Id, Product>, n: nat, cartId: Id)
    requires ItemsValid(items, products, n) && d.Keys == products.Keys
    ensures ItemsValid(Reject(items, ItemCart, cartId), d, n)
  {
    RejectUnique(items, ItemCart, cartId, ItemId);
    RejectUnique(items, ItemCart, cartId, ItemKey);
  }

  /** Appending an order with a new identifier and a consistent total keeps the order table valid. */
  lemma OrdersAfterAppend(orders: seq<Order>, products: map<Id, Product>, d: map<Id, Product>, n: nat, order: Order)
    requires OrdersValid(orders, products, n) && d.Keys == products.Keys
    requires Issued(order.id, n) && OrderValid(order, d)
    requires forall o :: o in orders ==> o.id != order.id
    ensures OrdersValid(orders + [order], d, n)
  {
    forall o | o in orders ensures OrderValid(o, d) {
      assert OrderValid(o, products);
    }
    AppendUnique(orders, order, OrderIdOf);
  }

  /** The order a checkout creates from a cart is consistent with the catalog. */
  lemma CheckoutOrderValid(lines: seq<CartItem>, products: map<Id, Product>, d: map<Id, Product>, order: Order)
    requires InCatalog(lines, products) && d.Keys == products.Keys
    requires order.total == CartTotal(lines, products) && order.items == Snapshot(lines, products)
    ensures OrderValid(order, d)
  {
    SnapshotTotal(lines, products);
  }

  /** The tables of a store as one value, for lemmas about them. */
  datatype TablesState = TablesState(
    products: map<Id, Product>, carts: seq<Cart>, items: seq<CartItem>, orders: seq<Order>)

  // ------------------------------------------------------------- store

  class Store {
    var products: map<Id, Product>
    var carts: seq<Cart>
    var cartItems: seq<CartItem>
    var orders: seq<Order>
    var users: seq<User>
    /** The counter behind the next identifier the store issues. */
    var nextId: nat

    ghost predicate Valid()
      reads this
    {
      && ProductsValid(products, nextId)
      && CartsValid(carts, nextId)
      && ItemsValid(cartItems, products, nextId)
      && OrdersValid(orders, products, nextId)
      && Unique(users, UserIdOf)
    }

    ghost function State(): TablesState
      reads this
    {
      TablesState(products, carts, cartItems, orders)
    }

    /** An empty shop with the given registered users. */
    constructor (users: seq<User>)
      requires Unique(users, UserIdOf)
      ensures Valid()
      ensures products == map[] && carts == [] && cartItems == [] && orders == []
      ensures this.users == users && nextId == 0
    {
      products := map[];
      carts := [];
      cartItems := [];
      orders := [];
      this.users := users;
      nextId := 0;
    }

    /** Issues a fresh identifier: one no record holds and the store will not issue again. */
    method NewId() returns (id: Id)
      requires Valid()
      modifies this`nextId
      ensures Valid()
      ensures id == IdString(old(nextId)) && nextId == old(nextId) + 1
      ensures Issued(id, nextId)
      ensures id !in products
      ensures forall c :: c in carts ==> c.id != id
      ensures forall l :: l in cartItems ==> l.id != id && l.cartId != id
      ensures forall o :: o in orders ==> o.id != id
    {
      id := IdString(nextId);
      TablesLater(State(), nextId, nextId + 1);
      IssuedFresh(nextId);
      nextId := nextId + 1;
    }
  }
}
