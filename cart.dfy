/**
 * The cart actions of lib/actions/cart.ts as methods on the store: adding a
 * product to the user's cart, reading the cart, removing a line, setting a
 * line's quantity, and checking the cart out into a paid order.
 */
module CartActions {
  import opened Common
  import opened Tables
  import opened Store

  /** The product fields a cart entry shows. */
  datatype ProductSummary = ProductSummary(id: Id, name: string, image: string, price: int)

  /** A cart line as getCartItems returns it, joined with its product. */
  datatype CartEntry = CartEntry(id: Id, cartId: Id, quantity: int, product: ProductSummary)

  /** One entry per line, in line order, each carrying the line's quantity and its product. */
  function Entries(lines: seq<CartItem>, products: map<Id, Product>): (r: seq<CartEntry>)
    requires InCatalog(lines, products)
    ensures |r| == |lines|
    ensures forall k :: 0 <= k < |r| ==>
              && r[k].id == lines[k].id && r[k].cartId == lines[k].cartId
              && r[k].quantity == lines[k].quantity
              && r[k].product.id == lines[k].productId
              && r[k].product.name == products[lines[k].productId].name
              && r[k].product.image == products[lines[k].productId].image
              && r[k].product.price == products[lines[k].productId].price
  {
    if lines == [] then []
    else
      var l := lines[0];
      var p := products[l.productId];
      assert forall k :: 0 <= k < |lines| - 1 ==> lines[1..][k] == lines[k + 1];
      [CartEntry(l.id, l.cartId, l.quantity, ProductSummary(l.productId, p.name, p.image, p.price))]
      + Entries(lines[1..], products)
  }

  /** getCartItems: the user's cart lines with their products; no cart means no entries. */
  method GetCartItems(st: Store, session: Option<Session>) returns (r: Result<seq<CartEntry>, Error>)
    requires st.Valid()
    ensures !SignedIn(session) <==> r == Err(Unauthorized)
    ensures SignedIn(session) && CartOf(st.carts, session.value.userId).None? ==> r == Ok([])
    ensures SignedIn(session) ==>
              var lines := CartLines(st.carts, st.cartItems, session.value.userId);
              InCatalog(lines, st.products) && r == Ok(Entries(lines, st.products))
  {
    if !SignedIn(session) {
      return Err(Unauthorized);
    }
    var lines := CartLines(st.carts, st.cartItems, session.value.userId);
    r := Ok(Entries(lines, st.products));
  }

  /**
   * addToCart: find or create the user's cart, then raise the product's line
   * by one or insert a line of quantity one. Inserting a line for a product
   * the catalog lacks violates the foreign key; that failure is swallowed,
   * so the cart (if just created) stays and no line is added.
   */
  method AddToCart(st: Store, session: Option<Session>, productId: Id) returns (r: Result<(), Error>)
    requires st.Valid()
    modifies st
    ensures st.Valid()
    ensures !SignedIn(session) ==> r == Err(Unauthorized) && unchanged(st)
    ensures SignedIn(session) ==> r == Ok(())
    ensures st.products == old(st.products) && st.orders == old(st.orders) && st.users == old(st.users)
    ensures SignedIn(session) ==>
              var u := session.value.userId;
              && (old(CartOf(st.carts, u)).Some? ==> st.carts == old(st.carts))
              && (old(CartOf(st.carts, u)).None? ==> st.carts == old(st.carts) + [Cart(IdString(old(st.nextId)), u)])
    ensures SignedIn(session) ==> CartOf(st.carts, session.value.userId).Some?
    ensures SignedIn(session) ==>
              var u := session.value.userId;
              var c := CartOf(st.carts, u).value.id;
              var next := old(st.nextId) + (if old(CartOf(st.carts, u)).None? then 1 else 0);
              match old(IndexOf(st.cartItems, ItemKey, (c, productId)))
              case Some(i) =>
                && st.cartItems == old(st.cartItems)[i := old(st.cartItems)[i].(quantity := old(st.cartItems)[i].quantity + 1)]
                && st.nextId == next
              case None =>
                && (productId in old(st.products) ==>
                      st.cartItems == old(st.cartItems) + [CartItem(IdString(next), c, productId, 1)]
                      && st.nextId == next + 1)
                && (productId !in old(st.products) ==> st.cartItems == old(st.cartItems) && st.nextId == next)
    ensures SignedIn(session) ==>
              var c := CartOf(st.carts, session.value.userId).value.id;
              forall cartId, pid :: LineQuantity(st.cartItems, cartId, pid) ==
                old(LineQuantity(st.cartItems, cartId, pid))
                + (if (cartId, pid) == (c, productId) && productId in old(st.products) then 1 else 0)
  {
    if !SignedIn(session) {
      return Err(Unauthorized);
    }
    var cart := UpsertCart(st, session.value.userId);
    AddLine(st, cart, productId);
    r := Ok(());
  }

  /** The cart upsert: reuse the user's cart, or create one with a new identifier. */
  method UpsertCart(st: Store, userId: Id) returns (cart: Cart)
    requires st.Valid()
    modifies st`carts, st`nextId
    ensures st.Valid()
    ensures CartOf(st.carts, userId) == Some(cart)
    ensures old(CartOf(st.carts, userId)).Some? ==>
              cart == old(CartOf(st.carts, userId)).value && st.carts == old(st.carts) && st.nextId == old(st.nextId)
    ensures old(CartOf(st.carts, userId)).None? ==>
              && cart == Cart(IdString(old(st.nextId)), userId)
              && st.carts == old(st.carts) + [cart] && st.nextId == old(st.nextId) + 1
  {
    match CartOf(st.carts, userId) {
      case Some(c) =>
        cart := c;
      case None =>
        var id := st.NewId();
        cart := Cart(id, userId);
        AppendUnique(st.carts, cart, CartIdOf);
        AppendUnique(st.carts, cart, CartOwner);
        IndexOfUnique(st.carts + [cart], CartOwner, |st.carts|);
        st.carts := st.carts + [cart];
    }
  }

  /**
   * The line step of addToCart: raise the existing line for (cart, product)
   * by one, or insert a line of quantity one when the product exists.
   */
  method AddLine(st: Store, cart: Cart, productId: Id)
    requires st.Valid() && cart in st.carts
    modifies st`cartItems, st`nextId
    ensures st.Valid()
    ensures match old(IndexOf(st.cartItems, ItemKey, (cart.id, productId)))
            case Some(i) =>
              && st.cartItems == old(st.cartItems)[i := old(st.cartItems)[i].(quantity := old(st.cartItems)[i].quantity + 1)]
              && st.nextId == old(st.nextId)
            case None =>
              && (productId in st.products ==>
                    st.cartItems == old(st.cartItems) + [CartItem(IdString(old(st.nextId)), cart.id, productId, 1)]
                    && st.nextId == old(st.nextId) + 1)
              && (productId !in st.products ==> st.cartItems == old(st.cartItems) && st.nextId == old(st.nextId))
    ensures forall cartId, pid :: LineQuantity(st.cartItems, cartId, pid) ==
              old(LineQuantity(st.cartItems, cartId, pid))
              + (if (cartId, pid) == (cart.id, productId) && productId in st.products then 1 else 0)
  {
    match IndexOf(st.cartItems, ItemKey, (cart.id, productId)) {
      case Some(i) =>
        RaiseLine(st, i);
      case None =>
        if productId in st.products {
          InsertLine(st, cart, productId);
        }
    }
  }

  /** The quantity increment of an existing line: only that line's key gains one. */
  method RaiseLine(st: Store, i: nat)
    requires st.Valid() && i < |st.cartItems|
    modifies st`cartItems
    ensures st.Valid()
    ensures st.cartItems == old(st.cartItems)[i := old(st.cartItems)[i].(quantity := old(st.cartItems)[i].quantity + 1)]
    ensures forall cartId, pid :: LineQuantity(st.cartItems, cartId, pid) ==
              old(LineQuantity(st.cartItems, cartId, pid)) + (if (cartId, pid) == ItemKey(old(st.cartItems)[i]) then 1 else 0)
  {
    var line := st.cartItems[i];
    var v := line.(quantity := line.quantity + 1);
    UpdateLineValid(st.cartItems, i, v, st.products, st.nextId);
    forall cartId, pid
      ensures LineQuantity(st.cartItems[i := v], cartId, pid) ==
              LineQuantity(st.cartItems, cartId, pid) + (if (cartId, pid) == ItemKey(line) then 1 else 0)
    {
      LineQuantityOfUpdate(st.cartItems, i, v, cartId, pid);
    }
    st.cartItems := st.cartItems[i := v];
  }

  /** The insert of a new line of quantity one for a catalogued product the cart has no line for. */
  method InsertLine(st: Store, cart: Cart, productId: Id)
    requires st.Valid() && cart in st.carts && productId in st.products
    requires IndexOf(st.cartItems, ItemKey, (cart.id, productId)).None?
    modifies st`cartItems, st`nextId
    ensures st.Valid()
    ensures st.cartItems == old(st.cartItems) + [CartItem(IdString(old(st.nextId)), cart.id, productId, 1)]
    ensures st.nextId == old(st.nextId) + 1
    ensures forall cartId, pid :: LineQuantity(st.cartItems, cartId, pid) ==
              old(LineQuantity(st.cartItems, cartId, pid)) + (if (cartId, pid) == (cart.id, productId) then 1 else 0)
  {
    var id := st.NewId();
    var line := CartItem(id, cart.id, productId, 1);
    assert Issued(cart.id, st.nextId);
    AppendLineValid(st.cartItems, line, st.products, st.nextId);
    forall cartId, pid
      ensures LineQuantity(st.cartItems + [line], cartId, pid) ==
              LineQuantity(st.cartItems, cartId, pid) + (if (cartId, pid) == (cart.id, productId) then 1 else 0)
    {
      LineQuantityOfAppend(st.cartItems, line, cartId, pid);
    }
    st.cartItems := st.cartItems + [line];
  }

  /**
   * removeCartItem: delete the line with this id in this cart. The cart is
   * not checked against the session user; a missing line is an error.
   */
  method RemoveCartItem(st: Store, session: Option<Session>, cartItemId: Id, cartId: Id) returns (r: Result<(), Error>)
    requires st.Valid()
    modifies st`cartItems
    ensures st.Valid()
    ensures !SignedIn(session) ==> r == Err(Unauthorized) && st.cartItems == old(st.cartItems)
    ensures SignedIn(session) ==>
              match old(IndexOf(st.cartItems, ItemRef, (cartItemId, cartId)))
              case None => r == Err(RecordNotFound) && st.cartItems == old(st.cartItems)
              case Some(i) =>
                && r == Ok(())
                && st.cartItems == RemoveAt(old(st.cartItems), i)
                && forall j :: 0 <= j < |st.cartItems| ==> st.cartItems[j].id != cartItemId
  {
    if !SignedIn(session) {
      return Err(Unauthorized);
    }
    match IndexOf(st.cartItems, ItemRef, (cartItemId, cartId)) {
      case None =>
        r := Err(RecordNotFound);
      case Some(i) =>
        RemoveAtUnique(st.cartItems, i, ItemId);
        RemoveAtUnique(st.cartItems, i, ItemKey);
        st.cartItems := RemoveAt(st.cartItems, i);
        r := Ok(());
    }
  }

  /**
   * updateCartQuantity: set one line's quantity to the given value. There is
   * no session check and no bound on the value.
   */
  method UpdateCartQuantity(st: Store, itemId: Id, quantity: int) returns (r: Result<(), Error>)
    requires st.Valid()
    modifies st`cartItems
    ensures st.Valid()
    ensures match old(IndexOf(st.cartItems, ItemId, itemId))
            case None => r == Err(RecordNotFound) && st.cartItems == old(st.cartItems)
            case Some(i) =>
              && r == Ok(())
              && st.cartItems == old(st.cartItems)[i := old(st.cartItems)[i].(quantity := quantity)]
              && forall cartId, pid :: LineQuantity(st.cartItems, cartId, pid) ==
                   if (cartId, pid) == ItemKey(old(st.cartItems)[i]) then quantity
                   else old(LineQuantity(st.cartItems, cartId, pid))
  {
    match IndexOf(st.cartItems, ItemId, itemId) {
      case None =>
        r := Err(RecordNotFound);
      case Some(i) =>
        var line := st.cartItems[i];
        var v := line.(quantity := quantity);
        UpdateLineValid(st.cartItems, i, v, st.products, st.nextId);
        forall cartId, pid
          ensures LineQuantity(st.cartItems[i := v], cartId, pid) ==
                  if (cartId, pid) == ItemKey(line) then quantity else LineQuantity(st.cartItems, cartId, pid)
        {
          LineQuantityOfUpdate(st.cartItems, i, v, cartId, pid);
        }
        st.cartItems := st.cartItems[i := v];
        r := Ok(());
    }
  }

  /**
   * checkout, as one transaction: every check precedes every write. The
   * order snapshots each line's quantity and its product's price; stock is
   * then decremented line by line and the cart's lines are deleted.
   */
  method Checkout(st: Store, session: Option<Session>, now: int) returns (r: Result<Order, Error>)
    requires st.Valid()
    modifies st
    ensures st.Valid()
    ensures r.Err? ==> unchanged(st)
    ensures !SignedIn(session) ==> r == Err(Unauthorized)
    ensures SignedIn(session) ==>
              var u := session.value.userId;
              var lines := old(CartLines(st.carts, st.cartItems, u));
              var P := old(st.products);
              && InCatalog(lines, P)
              && (lines == [] ==> r == Err(CartEmpty))
              && (lines != [] && Shortage(lines, P).Some? ==>
                    r == Err(NotEnoughStock(P[lines[Shortage(lines, P).value].productId].name)))
              && (lines != [] && Shortage(lines, P).None? ==>
                    && r == Ok(Order(IdString(old(st.nextId)), u, CartTotal(lines, P), Paid, now, Snapshot(lines, P)))
                    && st.orders == old(st.orders) + [r.value]
                    && st.products == Decrement(P, lines)
                    && st.cartItems == Reject(old(st.cartItems), ItemCart, old(CartOf(st.carts, u)).value.id)
                    && st.carts == old(st.carts) && st.users == old(st.users)
                    && st.nextId == old(st.nextId) + 1)
  {
    if !SignedIn(session) {
      return Err(Unauthorized);
    }
    var u := session.value.userId;
    var cart := CartOf(st.carts, u);
    if cart.None? {
      return Err(CartEmpty);
    }
    var lines := Select(st.cartItems, ItemCart, cart.value.id);
    if lines == [] {
      return Err(CartEmpty);
    }
    assert InCatalog(lines, st.products);
    var short := FindShortage(st.products, lines);
    if short.Some? {
      return Err(NotEnoughStock(st.products[lines[short.value].productId].name));
    }

    var order := PlaceOrder(st, u, cart.value.id, lines, now);
    r := Ok(order);
  }

  /**
   * The writes of checkout, once every check has passed: create the paid
   * order from the lines' snapshots, decrement stock, delete the cart's lines.
   */
  method PlaceOrder(st: Store, userId: Id, cartId: Id, lines: seq<CartItem>, now: int) returns (order: Order)
    requires st.Valid()
    requires lines == Select(st.cartItems, ItemCart, cartId)
    requires InCatalog(lines, st.products) && StockCovers(lines, st.products)
    modifies st
    ensures st.Valid()
    ensures order == Order(IdString(old(st.nextId)), userId, CartTotal(lines, old(st.products)), Paid, now,
                           Snapshot(lines, old(st.products)))
    ensures st.orders == old(st.orders) + [order]
    ensures st.products == Decrement(old(st.products), lines)
    ensures st.cartItems == Reject(old(st.cartItems), ItemCart, cartId)
    ensures st.carts == old(st.carts) && st.users == old(st.users) && st.nextId == old(st.nextId) + 1
  {
    ghost var P := st.products;
    ghost var items := st.cartItems;
    ghost var orders := st.orders;
    var total := CartTotal(lines, st.products);
    var snapshot := Snapshot(lines, st.products);
    var id := st.NewId();
    ghost var n := st.nextId;
    order := Order(id, userId, total, Paid, now, snapshot);
    st.orders := st.orders + [order];
    DecrementStock(st, lines);
    st.cartItems := Reject(st.cartItems, ItemCart, cartId);

    CartLinesDistinctProducts(items, cartId);
    DecrementKeepsProductsValid(P, lines, n);
    ItemsAfterCheckout(items, P, st.products, n, cartId);
    CheckoutOrderValid(lines, P, st.products, order);
    OrdersAfterAppend(orders, P, st.products, n, order);
  }

  /** The stock check of checkout: the first line, in cart order, that stock does not cover. */
  method FindShortage(products: map<Id, Product>, lines: seq<CartItem>) returns (r: Option<nat>)
    requires InCatalog(lines, products)
    ensures r == Shortage(lines, products)
  {
    var i := 0;
    while i < |lines|
      invariant 0 <= i <= |lines|
      invariant forall k :: 0 <= k < i ==> lines[k].quantity <= products[lines[k].productId].quantity
    {
      if products[lines[i].productId].quantity < lines[i].quantity {
        return Some(i);
      }
      i := i + 1;
    }
    return None;
  }

  /** The decrement loop of checkout: each line lowers its product's stock by the line's quantity. */
  method DecrementStock(st: Store, lines: seq<CartItem>)
    requires InCatalog(lines, st.products)
    modifies st`products
    ensures st.products == Decrement(old(st.products), lines)
  {
    ghost var P := st.products;
    var j := 0;
    while j < |lines|
      invariant 0 <= j <= |lines|
      invariant st.products == Decrement(P, lines[..j])
    {
      var l := lines[j];
      var p := st.products[l.productId];
      st.products := st.products[l.productId := p.(quantity := p.quantity - l.quantity)];
      assert lines[..j + 1][..j] == lines[..j];
      j := j + 1;
    }
    assert lines[..|lines|] == lines;
  }
}
