/**
 * The product actions of lib/actions/product.ts as methods on the store:
 * the administrator's create, update and delete, and the shopper's
 * single-product purchase. Writing and unlinking image files is not part of
 * this model; the stored file name arrives as a parameter and only the URL
 * the product record keeps is modelled.
 */
module ProductActions {
  import opened Common
  import opened Tables
  import opened Store
  import opened Validations

  /** The public URL of an image written to the uploads directory under the given file name. */
  function UploadUrl(storedName: string): (url: string)
    ensures |url| == 9 + |storedName| && url[..9] == "/uploads/" && url[9..] == storedName
  {
    "/uploads/" + storedName
  }

  /** Distinct stored file names give distinct image URLs, so a record's URL names its file. */
  lemma UploadUrlInjective(a: string, b: string)
    ensures UploadUrl(a) == UploadUrl(b) <==> a == b
  {
  }

  /** The record a create form describes; the form's whole numbers become integers. */
  function NewProduct(f: ProductForm, image: string): (p: Product)
    requires ProductFormValid(f)
    ensures ProductValid(p)
    ensures p.name == f.name && p.price == f.price && p.quantity as real == f.quantity && p.image == image
    ensures p.lowStockAt.None? <==> f.lowStockAt.None?
    ensures p.lowStockAt.Some? ==> p.lowStockAt.value as real == f.lowStockAt.value
  {
    Product(f.name, f.price, f.quantity.Floor,
            if f.lowStockAt.Some? then Some(f.lowStockAt.value.Floor) else None, image)
  }

  /** The record after an update: present fields replace the stored ones, and the image URL is given. */
  function Revised(p: Product, f: UpdateFields, image: string): Product
  {
    Product(
      if f.name.Some? then f.name.value else p.name,
      if f.price.Some? then f.price.value else p.price,
      if f.quantity.Some? then f.quantity.value.Floor else p.quantity,
      if f.lowStockAt.Some? then Some(f.lowStockAt.value.Floor) else p.lowStockAt,
      image)
  }

  /** An accepted update keeps a product's stock, price and threshold non-negative. */
  lemma RevisedKeepsValid(p: Product, f: UpdateFields, image: string, isEmoji: char -> bool)
    requires ProductValid(p) && UpdateFieldsValid(f, isEmoji)
    ensures ProductValid(Revised(p, f, image))
    ensures f.quantity.Some? ==> Revised(p, f, image).quantity as real == f.quantity.value
    ensures f.lowStockAt.Some? ==> Revised(p, f, image).lowStockAt == Some(f.lowStockAt.value.Floor)
  {
  }

  /** An update that supplies no field and no new file leaves the record exactly as it was. */
  lemma EmptyRevisionKeepsProduct(p: Product)
    ensures Revised(p, UpdateFields(None, None, None, None, Absent), p.image) == p
  {
  }

  /** A new file replaces the image only when the entry is an upload with some content. */
  predicate ReplacesImage(image: FormEntry)
  {
    image.Upload? && image.file.size > 0
  }

  /** Some cart line or order item refers to the product. */
  predicate Referenced(id: Id, items: seq<CartItem>, orders: seq<Order>)
  {
    || (exists l :: l in items && l.productId == id)
    || (exists o, k :: o in orders && 0 <= k < |o.items| && o.items[k].productId == id)
  }

  /**
   * createProduct: administrators only; the form is validated before the
   * store changes; the new product keeps the parsed fields and the URL of
   * the stored image.
   */
  method CreateProduct(st: Store, session: Option<Session>, form: ProductForm, storedName: string)
    returns (r: Result<(), Error>)
    requires st.Valid()
    modifies st`products, st`nextId
    ensures st.Valid()
    ensures !IsAdmin(session) ==> r == Err(Unauthorized)
    ensures IsAdmin(session) && ProductIssues(form) != [] ==> r == Err(ValidationFailed(ProductIssues(form)))
    ensures r.Err? ==> unchanged(st)
    ensures IsAdmin(session) && ProductIssues(form) == [] ==>
              && r == Ok(())
              && ProductFormValid(form)
              && IdString(old(st.nextId)) !in old(st.products)
              && st.products == old(st.products)[IdString(old(st.nextId)) := NewProduct(form, UploadUrl(storedName))]
              && st.nextId == old(st.nextId) + 1
              && |st.products| == |old(st.products)| + 1
  {
    if !IsAdmin(session) {
      return Err(Unauthorized);
    }
    var issues := ProductIssues(form);
    if issues != [] {
      return Err(ValidationFailed(issues));
    }
    var image := UploadUrl(storedName);
    var id := st.NewId();
    st.products := st.products[id := NewProduct(form, image)];
    r := Ok(());
  }

  /**
   * updateProduct: administrators only; validation, then the existence
   * check, then the record is revised. The image URL changes only when a
   * non-empty file is supplied.
   */
  method UpdateProduct(st: Store, session: Option<Session>, form: UpdateProductForm,
                       isEmoji: char -> bool, storedName: string)
    returns (r: Result<(), Error>)
    requires st.Valid()
    modifies st`products
    ensures st.Valid()
    ensures !IsAdmin(session) ==> r == Err(Unauthorized)
    ensures IsAdmin(session) && UpdateProductIssues(form, isEmoji) != [] ==>
              r == Err(ValidationFailed(UpdateProductIssues(form, isEmoji)))
    ensures IsAdmin(session) && UpdateProductIssues(form, isEmoji) == [] && form.id !in old(st.products) ==>
              r == Err(ProductNotFound)
    ensures r.Err? ==> st.products == old(st.products)
    ensures IsAdmin(session) && UpdateProductIssues(form, isEmoji) == [] && form.id in old(st.products) ==>
              var p := old(st.products)[form.id];
              var image := if ReplacesImage(form.fields.image) then UploadUrl(storedName) else p.image;
              && r == Ok(())
              && st.products == old(st.products)[form.id := Revised(p, form.fields, image)]
  {
    if !IsAdmin(session) {
      return Err(Unauthorized);
    }
    var issues := UpdateProductIssues(form, isEmoji);
    if issues != [] {
      return Err(ValidationFailed(issues));
    }
    if form.id !in st.products {
      return Err(ProductNotFound);
    }
    var existing := st.products[form.id];
    var imageUrl := existing.image;
    if ReplacesImage(form.fields.image) {
      imageUrl := UploadUrl(storedName);
    }
    RevisedKeepsValid(existing, form.fields, imageUrl, isEmoji);
    st.products := st.products[form.id := Revised(existing, form.fields, imageUrl)];
    r := Ok(());
  }

  /**
   * deleteProduct: administrators only; an empty id and an unknown id are
   * errors. A product that a cart line or an order item still refers to is
   * not deleted: the store refuses the delete and the action reports failure.
   */
  method DeleteProduct(st: Store, session: Option<Session>, productId: Id) returns (r: Result<(), Error>)
    requires st.Valid()
    modifies st`products
    ensures st.Valid()
    ensures !IsAdmin(session) ==> r == Err(Unauthorized)
    ensures IsAdmin(session) && productId == "" ==> r == Err(ProductIdRequired)
    ensures IsAdmin(session) && productId != "" && productId !in old(st.products) ==> r == Err(ProductNotFound)
    ensures IsAdmin(session) && productId != "" && productId in old(st.products) && Referenced(productId, st.cartItems, st.orders) ==>
              r == Err(ProductInUse)
    ensures r.Err? ==> st.products == old(st.products)
    ensures IsAdmin(session) && productId != "" && productId in old(st.products) && !Referenced(productId, st.cartItems, st.orders) ==>
              r == Ok(()) && st.products == old(st.products) - {productId}
              && |st.products| == |old(st.products)| - 1
  {
    if !IsAdmin(session) {
      return Err(Unauthorized);
    }
    if productId == "" {
      return Err(ProductIdRequired);
    }
    if productId !in st.products {
      return Err(ProductNotFound);
    }
    if Referenced(productId, st.cartItems, st.orders) {
      return Err(ProductInUse);
    }
    st.products := st.products - {productId};
    r := Ok(());
    assert forall o, k :: o in st.orders && 0 <= k < |o.items| ==> o.items[k].productId != productId;
  }

  /**
   * buyProduct, as one transaction: the session and the quantity are checked
   * first, then the product and its stock; only then is stock decremented and
   * a paid order with one item created.
   */
  method BuyProduct(st: Store, session: Option<Session>, productId: Id, quantity: int, now: int)
    returns (r: Result<Order, Error>)
    requires st.Valid()
    modifies st`products, st`orders, st`nextId
    ensures st.Valid()
    ensures r.Err? ==> unchanged(st)
    ensures !SignedIn(session) ==> r == Err(Unauthorized)
    ensures SignedIn(session) && quantity <= 0 ==> r == Err(InvalidQuantity)
    ensures SignedIn(session) && quantity > 0 && productId !in old(st.products) ==> r == Err(ProductNotFound)
    ensures (SignedIn(session) && quantity > 0 && productId in old(st.products)
             && old(st.products)[productId].quantity < quantity) ==> r == Err(InsufficientStock)
    ensures (SignedIn(session) && quantity > 0 && productId in old(st.products)
             && old(st.products)[productId].quantity >= quantity) ==>
              var p := old(st.products)[productId];
              && r == Ok(Order(IdString(old(st.nextId)), session.value.userId, p.price * quantity, Paid, now,
                               [OrderItem(productId, quantity, p.price)]))
              && st.products == old(st.products)[productId := p.(quantity := p.quantity - quantity)]
              && st.orders == old(st.orders) + [r.value]
              && st.nextId == old(st.nextId) + 1
  {
    if !SignedIn(session) {
      return Err(Unauthorized);
    }
    if quantity <= 0 {
      return Err(InvalidQuantity);
    }
    if productId !in st.products {
      return Err(ProductNotFound);
    }
    var product := st.products[productId];
    if product.quantity < quantity {
      return Err(InsufficientStock);
    }
    ghost var P := st.products;
    var id := st.NewId();
    ghost var n := st.nextId;
    st.products := st.products[productId := product.(quantity := product.quantity - quantity)];
    var total := product.price * quantity;
    var order := Order(id, session.value.userId, total, Paid, now, [OrderItem(productId, quantity, product.price)]);
    assert ItemsTotal(order.items) == total by {
      assert order.items[..0] == [];
    }
    OrdersAfterAppend(st.orders, P, st.products, n, order);
    st.orders := st.orders + [order];
    r := Ok(order);
  }

  /**
   * Buying k units answers to the checkout of a one-line cart: the same
   * decrement, the same single snapshot and the same total.
   */
  lemma BuyIsOneLineCheckout(products: map<Id, Product>, line: CartItem)
    requires line.productId in products
    ensures var p := products[line.productId];
            && Decrement(products, [line]) == products[line.productId := p.(quantity := p.quantity - line.quantity)]
            && Snapshot([line], products) == [OrderItem(line.productId, line.quantity, p.price)]
            && CartTotal([line], products) == p.price * line.quantity
  {
    assert [line][..0] == [];
  }
}
