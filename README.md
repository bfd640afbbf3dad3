# Storefront server actions, modelled in Dafny

This project models the server-side core of a small storefront built on Next.js and Prisma:

- the shopper's cart actions (`lib/actions/cart.ts`);
- the administrator's product actions and the shopper's single-product purchase (`lib/actions/product.ts`);
- the administrator's customer queries and order-status change (`lib/actions/customerInfo.ts`);
- the dashboard statistics (`lib/actions/stats.ts`);
- the zod schemas for product forms (`lib/actions/validations.ts`) and for sign-up (`lib/signUpSchema.ts`).

The database is modelled as an in-memory store, the class `Store.Store`. It holds:

- products as a map from id to record;
- carts, cart lines, orders with their item snapshots, and users, each as a sequence of rows;
- a counter from which new record ids are issued.

`Store.Store.Valid()` collects the constraints that the schema and the actions keep together:

- unique keys, among them one cart per user and one line per (cart, product);
- every cart line refers to an existing product;
- stock, price and low-stock threshold are never negative;
- every order's total equals Σ price × quantity over its item snapshots.

Every state-changing action is a method on the store. It:

- requires and ensures `Valid()`;
- states the store's whole new state, or that nothing changed on failure;
- returns `Result<_, Error>`, where every thrown error and every failure the source returns is an `Error` value.

A prisma transaction (checkout, buyProduct) is one method whose checks all come before its first write. Queries and validators are functions.

Modules, one per file:

| file | module | contents |
|---|---|---|
| common.dfy | Common | `Option`, `Result`, string ids and the counter that issues them |
| forms.dfy | Forms | schema issues (path, message), JavaScript string length in UTF-16 code units, `\s` |
| tables.dfy | Tables | lookup, filter and removal over rows by key, and uniqueness of keys |
| store.dfy | Store | entities, the `Store` class, cart queries, totals, stock decrements, the store invariant |
| cart.dfy | CartActions | addToCart, getCartItems, removeCartItem, updateCartQuantity, checkout |
| product.dfy | ProductActions | createProduct, updateProduct, deleteProduct, buyProduct |
| customer_info.dfy | CustomerInfo | getCustomerInfo, getOneCustomerInfo (with the newest-first sort), changeOrderStatus |
| stats.dfy | Stats | the four statistics, and how orders and status changes move revenue and sales |
| validations.dfy | Validations | ProductSchema, UpdateProductSchema, UpdateProductClientSchema |
| sign_up_schema.dfy | SignUpSchema | the password, name and phone rules and the confirmation refinement |

Modelling choices:

- **Session.** It is an explicit `Option<Session(userId, role)>` parameter.
  - The shopper guard `!session?.user?.id` is `SignedIn`: an empty id counts as signed out.
  - The administrator guard is `IsAdmin`.
  - For a signed-out user and for a signed-in non-administrator, the code raises the same unauthorized failure. The model therefore has a single `Unauthorized` error; there is no separate "forbidden" outcome.
- **Money and quantities.**
  - Prices are integer cents.
  - `buyProduct` and `updateCartQuantity` take integer quantities.
  - In the product forms, quantity and low-stock threshold are reals, so that zod's `.int()` rule can fail.
- **Record ids.** Ids come from the store's counter: the n-th id is `"c"` followed by n in decimal. All the model needs is that a new id is held by no record and will never be issued again (`Common.Issued`).
- **Roles.** A user's role, and a session's, is a string or none, because the role column has no default. `Store.ClassOf` sorts users into administrators ("admin"), customers (any other string) and users without a role.
- **Creation time.** The database fills an order's `createdAt` with its default `now()`. In the model that time is the `now` parameter of `CartActions.Checkout` and `ProductActions.BuyProduct`, and it only orders the orders.
- **Returned orders.** `order.create` in `checkout` and `buyProduct` returns the order row without its items. The model's `Order` value always carries its items, so the order these actions return includes them.
- **Library checks.** The email check and the Unicode emoji classes are library-defined. Each is a function parameter (`isEmoji`, `isEmail`).

## Model

| member | source | states |
|---|---|---|
| Store.CartOf | lib/actions/cart.ts:68-69 | the user's cart is a cart row owned by that user, and there is none exactly when no row has that owner |
| Store.CartLines | lib/actions/cart.ts:68-84 | a user without a cart has no lines; otherwise a cart line is among the user's lines exactly when its cartId is the user's cart, and there are no more lines than rows |
| Store.CartLinesDistinctProducts | lib/actions/cart.ts:26-29 | because (cartId, productId) is unique, one cart's lines name each product at most once |
| Store.LineQuantityOfUpdate | lib/actions/cart.ts:35-42 | rewriting one line's quantity in place changes the quantity for its own (cart, product) key only |
| Store.LineQuantityOfAppend | lib/actions/cart.ts:48-54 | inserting a line under a new key gives that key the line's quantity and leaves every other key's quantity |
| Store.Shortage | lib/actions/cart.ts:142-146 | none exactly when every line's quantity is within its product's stock; otherwise the first line, in cart order, that stock does not cover |
| Store.Snapshot | lib/actions/cart.ts:159-167 | one order item per cart line, in order, with the line's product id and quantity and the product's current price |
| Store.SnapshotTotal | lib/actions/cart.ts:148-170 | the total reduced over the cart equals Σ price × quantity over the created order items |
| Store.Decrement | lib/actions/cart.ts:172-181 | decrementing line by line keeps the set of product ids |
| Store.DecrementEffect | lib/actions/cart.ts:172-181 | each product's stock drops by the summed quantity of the lines naming it |
| Store.DemandOfUniqueLine | lib/actions/cart.ts:172-181 | with one line per product, a product's demand is exactly that line's quantity |
| Store.DecrementByLines | lib/actions/cart.ts:172-181 | each product on a line drops by exactly that line's quantity; products on no line are unchanged |
| Store.CheckoutStock | lib/actions/cart.ts:142-181 | after checkout, each of the cart's products has dropped by exactly its line's quantity and stays ≥ 0 when stock covered the cart; every other product is unchanged |
| Store.CartClearedAfterCheckout | lib/actions/cart.ts:183-185 | after the cart's lines are deleted, the user's cart has no lines and every other user's cart lines are unchanged |
| Store.AppendLineValid | lib/actions/cart.ts:47-54 | inserting a line with a new id and a new (cart, product) key for a catalogued product keeps the line table valid |
| Store.UpdateLineValid | lib/actions/cart.ts:192-197 | changing only a line's quantity keeps ids and keys unique and the line table valid |
| Store.DecrementKeepsProductsValid | lib/actions/cart.ts:172-181 | when stock covers a cart whose lines name each product once, no stock becomes negative |
| Store.ItemsAfterCheckout | lib/actions/cart.ts:183-185 | deleting one cart's lines keeps the line table valid |
| Store.OrdersAfterAppend | lib/actions/cart.ts:153-170 | appending an order with a new id and a consistent total keeps the order table valid |
| Store.CheckoutOrderValid | lib/actions/cart.ts:148-170 | the order created from a cart has total = Σ price × quantity over its snapshots and names only catalogued products |
| CartActions.Entries | lib/actions/cart.ts:86-97 | one entry per cart line, in order, carrying the line's id, cartId and quantity and its product's id, name, image and price |
| CartActions.GetCartItems | lib/actions/cart.ts:61-103 | unauthorized exactly when no user is signed in; no cart gives the empty list; otherwise it returns the entries of the user's cart lines |
| CartActions.AddToCart | lib/actions/cart.ts:7-59 | unauthorized without a user, and then the store is unchanged. The user's cart is reused, or created when missing. The product's line is raised by 1, or a line of quantity 1 is inserted when the product exists. When the product exists, exactly the quantity for (cart, product) grows by one and every other stays; products, orders and users are unchanged. The id counter advances by one for each record created: the cart and the line |
| CartActions.UpsertCart | lib/actions/cart.ts:16-22 | an existing cart is returned and the carts are unchanged; otherwise exactly one cart with a new id is appended. Either way the user then has exactly one cart |
| CartActions.RaiseLine | lib/actions/cart.ts:35-42 | the existing line gets quantity + 1, and only its (cart, product) quantity changes, by exactly one |
| CartActions.InsertLine | lib/actions/cart.ts:48-54 | one line of quantity 1 under a new id is appended for the (cart, product) pair, and only that pair's quantity changes, from 0 to 1 |
| CartActions.AddLine | lib/actions/cart.ts:24-58 | an existing line for (cart, product) gets quantity + 1 and nothing else changes; otherwise one line of quantity 1 with a new id is appended; a missing product leaves the lines unchanged |
| CartActions.RemoveCartItem | lib/actions/cart.ts:105-118 | unauthorized without a user; a missing (id, cartId) pair is not-found and changes nothing; otherwise exactly that row is removed and no line keeps that id |
| CartActions.UpdateCartQuantity | lib/actions/cart.ts:191-198 | an unknown line id is not-found and changes nothing; otherwise only that line's quantity is set to the given value, and only its key's quantity changes |
| CartActions.Checkout | lib/actions/cart.ts:120-189 | every failure leaves the store unchanged, in this order: no user gives unauthorized; no cart or no lines gives cart-empty; the first short line gives not-enough-stock with its product's name. Success appends one PAID order with a new id, total Σ price × quantity and one snapshot per line, decrements stock by the lines, and deletes the cart's lines |
| CartActions.PlaceOrder | lib/actions/cart.ts:148-185 | once the checks pass: the order is created from the snapshots, stock is decremented and the cart's lines are deleted; carts and users are unchanged |
| CartActions.FindShortage | lib/actions/cart.ts:142-146 | the stock-check loop finds exactly the first line that stock does not cover, or none |
| CartActions.DecrementStock | lib/actions/cart.ts:172-181 | the decrement loop leaves the products equal to decrementing line by line |
| ProductActions.UploadUrlInjective | lib/actions/product.ts:46 | two stored file names give the same "/uploads/" URL exactly when they are the same name, so a product's URL identifies its file |
| ProductActions.NewProduct | lib/actions/product.ts:49-57 | the created record has the parsed name, price, quantity and threshold and the given image URL, and is a valid product |
| ProductActions.RevisedKeepsValid | lib/actions/product.ts:120-127 | an update that passed validation keeps stock, price and threshold non-negative, and stores the parsed numbers |
| ProductActions.EmptyRevisionKeepsProduct | lib/actions/product.ts:120-127 | an update with no fields and the old image URL leaves the record unchanged |
| ProductActions.CreateProduct | lib/actions/product.ts:12-65 | non-administrators get unauthorized; a form with issues gives validation-failed with those issues; every failure keeps the store unchanged. Success adds exactly one product, under a new id, with the parsed fields and "/uploads/" + the stored name, so the catalog grows by one |
| ProductActions.UpdateProduct | lib/actions/product.ts:67-133 | unauthorized, then validation-failed, then not-found, each with products unchanged. Otherwise only the named product is revised; its image URL changes only when a non-empty file is an upload |
| ProductActions.DeleteProduct | lib/actions/product.ts:135-170 | unauthorized, then an empty id, then not-found give those errors. A product still referenced by a cart line or order item is kept and the delete fails. Otherwise exactly that product is removed, and the catalog shrinks by one |
| ProductActions.BuyProduct | lib/actions/product.ts:172-220 | every failure leaves the store unchanged: no user is unauthorized, quantity ≤ 0 is invalid-quantity, an unknown product is not-found, stock below the quantity is insufficient-stock. Success sets that product's stock to q − k, leaves every other product, and appends one PAID order of total price × k with the single item (product, k, price) |
| ProductActions.BuyIsOneLineCheckout | lib/actions/product.ts:192-216 | buying k units has the decrement, snapshot and total of checking out a one-line cart |
| CustomerInfo.GetCustomerInfo | lib/actions/customerInfo.ts:8-27 | unauthorized exactly for non-administrators, and a list for every administrator. A user is listed exactly when they have a role and it is not "admin", so users without a role are left out as SQL's `role <> 'admin'` leaves them out |
| CustomerInfo.RoleClassesPartitionUsers | lib/actions/customerInfo.ts:15-21 | the customers, the administrators and the users without a role together are exactly the users, each once |
| CustomerInfo.CustomersPartitionUsers | lib/actions/customerInfo.ts:15-21 | what an administrator is listed, together with the administrators and the users without a role, is exactly the users, each once; the lengths add up to the number of users |
| CustomerInfo.InsertByDate | lib/actions/customerInfo.ts:48-51 | inserting into a newest-first list keeps it newest first and adds exactly that order |
| CustomerInfo.SortNewestFirst | lib/actions/customerInfo.ts:48-51 | the result is ordered by createdAt descending and is a permutation of the input |
| CustomerInfo.GetOneCustomerInfo | lib/actions/customerInfo.ts:29-68 | unauthorized exactly for non-administrators; customer-not-found exactly when no user has the id, and a result whenever one does. The result is that user, the lines of their cart (or none when they have no cart), and exactly their orders, newest first |
| CustomerInfo.ChangeOrderStatus | lib/actions/customerInfo.ts:70-89 | unauthorized for non-administrators; an unknown order id fails as a failed status update with the orders unchanged; otherwise only that order's status is replaced |
| CustomerInfo.StatusChangeTouchesOneOrder | lib/actions/customerInfo.ts:77-84 | a status change keeps every other order and every order's id, total and items |
| Stats.NumberOfCustomers | lib/actions/stats.ts:7-13 | unauthorized exactly for non-administrators; an administrator gets the number of users, whatever their role |
| Stats.CustomerCountIncludesAdmins | lib/actions/stats.ts:12 | the count is the length of getCustomerInfo's list plus the number of administrators plus the number of users without a role, so any administrator or role-less user makes it larger than the list |
| Stats.NumberOfProducts | lib/actions/stats.ts:29-36 | unauthorized exactly for non-administrators; an administrator gets the number of products in the catalog |
| Stats.ProductCountAfterWrites | lib/actions/stats.ts:35 | the count an administrator sees grows by one after adding a product under a new id (createProduct's new state), stays after rewriting an existing one (updateProduct's), and drops by one after removing an existing one (deleteProduct's) |
| Stats.TotalRevenue | lib/actions/stats.ts:15-27 | unauthorized exactly for non-administrators; an administrator gets the revenue, Σ price × quantity over every order item, which is zero when there are no order items |
| Stats.NoItemsNoRevenue | lib/actions/stats.ts:21-24 | orders without items have no items to sum |
| Stats.ItemsTotalAppend | lib/actions/stats.ts:21-24 | the sum of price × quantity splits over a concatenation of item lists |
| Stats.RevenueIsSumOfTotals | lib/actions/stats.ts:21-24 | when each order's total matches its snapshots, revenue equals the sum of the order totals |
| Stats.RevenueAfterOrder | lib/actions/stats.ts:21-24 | a new order adds its items' Σ price × quantity to revenue |
| Stats.RevenueAfterCheckout | lib/actions/stats.ts:21-24 | a checkout adds the cart's value at the snapshot prices to revenue |
| Stats.RevenueIgnoresStatus | lib/actions/stats.ts:21-24 | a status change leaves revenue unchanged |
| Stats.SalesCount | lib/actions/stats.ts:44-50 | never more sales than orders |
| Stats.TotalSales | lib/actions/stats.ts:38-51 | unauthorized exactly for non-administrators; an administrator gets the number of SHIPPED or DELIVERED orders, never more than the number of orders |
| Stats.SalesIgnoreIncomplete | lib/actions/stats.ts:44-50 | orders none of which is SHIPPED or DELIVERED count zero; if all are, every order counts |
| Stats.SalesCountIsCompletedOrders | lib/actions/stats.ts:44-50 | the count is the length of the orders whose status is SHIPPED or DELIVERED |
| Stats.SalesAfterPaidOrder | lib/actions/stats.ts:44-50 | a new PAID order does not change the count |
| Stats.SalesAfterStatusChange | lib/actions/stats.ts:44-50 | a status change adds one sale when it completes an order and removes one when it moves a completed order back |
| Validations.WholeNonNegativeIssues | lib/actions/validations.ts:12 | no issue exactly when the number is a safe integer and ≥ 0. A fraction reports only the `.int()` issue, because that issue stops the field before `.min(0)`. A negative safe integer reports only the minimum message, and a negative whole number always reports it |
| Validations.PriceIssues | lib/actions/validations.ts:11 | no issue exactly when the price is ≥ 0; otherwise "Price must be non-negative" |
| Validations.RequiredNameIssues | lib/actions/validations.ts:10 | no issue exactly when the name is non-empty; an empty name reports "Name is required" |
| Validations.OptionalThresholdIssues | lib/actions/validations.ts:13-17 | an absent threshold passes; a present one must be a safe integer ≥ 0; every issue is on "lowStockAt" |
| Validations.ImageIssues | lib/actions/validations.ts:19-26 | no issue exactly when the entry is a file of at most 5·1024·1024 bytes with an accepted MIME type; a non-file fails all three refinements |
| Validations.ProductIssues | lib/actions/validations.ts:9-27 | no issue exactly when every create rule holds. An empty name, a negative price and a negative whole quantity each report their own message. A fractional quantity reports the `.int()` issue and never "Quantity can not be negative" |
| Validations.UpdateImageIssues | lib/actions/validations.ts:45-56 | no issue exactly when the entry is falsy, or is a file within the size and type limits |
| Validations.UpdateFieldsIssues | lib/actions/validations.ts:32-56 | no issue exactly when every present field keeps its rule; a present name with an emoji, or an empty one, reports its message |
| Validations.UpdateProductIssues | lib/actions/validations.ts:29-57 | no issue exactly when the id is non-empty and the fields are valid; an empty id reports "Product ID is required" first |
| Validations.ClientSchemaIsServerWithoutId | lib/actions/validations.ts:59-61 | for any non-empty id, the client schema reports exactly the server schema's issues |
| Validations.UpdateImageMatchesCreate | lib/actions/validations.ts:45-56 | a present file passes the update schema exactly when it passes the create schema |
| Validations.EmptyUpdateAccepted | lib/actions/validations.ts:29-57 | an update form with an id and no other field is accepted |
| SignUpSchema.PasswordCheckIssues | lib/signUpSchema.ts:6-12 | exactly one "password" issue per failed check, each failed check reported with its own message, and none exactly when all checks pass |
| SignUpSchema.PasswordIssues | lib/signUpSchema.ts:6-12 | no issue exactly when the password has ≥ 8 code units, an upper-case letter, a lower-case letter, a digit and a character outside [A-Za-z0-9]; each missing rule is reported with its message |
| SignUpSchema.PasswordLengthInCodeUnits | lib/signUpSchema.ts:8 | eight characters always meet the length rule, and meeting it takes at least four |
| SignUpSchema.NameCharsCountOnce | lib/signUpSchema.ts:3 | strings of name characters have a code-unit length equal to their character count |
| SignUpSchema.NameIssues | lib/signUpSchema.ts:22-35 | no issue exactly when the name is long enough and consists only of letters, whitespace, apostrophe and hyphen |
| SignUpSchema.NamesIssues | lib/signUpSchema.ts:22-35 | first and last name need ≥ 2 characters and middle name ≥ 1, all matching the name pattern |
| SignUpSchema.PhoneMatchesExactly | lib/signUpSchema.ts:4 | the phone rule accepts exactly an optional '+' followed by 10 to 15 ASCII digits |
| SignUpSchema.FieldCheckIssues | lib/signUpSchema.ts:14-38 | no issue exactly when every field check passes, and no field issue is the mismatch issue |
| SignUpSchema.FieldIssues | lib/signUpSchema.ts:14-38 | no issue exactly when every field rule holds, the confirmation being non-empty |
| SignUpSchema.SignUpIssues | lib/signUpSchema.ts:14-42 | no issue exactly when every field rule holds and the passwords are equal; the last issue is the confirmPassword mismatch exactly when they differ |
| SignUpSchema.MismatchIsTheOnlyIssue | lib/signUpSchema.ts:39-42 | a form with valid fields but different passwords is rejected by the mismatch issue alone |

## Left out

- File I/O in `lib/actions/product.ts` is not modelled: reading the upload, `crypto.randomUUID`, path joins, writing the new image file and unlinking the old one. The generated file name is a parameter, and only the URL stored in the record is modelled.
- Sessions are a parameter. The session library and the header lookup in `lib/get-session.ts` are not part of this model.
- Transaction isolation and concurrent interleavings are not modelled. Each transaction is one atomic method.
- Store failures are not modelled: no database error occurs. So the catch branches that log and return `[]` or `{ success: false }`, and the console logging, are absent. Two rejections whose cause is in the data are modelled:
  - Inserting a cart line for a product that does not exist violates the foreign key. addToCart swallows that failure, so no line is added.
  - Deleting a product that a cart line or order item refers to fails. The Prisma schema is not part of this model; the model assumes its default referential action, which rejects the delete, reported as `ProductInUse`.
- The model does not distinguish a thrown error from a returned `{ success: false }`. Both are an `Err` result.
- Conversion of `FormData` into typed forms and zod's `z.coerce` are not modelled. In particular, `Number(null)` is 0, so a missing numeric entry reads as 0. The forms start already typed, and `None` stands for an undefined field.
- Floating-point numbers are not modelled. The form numbers are exact reals, and the `.int()` rule is written out as `Validations.IsSafeInteger`, a whole number within ±(2^53 − 1). Prices are integer cents, including the `Number(...)` conversion of Decimal prices; `buyProduct` and `updateCartQuantity` take integer quantities.
- The product description field is not modelled.
- Status values outside PAID, SHIPPED and DELIVERED are kept as `OtherStatus(name)`.
- The email format check and the Unicode emoji property classes are library-defined. They are parameters, not definitions.
- CustomerInfo.GetOneCustomerInfo: the joined product records of cart lines and order items are represented by their product ids, not by the product data.
- Store.Decrement: its own contract states only that the product ids are kept. The per-product effect is stated by `Store.DecrementEffect` and `Store.DecrementByLines`.
- Table order is assumed to be insertion order. Prisma's `include` and `findMany` without `orderBy` promise no order. The model reads a cart's lines and the customer list in table order, and that order decides which product the "Not enough stock" error names.
