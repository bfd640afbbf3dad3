/**
 * The product schemas of lib/actions/validations.ts as functions from an
 * already-typed form to the list of issues the schema reports; a form is
 * accepted exactly when that list is empty.
 *
 * Numbers arrive already coerced: the price in integer cents, quantity and
 * low-stock threshold as reals so that the integer rule can fail.
 */
module Validations {
  import opened Common
  import opened Forms

  const MaxFileSize: int := 5 * 1024 * 1024

  const AcceptedImageTypes: seq<string> := ["image/jpeg", "image/jpg", "image/png", "image/webp"]

  /** Marks an issue whose wording the schema library supplies. */
  const LibraryMessage: string := ""

  /** An uploaded file as the form delivers it. */
  datatype FileInfo = FileInfo(name: string, size: int, mimeType: string)

  /** The image entry of a form: missing, a plain text value, or a file. */
  datatype FormEntry = Absent | Text(text: string) | Upload(file: FileInfo)

  /** JavaScript truthiness of an entry: only a missing entry and the empty text are falsy. */
  predicate Falsy(e: FormEntry)
  {
    e.Absent? || e == Text("")
  }

  /** Number.MAX_SAFE_INTEGER, 2^53 - 1: the bound of the integers `.int()` accepts. */
  const MaxSafeInteger: int := 0x1F_FFFF_FFFF_FFFF

  /** Number.isInteger: the value has no fractional part. */
  predicate IsWhole(x: real)
  {
    x.Floor as real == x
  }

  /** Number.isSafeInteger: a whole number no larger in magnitude than 2^53 - 1. */
  predicate IsSafeInteger(x: real)
  {
    IsWhole(x) && -MaxSafeInteger as real <= x <= MaxSafeInteger as real
  }

  predicate AcceptableFile(f: FileInfo)
  {
    f.size <= MaxFileSize && f.mimeType in AcceptedImageTypes
  }

  /**
   * The chain `.int().min(0, minMessage)`. A fraction fails `.int()` with an
   * issue that aborts the field, so `.min(0)` does not run on it. A whole
   * number outside the safe range fails `.int()` with an issue that does not
   * abort, so `.min(0)` still runs.
   */
  function WholeNonNegativeIssues(path: string, x: real, minMessage: string): (r: seq<Issue>)
    ensures r == [] <==> IsSafeInteger(x) && x >= 0.0
    ensures !IsWhole(x) ==> r == [Issue(path, LibraryMessage)]
    ensures IsWhole(x) && x < 0.0 ==> Issue(path, minMessage) in r
    ensures IsSafeInteger(x) && x < 0.0 ==> r == [Issue(path, minMessage)]
    ensures forall i :: 0 <= i < |r| ==> r[i].path == path
  {
    if !IsWhole(x) then [Issue(path, LibraryMessage)]
    else
      (if IsSafeInteger(x) then [] else [Issue(path, LibraryMessage)])
      + (if x >= 0.0 then [] else [Issue(path, minMessage)])
  }

  // ---------------------------------------------------------------- create

  datatype ProductForm = ProductForm(
    name: string, price: int, quantity: real, lowStockAt: Option<real>, image: FormEntry)

  /** What the create schema accepts, rule by rule. */
  predicate ProductFormValid(f: ProductForm)
  {
    && |f.name| >= 1
    && f.price >= 0
    && IsSafeInteger(f.quantity) && f.quantity >= 0.0
    && (f.lowStockAt.Some? ==> IsSafeInteger(f.lowStockAt.value) && f.lowStockAt.value >= 0.0)
    && f.image.Upload? && AcceptableFile(f.image.file)
  }

  /** The three image refinements; all of them run, so a non-file fails all three. */
  function ImageIssues(image: FormEntry): (r: seq<Issue>)
    ensures r == [] <==> image.Upload? && AcceptableFile(image.file)
    ensures !image.Upload? ==> |r| == 3
  {
    (if image.Upload? then [] else [Issue("image", "Image is required.")])
    + (if image.Upload? && image.file.size <= MaxFileSize then [] else [Issue("image", "Max file size is 5MB.")])
    + (if image.Upload? && image.file.mimeType in AcceptedImageTypes then []
       else [Issue("image", ".jpg, .jpeg, .png and .webp files are accepted.")])
  }

  /** A name must be at least one UTF-16 code unit long. */
  function RequiredNameIssues(name: string): (r: seq<Issue>)
    ensures r == [] <==> |name| >= 1
    ensures name == [] ==> r == [Issue("name", "Name is required")]
  {
    Utf16LengthZero(name);
    if Utf16Length(name) >= 1 then [] else [Issue("name", "Name is required")]
  }

  function OptionalThresholdIssues(t: Option<real>, minMessage: string): (r: seq<Issue>)
    ensures r == [] <==> (t.Some? ==> IsSafeInteger(t.value) && t.value >= 0.0)
    ensures forall i :: 0 <= i < |r| ==> r[i].path == "lowStockAt"
  {
    match t
    case None => []
    case Some(x) => WholeNonNegativeIssues("lowStockAt", x, minMessage)
  }

  function PriceIssues(price: int): (r: seq<Issue>)
    ensures r == [] <==> price >= 0
    ensures price < 0 ==> r == [Issue("price", "Price must be non-negative")]
  {
    if price >= 0 then [] else [Issue("price", "Price must be non-negative")]
  }

  /** ProductSchema: the issues reported for a create form, field by field. */
  function ProductIssues(f: ProductForm): (r: seq<Issue>)
    ensures r == [] <==> ProductFormValid(f)
    ensures f.name == [] ==> Issue("name", "Name is required") in r
    ensures f.price < 0 ==> Issue("price", "Price must be non-negative") in r
    ensures IsWhole(f.quantity) && f.quantity < 0.0 ==> Issue("quantity", "Quantity can not be negative") in r
    ensures !IsWhole(f.quantity) ==>
              Issue("quantity", LibraryMessage) in r && Issue("quantity", "Quantity can not be negative") !in r
  {
    var name := RequiredNameIssues(f.name);
    var price := PriceIssues(f.price);
    var quantity := WholeNonNegativeIssues("quantity", f.quantity, "Quantity can not be negative");
    var threshold := OptionalThresholdIssues(f.lowStockAt, "Low Stock value can not be negative");
    var image := ImageIssues(f.image);
    name + price + quantity + threshold + image
  }

  // ---------------------------------------------------------------- update

  /** The optional fields of an update form; the client schema sees only these. */
  datatype UpdateFields = UpdateFields(
    name: Option<string>, price: Option<int>, quantity: Option<real>, lowStockAt: Option<real>,
    image: FormEntry)

  datatype UpdateProductForm = UpdateProductForm(id: string, fields: UpdateFields)

  /** Some character of s is one the emoji property classes match. */
  predicate HasEmoji(s: string, isEmoji: char -> bool)
  {
    exists i :: 0 <= i < |s| && isEmoji(s[i])
  }

  /** What the update schema accepts of the optional fields. */
  predicate UpdateFieldsValid(f: UpdateFields, isEmoji: char -> bool)
  {
    && (f.name.Some? ==> |f.name.value| >= 1 && !HasEmoji(f.name.value, isEmoji))
    && (f.price.Some? ==> f.price.value >= 0)
    && (f.quantity.Some? ==> IsSafeInteger(f.quantity.value) && f.quantity.value >= 0.0)
    && (f.lowStockAt.Some? ==> IsSafeInteger(f.lowStockAt.value) && f.lowStockAt.value >= 0.0)
    && (Falsy(f.image) || (f.image.Upload? && AcceptableFile(f.image.file)))
  }

  /** The update schema's image rules: a falsy entry passes all three. */
  function UpdateImageIssues(image: FormEntry): (r: seq<Issue>)
    ensures r == [] <==> Falsy(image) || (image.Upload? && AcceptableFile(image.file))
  {
    (if Falsy(image) || image.Upload? then [] else [Issue("image", "Invalid image")])
    + (if Falsy(image) || (image.Upload? && image.file.size <= MaxFileSize) then []
       else [Issue("image", "Max file size is 5MB")])
    + (if Falsy(image) || (image.Upload? && image.file.mimeType in AcceptedImageTypes) then []
       else [Issue("image", "Invalid image type")])
  }

  /** UpdateProductClientSchema: the update schema without its id rule. */
  function UpdateFieldsIssues(f: UpdateFields, isEmoji: char -> bool): (r: seq<Issue>)
    ensures r == [] <==> UpdateFieldsValid(f, isEmoji)
    ensures f.name.Some? && HasEmoji(f.name.value, isEmoji) ==>
              Issue("name", "Product name cannot contain emojis") in r
    ensures f.name.Some? && f.name.value == [] ==> Issue("name", "Name is required") in r
  {
    (match f.name
     case None => []
     case Some(n) =>
       Utf16LengthZero(n);
       (if Utf16Length(n) >= 1 then [] else [Issue("name", "Name is required")])
       + (if !HasEmoji(n, isEmoji) then [] else [Issue("name", "Product name cannot contain emojis")]))
    + (match f.price
       case None => []
       case Some(p) => if p >= 0 then [] else [Issue("price", LibraryMessage)])
    + (match f.quantity
       case None => []
       case Some(q) => WholeNonNegativeIssues("quantity", q, LibraryMessage))
    + (match f.lowStockAt
       case None => []
       case Some(t) => WholeNonNegativeIssues("lowStockAt", t, LibraryMessage))
    + UpdateImageIssues(f.image)
  }

  /** UpdateProductSchema: a non-empty id, then the field rules. */
  function UpdateProductIssues(f: UpdateProductForm, isEmoji: char -> bool): (r: seq<Issue>)
    ensures r == [] <==> |f.id| >= 1 && UpdateFieldsValid(f.fields, isEmoji)
    ensures f.id == [] ==> r[0] == Issue("id", "Product ID is required")
  {
    Utf16LengthZero(f.id);
    (if Utf16Length(f.id) >= 1 then [] else [Issue("id", "Product ID is required")])
    + UpdateFieldsIssues(f.fields, isEmoji)
  }

  /** Dropping the id: for any non-empty id the two schemas report the same issues. */
  lemma ClientSchemaIsServerWithoutId(fields: UpdateFields, id: string, isEmoji: char -> bool)
    requires id != []
    ensures UpdateProductIssues(UpdateProductForm(id, fields), isEmoji) == UpdateFieldsIssues(fields, isEmoji)
    ensures UpdateFieldsIssues(fields, isEmoji) == [] <==>
              UpdateProductIssues(UpdateProductForm(id, fields), isEmoji) == []
  {
    Utf16LengthBounds(id);
  }

  /** A present image is held to the create schema's file limits. */
  lemma UpdateImageMatchesCreate(file: FileInfo)
    ensures UpdateImageIssues(Upload(file)) == [] <==> ImageIssues(Upload(file)) == []
  {
  }

  /** Absent optional fields impose nothing: an empty update form with an id is accepted. */
  lemma EmptyUpdateAccepted(id: string, isEmoji: char -> bool)
    requires id != []
    ensures UpdateProductIssues(UpdateProductForm(id, UpdateFields(None, None, None, None, Absent)), isEmoji) == []
  {
  }
}
