/** handleAddProduct (src/components/admin/AddProduct.js): upload the one
    optional image, insert the product, and on a failed insert delete the
    upload again. Failures are shown but never rethrown, so the form's promise
    always resolves. */
module AddProductModel {
  import opened Common
  import opened StorageUtils
  import opened Records
  import opened ProductFormModel
  import opened Database

  const ADD_PRODUCT_PREFIX: string := "Error al agregar el producto: "

  /** The object written to the `products` table. Price and stock are the
      parsed numbers; NaN (None) is sent as null. */
  datatype ProductData = ProductData(
    name: string, description: Option<string>, shortDescription: Option<string>, price: Option<real>,
    imageUrl: Option<string>, category: Option<string>, stock: Option<int>, sku: Option<string>,
    isFeatured: bool)

  /** The payload built from the form's fields, `parseFloat(price)`,
      `parseInt(stock, 10)` and the image URL; optional texts `|| null`. */
  function ProductDataOf(d: ProductFields, parsedPrice: Option<real>, parsedStock: Option<int>, imageUrl: Option<string>): ProductData
  {
    ProductData(d.name, EmptyToNull(d.description), EmptyToNull(d.shortDescription), parsedPrice, imageUrl,
                EmptyToNull(d.category), parsedStock, EmptyToNull(d.sku), d.isFeatured)
  }

  /** handleAddProduct(formData, imageFile). The upload uses id `id` and meets
      reply `reply`; `insert` is the table's answer and `removeError` the
      store's answer to the compensating delete. */
  method HandleAddProduct(
    sub: ProductSubmission, parsedPrice: Option<real>, parsedStock: Option<int>, id: string, reply: StorageReply,
    insert: WriteReply<ProductRow>, removeError: Option<string>, storage: set<string>)
    returns (o: Outcome<ProductData, ProductRow>)
    // the promise the form awaits resolves whatever happens
    ensures o.settled == Resolved
    // the insert is issued unless the chosen image fails to upload
    ensures o.sent.Some? <==>
      sub.imageFile.None? || UploadImage(sub.imageFile, id, storage, reply).result.Uploaded?
    // the row carries the fields, the optional texts `|| null`, the parsed numbers and the new URL or null
    ensures o.sent.Some? ==>
      var s := o.sent.value;
      s.name == sub.data.name && s.isFeatured == sub.data.isFeatured &&
      s.price == parsedPrice && s.stock == parsedStock &&
      (s.description.None? <==> sub.data.description == "") &&
      (s.shortDescription.None? <==> sub.data.shortDescription == "") &&
      (s.category.None? <==> sub.data.category == "") && (s.sku.None? <==> sub.data.sku == "") &&
      s.imageUrl == (if sub.imageFile.Some? then Some(PublicUrl(ObjectPathFor(id, sub.imageFile.value.name))) else None)
    // the page gets the row exactly when the insert succeeds; only failures are reported
    ensures o.delivered.Some? <==> o.sent.Some? && insert.Wrote?
    ensures o.delivered.Some? ==> o.delivered == Some(insert.row) && o.reported.None?
    ensures o.delivered.None? ==> o.reported.Some?
    // a failed upload is reported with the prefix; it never reads as a duplicate SKU
    ensures o.sent.None? ==>
      var u := UploadImage(sub.imageFile, id, storage, reply);
      u.result.UploadFailed? && o.reported == Some(ADD_PRODUCT_PREFIX + u.result.message) && o.storage == u.storage
    // a failed insert: a unique violation on the SKU gets its own message
    ensures o.sent.Some? && insert.WriteFailed? ==>
      o.reported == Some(ProductErrorText(ADD_PRODUCT_PREFIX, Some(insert.code), insert.message, sub.data.sku)) &&
      (IsDuplicateSku(Some(insert.code), insert.message) ==> o.reported == Some(DuplicateSkuMessage(sub.data.sku)))
    // the bucket: no file, no change; otherwise at most the new object is added
    ensures sub.imageFile.None? ==> o.storage == storage
    ensures sub.imageFile.Some? ==>
      var path := ObjectPathFor(id, sub.imageFile.value.name);
      storage <= o.storage <= storage + {path} &&
      (o.delivered.Some? ==> o.storage == storage + {path} && path !in storage)
    // a failed insert whose compensating delete succeeds leaves the bucket as it was
    ensures o.sent.Some? && insert.WriteFailed? && removeError.None? ==> o.storage == storage
  {
    var imageUrl: Option<string> := None;
    var current := storage;
    if sub.imageFile.Some? {
      var u := UploadImage(sub.imageFile, id, storage, reply);
      if u.result.UploadFailed? {
        // an upload error carries no code, so it is never the SKU message
        var message := ProductErrorText(ADD_PRODUCT_PREFIX, None, u.result.message, sub.data.sku);
        return Outcome(None, None, Some(message), Resolved, u.storage);
      }
      imageUrl, current := Some(u.result.url), u.storage;
    }
    var productData := ProductDataOf(sub.data, parsedPrice, parsedStock, imageUrl);
    match insert {
      case WriteFailed(code, insertMessage) =>
        if imageUrl.Some? && imageUrl.value != "" {
          LocatePublicUrl(ObjectPathFor(id, sub.imageFile.value.name));
          if removeError.None? {
            UploadThenDelete(sub.imageFile.value, id, storage, reply);
          }
          current := DeleteImage(imageUrl.value, current, removeError).storage;
        }
        var message := ProductErrorText(ADD_PRODUCT_PREFIX, Some(code), insertMessage, sub.data.sku);
        o := Outcome(Some(productData), None, Some(message), Resolved, current);
      case Wrote(row) =>
        o := Outcome(Some(productData), Some(row), None, Resolved, current);
    }
  }
}
