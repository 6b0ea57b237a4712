/** handleUpdateProduct (src/components/admin/EditProductModal.js): upload a
    replacement image if one was chosen, write the product, undo the new
    upload when the write fails, and delete the replaced image only once the
    write has succeeded. Every failure is rethrown as the friendly error. */
module EditProductModalModel {
  import opened Common
  import opened StorageUtils
  import opened Records
  import opened ProductFormModel
  import opened AddProductModel
  import opened Database

  const EDIT_PRODUCT_PREFIX: string := "Error al actualizar el producto: "

  /** handleUpdateProduct(formData, imageFile) for the stored `product`. The
      upload uses id `id` and meets reply `reply`; `update` is the table's
      answer; `rollbackError` answers the delete of the new upload and
      `cleanupError` the delete of the replaced image. */
  method HandleUpdateProduct(
    product: ProductRow, sub: ProductSubmission, parsedPrice: Option<real>, parsedStock: Option<int>,
    id: string, reply: StorageReply, update: WriteReply<ProductRow>,
    rollbackError: Option<string>, cleanupError: Option<string>, storage: set<string>)
    returns (o: Outcome<ProductData, ProductRow>)
    // the write is issued unless the replacement fails to upload
    ensures o.sent.Some? <==>
      sub.imageFile.None? || UploadImage(sub.imageFile, id, storage, reply).result.Uploaded?
    // with no new file the stored URL is written unchanged and nothing is uploaded
    ensures o.sent.Some? ==>
      o.sent.value == ProductDataOf(sub.data, parsedPrice, parsedStock,
        if sub.imageFile.Some? then Some(PublicUrl(ObjectPathFor(id, sub.imageFile.value.name))) else product.imageUrl)
    // success: the page gets the row, the modal closes
    ensures o.settled.Resolved? <==> o.sent.Some? && update.Wrote?
    ensures o.settled.Resolved? ==> o.delivered == Some(update.row) && o.reported.None?
    // every failure is rethrown as the friendly error, the SKU violation with its own message
    ensures o.settled.Rejected? ==> o.delivered.None? && o.reported == Some(o.settled.message)
    ensures o.sent.None? ==>
      var u := UploadImage(sub.imageFile, id, storage, reply);
      u.result.UploadFailed? && o.settled == Rejected(EDIT_PRODUCT_PREFIX + u.result.message) && o.storage == u.storage
    ensures o.sent.Some? && update.WriteFailed? ==>
      o.settled == Rejected(ProductErrorText(EDIT_PRODUCT_PREFIX, Some(update.code), update.message, sub.data.sku))
    // no new file: the bucket is never touched
    ensures sub.imageFile.None? ==> o.storage == storage
    // a new file and a failed write: the stored image is kept; the new one is deleted again
    ensures sub.imageFile.Some? && o.sent.Some? && update.WriteFailed? ==>
      var path := ObjectPathFor(id, sub.imageFile.value.name);
      storage <= o.storage <= storage + {path} &&
      (rollbackError.None? && Some(PublicUrl(path)) != product.imageUrl ==> o.storage == storage)
    // a new file and a successful write: the new object is added and the replaced one, if any, removed
    ensures sub.imageFile.Some? && o.settled.Resolved? ==>
      var path := ObjectPathFor(id, sub.imageFile.value.name);
      path !in storage &&
      o.storage == (storage + {path}) -
        (if Truthy(product.imageUrl) && RemovedPath(product.imageUrl.value, cleanupError).Some?
         then {RemovedPath(product.imageUrl.value, cleanupError).value} else {})
  {
    var imageUrl := product.imageUrl;
    var oldImageUrlToDelete: Option<string> := None;
    var current := storage;
    if sub.imageFile.Some? {
      if Truthy(product.imageUrl) {
        oldImageUrlToDelete := product.imageUrl;
      }
      var u := UploadImage(sub.imageFile, id, storage, reply);
      if u.result.UploadFailed? {
        var message := ProductErrorText(EDIT_PRODUCT_PREFIX, None, u.result.message, sub.data.sku);
        return Outcome(None, None, Some(message), Rejected(message), u.storage);
      }
      imageUrl, current := Some(u.result.url), u.storage;
    }
    var updatedData := ProductDataOf(sub.data, parsedPrice, parsedStock, imageUrl);
    match update {
      case WriteFailed(code, updateMessage) =>
        if sub.imageFile.Some? && Truthy(imageUrl) && imageUrl != product.imageUrl {
          LocatePublicUrl(ObjectPathFor(id, sub.imageFile.value.name));
          if rollbackError.None? {
            UploadThenDelete(sub.imageFile.value, id, storage, reply);
          }
          current := DeleteImage(imageUrl.value, current, rollbackError).storage;
        }
        var message := ProductErrorText(EDIT_PRODUCT_PREFIX, Some(code), updateMessage, sub.data.sku);
        o := Outcome(Some(updatedData), None, Some(message), Rejected(message), current);
      case Wrote(row) =>
        if oldImageUrlToDelete.Some? {
          current := DeleteImage(oldImageUrlToDelete.value, current, cleanupError).storage;
        }
        o := Outcome(Some(updatedData), Some(row), None, Resolved, current);
    }
  }
}
