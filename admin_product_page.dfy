/** The product admin page (src/components/admin/AdminProductPage.js): the
    listed products, the page error, the product being edited and the pending
    delete with its one image. */
module AdminProductPageModel {
  import opened Common
  import opened StorageUtils
  import opened Records
  import opened AdminLists

  const FETCH_PRODUCTS_FAILED: string := "No se pudieron cargar los productos. Intenta recargar."
  const DELETE_PRODUCT_FAILED: string := "Error al borrar el producto."

  /** The `deleteConfirmation` state: the product to delete and its image. */
  datatype ProductDeletion = ProductDeletion(id: Option<int>, imageUrl: Option<string>)

  const NO_PRODUCT_DELETION: ProductDeletion := ProductDeletion(None, None)

  function ProductId(p: ProductRow): int
  {
    p.id
  }

  class AdminProductPage {
    var products: seq<ProductRow>
    var error: string
    var editing: Option<ProductRow>
    var deletion: ProductDeletion

    constructor()
      ensures products == [] && error == "" && editing.None? && deletion == NO_PRODUCT_DELETION
    {
      products, error, editing, deletion := [], "", None, NO_PRODUCT_DELETION;
    }

    /** fetchProducts, run to its end with the table's answer: a failure
        keeps the list as it was. */
    method Fetch(reply: FetchReply<ProductRow>)
      modifies this
      ensures reply.Fetched? ==> products == RowsOf(reply.data) && error == ""
      ensures reply.FetchFailed? ==> products == old(products) && error == FETCH_PRODUCTS_FAILED
      ensures editing == old(editing) && deletion == old(deletion)
    {
      error := "";
      match reply {
        case Fetched(data) => products := RowsOf(data);
        case FetchFailed(_) => error := FETCH_PRODUCTS_FAILED;
      }
    }

    /** handleProductAdded: the new product goes first. */
    method HandleProductAdded(newProduct: ProductRow)
      modifies this
      ensures products == [newProduct] + old(products)
      ensures error == old(error) && editing == old(editing) && deletion == old(deletion)
    {
      products := [newProduct] + products;
    }

    /** handleProductUpdated: the product with the same id is replaced in
        place and the editor closes. */
    method HandleProductUpdated(updated: ProductRow)
      modifies this
      ensures products == ReplaceById(old(products), updated, ProductId) && editing.None?
      ensures error == old(error) && deletion == old(deletion)
    {
      products := ReplaceById(products, updated, ProductId);
      editing := None;
    }

    /** handleEditClick: open the editor and clear the error. */
    method HandleEditClick(product: ProductRow)
      modifies this
      ensures editing == Some(product) && error == ""
      ensures products == old(products) && deletion == old(deletion)
    {
      editing, error := Some(product), "";
    }

    method HandleCloseModal()
      modifies this
      ensures editing.None?
      ensures products == old(products) && error == old(error) && deletion == old(deletion)
    {
      editing := None;
    }

    /** handleDeleteClick: ask for confirmation. */
    method HandleDeleteClick(id: Option<int>, imageUrl: Option<string>)
      modifies this
      ensures deletion == ProductDeletion(id, imageUrl) && error == ""
      ensures products == old(products) && editing == old(editing)
    {
      deletion, error := ProductDeletion(id, imageUrl), "";
    }

    method CancelDelete()
      modifies this
      ensures deletion == NO_PRODUCT_DELETION
      ensures products == old(products) && error == old(error) && editing == old(editing)
    {
      deletion := NO_PRODUCT_DELETION;
    }

    /** confirmDelete, with the table's answer to the delete and the store's
        answer to the image delete. Returns the bucket afterwards. */
    method ConfirmDelete(dbError: Option<string>, removeError: Option<string>, storage: set<string>)
      returns (after: set<string>)
      modifies this
      // no pending id: nothing happens
      ensures !PendingId(old(deletion.id)) ==>
        after == storage && products == old(products) && error == old(error) && deletion == old(deletion)
      // the row goes first; only then its image, if it has one, whose delete error is swallowed
      ensures PendingId(old(deletion.id)) && dbError.None? ==>
        products == RemoveById(old(products), old(deletion.id.value), ProductId) && error == "" &&
        after == (if Truthy(old(deletion.imageUrl)) then DeleteImage(old(deletion.imageUrl.value), storage, removeError).storage else storage)
      // a refused delete: the bucket and the list are untouched, and nothing is refetched
      ensures PendingId(old(deletion.id)) && dbError.Some? ==>
        after == storage && products == old(products) && error == DELETE_PRODUCT_FAILED
      ensures PendingId(old(deletion.id)) ==> deletion == NO_PRODUCT_DELETION
      ensures editing == old(editing)
    {
      if !PendingId(deletion.id) {
        return storage;
      }
      var productId, imageUrl := deletion.id.value, deletion.imageUrl;
      error := "";
      after := storage;
      if dbError.None? {
        if Truthy(imageUrl) {
          after := DeleteImage(imageUrl.value, storage, removeError).storage;
        }
        products := RemoveById(products, productId, ProductId);
      } else {
        error := DELETE_PRODUCT_FAILED;
      }
      deletion := NO_PRODUCT_DELETION;
    }
  }
}
