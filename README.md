# PYCSA website: a Dafny model of its admin and blog core

The PYCSA website is a React single-page site backed by Supabase. This
project models its core in Dafny and proves properties of that model. The
core covers these parts:

- **Image storage helper** (`supabaseUtils.js`). `uploadImage` names an
  object `public/<id>.<ext>`, uploads it without overwriting and answers
  its public URL. `deleteImage` finds the object path in a public URL and
  removes it; an object that is already gone counts as deleted.
- **Admin forms** for blog entries, services, products and delivery zones.
  They validate fields and image files and remember which stored images an
  edit keeps. They hand the result to a parent submit function, and reset
  after a successful add.
- **Add and edit handlers.** They upload the new images and then write the
  row. If the write fails they delete the images they uploaded. After a
  successful edit they delete only the images the edit dropped.
- **Four admin pages.** Each one lists its table and replaces an edited row
  by id. It deletes a row only after confirmation: first the row, then its
  images, best effort.
- **Public pages:**
  - the blog listing, six entries per page, and its pagination control;
  - one blog entry with its paragraph/image layout and its comments;
  - the image carousel;
  - the home page quote form and the contact form (both send through an
    e-mail service).

How the model is built:

- **Tables and bucket.** Database tables are rows (`Records`). The storage
  bucket is the set of object paths it holds.
- **Remote answers are parameters.** What a remote call answers is a
  parameter of the operation: the store's reply to each upload, the table's
  reply to a write, the e-mail service's reply. One answer is a property
  of the modelled store instead: with `upsert: false`, an upload to a path
  the bucket already holds always fails with "The resource already exists",
  whatever the reply parameter says. Each handler returns an `Outcome`:
  - the row it sent;
  - what it handed back to the page;
  - the error it reported;
  - how its promise settled;
  - the bucket afterwards.
- **Components with state are classes.** A React component's state becomes
  a class with one field per `useState`. Each handler becomes a method whose
  `ensures` state the new value of every field.
- **Multi-image forms keep one invariant** (`ImageRules.PreviewsMatch`).
  The previews are the kept stored images, in order, followed by one fresh
  object-URL preview per pending file. There are at most three, and no
  stored image appears twice.

## Model

| member | source | states |
|---|---|---|
| StorageUtils.ObjectPathFor | src/supabaseUtils.js:16-20 | the upload path is `public/` + the generated id + `.` + the file name's extension |
| StorageUtils.FileExtensionIsAfterLastDot | src/supabaseUtils.js:16 | `split('.').pop()` is the text after the last dot (no dot in it), or the whole name when it has none |
| StorageUtils.UploadImage | src/supabaseUtils.js:12-54 | no file → no result and no change; a success puts the new path, which was free, in the bucket and answers its public URL; a failure answers an upload error and leaves the bucket unchanged, except that a missing public URL comes after the write, so that object stays |
| StorageUtils.UploadOutcome | src/supabaseUtils.js:24-45 | an upload succeeds exactly when the path is free, the store accepts it and a public URL comes back; only a success changes the bucket |
| StorageUtils.UploadFailureMessage | src/supabaseUtils.js:31-45 | a failed upload always raises one of uploadImage's own messages |
| StorageUtils.LocateObject | src/supabaseUtils.js:66-80 | no bucket segment ↔ NoBucket; a found path always starts with `public/`; a candidate that does not is rejected |
| StorageUtils.DeleteImage | src/supabaseUtils.js:62-102 | an empty URL does nothing; the bucket loses exactly the located path, unless the store refuses the remove; "not found" is success; an error comes only from an issued remove |
| StorageUtils.DeleteIssuesRemoveOnlyForPublicObjects | src/supabaseUtils.js:70-86 | a remove is issued only for a URL that has the bucket segment and a `public/` path after it |
| StorageUtils.LocatePublicUrl | src/supabaseUtils.js:38-45 | deleteImage's segment search finds the exact object path in any public URL uploadImage returns |
| StorageUtils.UploadThenDelete | src/supabaseUtils.js:12-102 | deleting the URL a successful upload returned gives back the bucket as it was before the upload |
| StorageUtils.DeleteIdempotent | src/supabaseUtils.js:84-94 | deleting the same URL twice leaves the bucket as one delete does, and the second delete reports no error |
| StorageUtils.JoinSplit | src/supabaseUtils.js:67-75 | joining the pieces of `split('/')` gives back the string |
| StorageUtils.SplitJoin | src/supabaseUtils.js:67-75 | splitting a join of separator-free pieces gives back the pieces |
| StorageUtils.SplitAround | src/supabaseUtils.js:67 | splitting at a separator between two strings splits each side |
| StorageUtils.SplitPiecesFree | src/supabaseUtils.js:67 | no piece of a split contains the separator |
| ImageBatch.PathsFor | src/components/admin/AddBlog.js:19-21 | the k-th upload of a batch writes the path named by the k-th id and file |
| ImageBatch.UploadAll | src/components/admin/AddBlog.js:19-21 | `Promise.all` over uploadImage: the bucket only grows, and only by the batch's paths; success answers one URL per file |
| ImageBatch.UploadAllFailsIff | src/components/admin/AddBlog.js:19-21 | the batch fails exactly when one of its uploads fails |
| ImageBatch.UploadAllFailureMessage | src/components/admin/AddBlog.js:19-21 | a failed batch raises an upload failure's message |
| ImageBatch.SucceededUploadsStay | src/components/admin/AddBlog.js:19-21 | an upload that succeeded leaves its new object in the bucket even when another upload of the batch fails |
| ImageBatch.AllUploadedWritesFreshObjects | src/components/admin/AddBlog.js:19-21 | a successful batch adds exactly its paths, none of which were there before |
| ImageBatch.AllUploadedPathsDistinct | src/components/admin/AddBlog.js:19-21 | the objects of a successful batch are pairwise distinct |
| ImageBatch.DeleteAll | src/components/admin/AddBlog.js:38-53 | a batch of best-effort deletes only ever removes objects |
| ImageBatch.DeleteAllRemoves | src/components/admin/AddBlog.js:38-53 | the order of the deletes does not matter: the bucket loses exactly the set of removed paths |
| ImageBatch.AllUploadedRemovedSet | src/components/admin/AddBlog.js:38-53 | deleting the URLs of a successful batch, with every remove accepted, removes exactly its paths |
| ImageBatch.UploadAllThenDeleteAll | src/components/admin/AddBlog.js:19-53 | undoing a successful batch gives back the bucket as it was |
| ImageBatch.RemovedSetWithin | src/components/admin/EditBlogModal.js:49-64 | deleting the public URLs of some paths removes nothing outside those paths |
| ImageBatch.RemovedSetSpares | src/supabaseUtils.js:62-86 | deleting URLs that are published in the bucket removes only objects of the bucket, and never the object of a published URL outside the list |
| ImageBatch.UploadedUrlPublished | src/supabaseUtils.js:14-44 | a URL a successful batch returns is published once the batch's objects are written, whatever objects already in the bucket are removed afterwards |
| ImageBatch.EditKeepsWrittenImages | src/components/admin/EditBlogModal.js:27-31 | an edit that keeps stored URLs outside the removal list and adds the new uploads, then deletes the removal list, leaves every written URL published, provided the stored URLs were published and the removal list is taken from them |
| ImageRules.FileProblemOf | src/components/admin/BlogForm.js:124-139 | a file is refused exactly when its MIME type is not accepted or it exceeds 2 MB; the type is checked first |
| ImageRules.BatchProblemIsFirst | src/components/admin/BlogForm.js:124-139 | a batch is refused exactly when one of its files is, and then for the first refused file |
| ImageRules.ScanBatch | src/components/admin/BlogForm.js:124-139 | the per-file loop: the valid files are the prefix before the first refused file, every one of them valid; no problem → the whole batch |
| ImageRules.AddBatchResult | src/components/admin/BlogForm.js:99-155 | a selection is accepted exactly when it is empty, or fits the free slots and has no refused file; a rejection keeps the image state and gives the slots message or the file's message |
| ImageRules.AddBatch | src/components/admin/BlogForm.js:99-155 | the slot check and the loop compute AddBatchResult |
| ImageRules.AddBatchKeepsShape | src/components/admin/BlogForm.js:99-155 | adding a batch keeps the previews/kept/pending-files invariant |
| ImageRules.RemoveExistingKeepsShape | src/components/admin/BlogForm.js:201-236 | removing a stored image's preview together with that image keeps the invariant |
| ImageRules.RemoveBlobKeepsShape | src/components/admin/BlogForm.js:201-236 | removing a pending file's preview together with that file keeps the invariant |
| ImageRules.BlobIndexIsFileIndex | src/components/admin/BlogForm.js:218-232 | under the invariant, a blob preview's position among the blobs is its file's index |
| ImageRules.KeptDistinct | src/components/admin/BlogForm.js:201-236 | under the invariant, the kept images are distinct and are the first previews |
| ImageRules.ExistingShape | src/components/admin/BlogForm.js:46-73 | the previews of distinct stored images, at most three, satisfy the invariant |
| ImageRules.UrlsToRemovePartition | src/components/admin/BlogForm.js:275-277 | each stored image is either kept or dropped, never both; keeping all drops nothing |
| ImageRules.FinalImageUrlsSpec | src/components/admin/EditBlogModal.js:27-31 | the written list has at most three URLs, each a kept current URL or a new upload, with the kept URLs first and in order |
| ImageRules.RejectionText | src/components/admin/BlogForm.js:294-297 | `error.message \|\| fallback` |
| Common.TrimIsInfix | src/components/admin/BlogForm.js:87-92 | `trim()` yields an infix between a whitespace prefix and a whitespace suffix, with no whitespace at either end |
| Common.TrimEmptyIff | src/pages/BlogPostDetail.js:98 | a string trims to "" exactly when every character is whitespace |
| Common.TrimIdempotent | src/components/admin/BlogForm.js:87-92 | trimming twice is trimming once |
| Common.WithDraft | src/components/admin/BlogForm.js:87-92 | a blank draft changes nothing; otherwise the trimmed draft is appended after the old items |
| Common.AddedItemIsTrimmed | src/components/admin/BlogForm.js:87-92 | an added paragraph or detail is non-empty and has no surrounding whitespace |
| Common.RemoveAt | src/components/admin/BlogForm.js:94-96 | `filter((_, i) => i !== index)`: the element at the index is dropped and the rest keep their order; an index out of range changes nothing |
| Common.IndexOf | src/supabaseUtils.js:68 | `indexOf`: the first position of the element, or -1 exactly when it is absent |
| Common.Without | src/components/admin/BlogForm.js:275-277 | `filter(x => !excluded.includes(x))` keeps exactly the elements not excluded |
| Common.WithoutAppend | src/components/admin/EditBlogModal.js:27-31 | filtering distributes over concatenation, so the order is kept |
| Common.RemoveAllAppend | src/components/admin/ServicesForm.js:170-171 | `filter(url => url !== x)` distributes over concatenation |
| Records.OrEmpty | src/components/admin/ServicesForm.js:44-46 | `x \|\| ''` on a nullable column |
| Records.EmptyToNull | src/components/admin/AddProduct.js:23-29 | `x \|\| null` on a sent text: empty ↔ null |
| Records.EmptyToNullRoundTrip | src/components/admin/ProductForm.js:42-48 | a text that goes out through `\|\| null` comes back through `\|\| ''` unchanged |
| AdminLists.ReplaceById | src/components/admin/AdminBlogsPage.js:47-52 | `map(b => b.id === updated.id ? updated : b)`: same length; rows with that id become the update, the others stay |
| AdminLists.RemoveById | src/components/admin/AdminBlogsPage.js:88 | `filter(b => b.id !== id)`: every kept row has another id, and every row with another id is kept |
| AdminLists.RemoveByIdAppend | src/components/admin/AdminBlogsPage.js:88 | filtering a concatenation filters each part, and a single row stays exactly when its id differs, so order and repeats are kept as `filter` keeps them |
| AdminLists.RemoveAbsentId | src/components/admin/AdminBlogsPage.js:88 | removing an id the list does not hold changes nothing |
| AdminLists.RemoveAfterPrepend | src/components/admin/AdminBlogsPage.js:43-45 | deleting a just-added row's id gives the same list as deleting that id from the list before the add, and exactly that earlier list when no older row shares the id |
| AdminLists.RemoveAfterReplace | src/components/admin/AdminBlogsPage.js:47-52 | deleting an edited row gives the same list as deleting it unedited |
| AdminLists.ReplaceAbsentId | src/components/admin/AdminBlogsPage.js:47-52 | an update for an id the list does not hold changes nothing |
| AdminLists.ReplaceIdempotent | src/components/admin/AdminBlogsPage.js:47-52 | applying the same update twice is applying it once |
| AddBlogModel.HandleAddBlog | src/components/admin/AddBlog.js:11-77 | no images → rejected and nothing sent; the insert happens exactly when every upload succeeded, with one URL per file; success adds exactly the new objects; a failed insert deletes only them; every failure is rethrown with the prefix |
| AddServicesModel.HandleAddServices | src/components/admin/AddServices.js:12-89 | the same contract for services: images required, all-or-nothing insert, compensating deletes, prefixed rethrow |
| Common.ContainsIffOccurs | src/components/admin/AddProduct.js:72 | `includes(sub)` holds exactly when `sub` occurs at some position of the text |
| Database.IsDuplicateSku | src/components/admin/AddProduct.js:72 | a duplicate SKU is the unique-violation code `23505` together with a message that contains `sku` somewhere; an error without a code never is |
| Database.DuplicateSkuMessage | src/components/admin/AddProduct.js:73 | the message starts with `Error: El SKU '` and quotes the SKU the form sent right after it |
| Database.DuplicateSkuMessageInjective | src/components/admin/AddProduct.js:73 | two SKUs with the same message are the same SKU |
| Database.ProductErrorText | src/components/admin/EditProductModal.js:87-90 | a duplicate SKU gets the SKU message; every other error, and every upload error (no code), is the handler's prefix followed by the error's own message |
| AddProductModel.HandleAddProduct | src/components/admin/AddProduct.js:12-88 | always resolves (no rethrow); the insert happens unless the image upload fails; it carries the `\|\| null` texts and the parsed numbers; a duplicate SKU gets its own message; a failed insert deletes only the new image |
| EditBlogModalModel.HandleUpdateBlog | src/components/admin/EditBlogModal.js:13-96 | the update happens exactly when every new upload succeeded and writes the kept URLs then the new ones; success removes only images the edit dropped and, when the stored URLs are published and the dropped ones come from them, every URL the row now names is still in the bucket; failure keeps every stored image, deletes only the new uploads and is rethrown |
| EditServiceModalModel.ServiceUpdateSettles | src/components/admin/EditServiceModal.js:104-106 | the promise rejects exactly when the `error` value captured at render time is set; it ignores the current run |
| EditServiceModalModel.HandleUpdateService | src/components/admin/EditServiceModal.js:16-107 | the same upload/update/cleanup contract as the blog modal, including that a delivered row names only images still in the bucket under the same premises; failures are stored with the prefix, not thrown; the settling is ServiceUpdateSettles of the captured error |
| EditServiceModalModel.EditServiceModal.UpdateService | src/components/admin/EditServiceModal.js:96-106 | across submits, each run settles by the error the previous run left |
| EditServiceModalModel.HandleUpdateServiceRethrowing | src/components/admin/EditServiceModal.js:96-100 | with the friendly error rethrown, the promise resolves exactly when the page gets the row, and rejects with the prefixed message otherwise; a resolved edit names only images still in the bucket under the same premises as HandleUpdateService |
| EditServiceModalModel.StaleErrorCounterexample | src/components/admin/EditServiceModal.js:96-106 | a failed first submit resolves, and a successful submit after it rejects |
| EditProductModalModel.HandleUpdateProduct | src/components/admin/EditProductModal.js:16-96 | no new file → the stored URL is written and the bucket is untouched; a new file and success → the new object is added and the replaced one removed; a failed write keeps the old image and deletes the new one; a duplicate SKU gets its own message; failures are rethrown |
| BlogFormModel.BlogValidationError | src/components/admin/BlogForm.js:248-267 | no message exactly when the title and category are not blank, the date is set and there is a paragraph and an image; a message is always one of the five |
| BlogFormModel.BlogValidationErrorSpec | src/components/admin/BlogForm.js:248-267 | the checks run in source order (blank title, missing date, blank category, no paragraph, no image); an entry passes exactly when none fails |
| BlogFormModel.FieldsOf | src/components/admin/BlogForm.js:46-73 | the fields of a stored entry, the excerpt `\|\| ''` |
| BlogFormModel.BlogForm.Prefill | src/components/admin/BlogForm.js:46-73 | an entry to edit fills the fields and shows its stored images; none empties the form; the invariant holds for distinct stored images, at most three |
| BlogFormModel.BlogForm.Change | src/components/admin/BlogForm.js:76-80 | only the named field changes, and the form error is cleared |
| BlogFormModel.BlogForm.ChangeInfoItem | src/components/admin/BlogForm.js:83-85 | only the paragraph being typed changes |
| BlogFormModel.BlogForm.AddInfoItem | src/components/admin/BlogForm.js:87-92 | the paragraphs become WithDraft of the draft; the draft is cleared when it was added |
| BlogFormModel.BlogForm.RemoveInfoItem | src/components/admin/BlogForm.js:94-96 | the paragraph at that index is dropped |
| BlogFormModel.BlogForm.HandleFileChange | src/components/admin/BlogForm.js:99-155 | the image state becomes AddBatchResult, and the invariant holds |
| BlogFormModel.BlogForm.RemoveImage | src/components/admin/BlogForm.js:201-236 | the preview is dropped, with either its stored image or its pending file; the invariant holds |
| BlogFormModel.BlogForm.Submit | src/components/admin/BlogForm.js:242-298 | a failed check shows its message and sends nothing; otherwise sends the fields, the paragraphs, the pending files and the dropped stored URLs; a resolved add resets the form; a rejection shows its message and keeps the fields |
| ServicesFormModel.ServiceValidationError | src/components/admin/ServicesForm.js:190-206 | the name is checked as typed (a name of spaces passes), then the details, then the images |
| ServicesFormModel.ServiceFieldsOf | src/components/admin/ServicesForm.js:41-48 | the fields of a stored service, each `\|\| ''` |
| ServicesFormModel.ServiceUrlsToRemove | src/components/admin/ServicesForm.js:214-217 | adding drops no URL; editing drops exactly the stored URLs no longer kept |
| ServicesFormModel.ServicesForm.Prefill | src/components/admin/ServicesForm.js:41-72 | a service to edit fills the fields and shows its stored images; none empties the form; the invariant holds for distinct stored images, at most three |
| ServicesFormModel.ServicesForm.ChangeText | src/components/admin/ServicesForm.js:74-82 | only the named text field changes, and the form error is cleared |
| ServicesFormModel.ServicesForm.ChangeFeatured | src/components/admin/ServicesForm.js:74-82 | only `is_featured` changes |
| ServicesFormModel.ServicesForm.ChangeDetail | src/components/admin/ServicesForm.js:84-86 | only the detail being typed changes |
| ServicesFormModel.ServicesForm.AddDetail | src/components/admin/ServicesForm.js:88-94 | the details become WithDraft of the draft |
| ServicesFormModel.ServicesForm.RemoveDetail | src/components/admin/ServicesForm.js:95-99 | the detail at that index is dropped |
| ServicesFormModel.ServicesForm.HandleFileChange | src/components/admin/ServicesForm.js:100-159 | the image state becomes AddBatchResult, and the invariant holds |
| ServicesFormModel.ServicesForm.RemoveImage | src/components/admin/ServicesForm.js:161-185 | the preview is dropped, with either its stored URL or its pending file; the invariant holds |
| ServicesFormModel.ServicesForm.Submit | src/components/admin/ServicesForm.js:190-245 | the checks, the payload with the dropped URLs, a reset after a resolved add, and the rejection's message otherwise |
| ProductFormModel.StoredUrl | src/components/admin/ProductForm.js:50-52 | `image_url \|\| null` |
| ProductFormModel.ProductFieldsOf | src/components/admin/ProductForm.js:39-51 | the fields of a stored product: texts `\|\| ''`, numbers through their text |
| ProductFormModel.StoredPreview | src/components/admin/ProductForm.js:52 | the preview of the stored image |
| ProductFormModel.ProductFileError | src/components/admin/ProductForm.js:91-107 | the one file is refused exactly when it has a problem; a bad type gives the list of accepted types, and a size over 2 MB gives the size message |
| ProductFormModel.ProductValidationError | src/components/admin/ProductForm.js:123-132 | empty name, price or stock → required message; otherwise a negative parsed price or stock → the negative message; a price or stock that does not parse passes |
| ProductFormModel.ProductForm.Prefill | src/components/admin/ProductForm.js:39-72 | a product to edit fills the fields and shows its stored image; none empties the form |
| ProductFormModel.ProductForm.ChangeText | src/components/admin/ProductForm.js:75-82 | only the named text field changes |
| ProductFormModel.ProductForm.ChangeFeatured | src/components/admin/ProductForm.js:75-82 | only `is_featured` changes |
| ProductFormModel.ProductForm.HandleFileChange | src/components/admin/ProductForm.js:85-116 | an accepted file becomes the pending image; a refused one gives its message; either way the preview falls back to the stored image while no file is pending |
| ProductFormModel.ProductForm.Submit | src/components/admin/ProductForm.js:119-159 | the checks, a send of the fields and the file, a reset after a resolved add, and the rejection's message otherwise |
| DeliveryZoneFormModel.ZoneFieldsOf | src/components/admin/DeliveryZoneForm.js:37-43 | the fields of a stored zone, each `\|\| ''` |
| DeliveryZoneFormModel.ZoneValidationError | src/components/admin/DeliveryZoneForm.js:72-84 | passes exactly when the province and cost are filled in and the cost parses to a number that is not negative |
| DeliveryZoneFormModel.DeliveryZoneForm.Prefill | src/components/admin/DeliveryZoneForm.js:36-54 | a zone to edit fills the fields; none empties them; the error is cleared |
| DeliveryZoneFormModel.DeliveryZoneForm.Change | src/components/admin/DeliveryZoneForm.js:57-64 | only the named field changes |
| DeliveryZoneFormModel.DeliveryZoneForm.Submit | src/components/admin/DeliveryZoneForm.js:67-103 | a failed check shows its message and sends nothing; otherwise sends the fields, resets after a resolved add, and shows the rejection's message otherwise |
| AdminBlogsPageModel.FetchedBlogs | src/components/admin/AdminBlogsPage.js:19-37 | the rows (null → none), or an empty list and the prefixed message |
| AdminBlogsPageModel.ErrorAfterFailedDelete | src/components/admin/AdminBlogsPage.js:92-95 | as written, the error left after a refused delete is the refetch's: none when the refetch succeeds |
| AdminBlogsPageModel.ErrorAfterFailedDeleteIntended | src/components/admin/AdminBlogsPage.js:92-94 | the error meant to stay, whatever the refetch returns: the prefix `Error al borrar el blog: ` followed by exactly the delete's message |
| AdminBlogsPageModel.DeleteErrorLost | src/components/admin/AdminBlogsPage.js:92-95 | a refused delete followed by a successful refetch shows no error at all |
| AdminBlogsPageModel.AdminBlogsPage.Fetch | src/components/admin/AdminBlogsPage.js:19-37 | the list and error become FetchedBlogs of the reply |
| AdminBlogsPageModel.AdminBlogsPage.HandleBlogAdded | src/components/admin/AdminBlogsPage.js:43-45 | the new entry goes first |
| AdminBlogsPageModel.AdminBlogsPage.HandleBlogUpdated | src/components/admin/AdminBlogsPage.js:47-52 | the entry with that id is replaced in place and the editor closes |
| AdminBlogsPageModel.AdminBlogsPage.HandleDeleteBlog | src/components/admin/AdminBlogsPage.js:54-57 | the entry and its images await confirmation; the error is cleared |
| AdminBlogsPageModel.AdminBlogsPage.CancelDelete | src/components/admin/AdminBlogsPage.js:102-104 | the confirmation is dropped |
| AdminBlogsPageModel.AdminBlogsPage.SetEditing | src/components/admin/AdminBlogsPage.js:106-112 | the editor opens on the entry or closes |
| AdminBlogsPageModel.AdminBlogsPage.ConfirmDelete | src/components/admin/AdminBlogsPage.js:59-100 | no pending id → nothing; the row is deleted first and only then its images (errors swallowed); a refused delete leaves the bucket and refetches; the confirmation is cleared |
| AdminServicesPageModel.FetchedServices | src/components/admin/AdminServicesPage.js:20-38 | the rows, or an empty list and the prefixed message |
| AdminServicesPageModel.ErrorAfterFailedDelete | src/components/admin/AdminServicesPage.js:97-100 | as written, the error left after a refused delete is the refetch's |
| AdminServicesPageModel.ErrorAfterFailedDeleteIntended | src/components/admin/AdminServicesPage.js:97-99 | the error meant to stay, whatever the refetch returns: the prefix `Error al borrar el servicio: ` followed by exactly the delete's message |
| AdminServicesPageModel.DeleteErrorLost | src/components/admin/AdminServicesPage.js:97-100 | a refused delete followed by a successful refetch shows no error at all |
| AdminServicesPageModel.AdminServicesPage.Fetch | src/components/admin/AdminServicesPage.js:20-38 | the list and error become FetchedServices of the reply |
| AdminServicesPageModel.AdminServicesPage.HandleServiceAdded | src/components/admin/AdminServicesPage.js:44-46 | the new service goes first |
| AdminServicesPageModel.AdminServicesPage.HandleServiceUpdated | src/components/admin/AdminServicesPage.js:49-54 | the service with that id is replaced in place and the editor closes |
| AdminServicesPageModel.AdminServicesPage.HandleDeleteService | src/components/admin/AdminServicesPage.js:56-59 | the service and its images await confirmation |
| AdminServicesPageModel.AdminServicesPage.CancelDelete | src/components/admin/AdminServicesPage.js:108-110 | the confirmation is dropped |
| AdminServicesPageModel.AdminServicesPage.SetEditing | src/components/admin/AdminServicesPage.js:113-120 | the editor opens on the service or closes |
| AdminServicesPageModel.AdminServicesPage.ConfirmDelete | src/components/admin/AdminServicesPage.js:61-105 | the row first, then its images; a refused delete leaves the bucket and refetches; the confirmation is cleared |
| AdminProductPageModel.AdminProductPage.Fetch | src/components/admin/AdminProductPage.js:21-38 | the rows, or the old list kept with the fixed message |
| AdminProductPageModel.AdminProductPage.HandleProductAdded | src/components/admin/AdminProductPage.js:45-48 | the new product goes first |
| AdminProductPageModel.AdminProductPage.HandleProductUpdated | src/components/admin/AdminProductPage.js:51-56 | the product with that id is replaced in place and the editor closes |
| AdminProductPageModel.AdminProductPage.HandleEditClick | src/components/admin/AdminProductPage.js:59-62 | the editor opens and the error is cleared |
| AdminProductPageModel.AdminProductPage.HandleCloseModal | src/components/admin/AdminProductPage.js:65-67 | the editor closes |
| AdminProductPageModel.AdminProductPage.HandleDeleteClick | src/components/admin/AdminProductPage.js:70-73 | the product and its image await confirmation |
| AdminProductPageModel.AdminProductPage.CancelDelete | src/components/admin/AdminProductPage.js:115-117 | the confirmation is dropped |
| AdminProductPageModel.AdminProductPage.ConfirmDelete | src/components/admin/AdminProductPage.js:76-112 | the row first, then its image if it has one (errors swallowed); a refused delete leaves the list and bucket and sets the fixed message |
| AdminDeliveryZonePageModel.AdminDeliveryZonePage.Fetch | src/components/admin/AdminDeliveryZonePage.js:17-36 | the rows, or the old list kept with the fixed message |
| AdminDeliveryZonePageModel.AdminDeliveryZonePage.HandleDeliveryZoneAdded | src/components/admin/AdminDeliveryZonePage.js:42-46 | an add refetches the whole list instead of prepending |
| AdminDeliveryZonePageModel.AdminDeliveryZonePage.HandleDeliveryZoneUpdated | src/components/admin/AdminDeliveryZonePage.js:48-54 | the zone with that id is replaced in place and the editor closes |
| AdminDeliveryZonePageModel.AdminDeliveryZonePage.HandleEditClick | src/components/admin/AdminDeliveryZonePage.js:57-60 | the editor opens and the error is cleared |
| AdminDeliveryZonePageModel.AdminDeliveryZonePage.HandleCloseModal | src/components/admin/AdminDeliveryZonePage.js:63-65 | the editor closes |
| AdminDeliveryZonePageModel.AdminDeliveryZonePage.HandleDeleteClick | src/components/admin/AdminDeliveryZonePage.js:68-71 | the zone awaits confirmation |
| AdminDeliveryZonePageModel.AdminDeliveryZonePage.CancelDelete | src/components/admin/AdminDeliveryZonePage.js:103-105 | the confirmation is dropped |
| AdminDeliveryZonePageModel.AdminDeliveryZonePage.ConfirmDelete | src/components/admin/AdminDeliveryZonePage.js:74-100 | no pending id → nothing; success removes the row and leaves the error as it was; failure keeps the list and sets the fixed message |
| PaginationModel.PageNumbers | src/components/Blog/Pagination.js:15 | one button per page |
| PaginationModel.PageNumbersAreThePages | src/components/Blog/Pagination.js:15-19 | the buttons are exactly the pages 1..totalPages, in increasing order |
| PaginationModel.ExactlyOneCurrent | src/components/Blog/Pagination.js:48 | with the current page in range, exactly one button is marked current |
| BlogListingModel.PageRange | src/pages/Blog.js:29-30 | each page asks for six consecutive rows, starting at row 0 for page 1 |
| BlogListingModel.PageRows | src/pages/Blog.js:43 | `.range(from, to)` returns the rows from `from` on, at most six |
| BlogListingModel.PageRangesAdjacent | src/pages/Blog.js:29-30 | consecutive pages ask for adjacent ranges: no row is skipped or read twice |
| BlogListingModel.RowOnItsPage | src/pages/Blog.js:29-43 | row i of the table is row i mod 6 of page i/6 + 1 |
| BlogListingModel.TotalPages | src/pages/Blog.js:56 | `Math.ceil((count \|\| 0) / 6)`: the fewest pages of six that hold every row |
| BlogListingModel.NonEmptyPagesAreCounted | src/pages/Blog.js:43-56 | a page has rows exactly when it is within the page count |
| BlogListingModel.DisplayImage | src/pages/Blog.js:50-53 | the first image, or the logo when there is none |
| BlogListingModel.Cards | src/pages/Blog.js:48-55 | one card per row, in order, each with its display image |
| BlogListingModel.ControlsMatchPageChange | src/pages/Blog.js:77-82 | every page button, and the previous/next buttons exactly when enabled, ask for a page handlePageChange accepts |
| BlogListingModel.BlogPage.Fetch | src/pages/Blog.js:25-71 | failure → no posts, one page, the fixed message; data → the cards and the page count; null data → no posts, one page |
| BlogListingModel.BlogPage.HandlePageChange | src/pages/Blog.js:77-82 | a page within 1..totalPages becomes current; any other request is ignored |
| BlogPostDetailModel.Hero | src/pages/BlogPostDetail.js:214-222 | the hero is the first image, exactly when there is one and it is not empty |
| BlogPostDetailModel.InterleaveContents | src/pages/BlogPostDetail.js:316-330 | several paragraphs: every paragraph in order, and images 1..n after the hero, one per paragraph while they last |
| BlogPostDetailModel.Body | src/pages/BlogPostDetail.js:289-335 | the body is never empty; it starts with the "content not available" placeholder exactly when there is no paragraph, and then shows nothing else |
| BlogPostDetailModel.BodyShows | src/pages/BlogPostDetail.js:289-335 | no paragraphs → the placeholder; one paragraph → it and then every image after the hero; several → InterleaveContents |
| BlogPostDetailModel.CommentDraft | src/pages/BlogPostDetail.js:98-119 | nothing is sent exactly when the name or the text is blank; otherwise both are sent trimmed (non-empty, already trimmed) |
| BlogPostDetailModel.PostDetail.Load | src/pages/BlogPostDetail.js:39-92 | no id → the invalid-id message; a failed read → its prefixed message; no row → not found; a row → the post, with the comments or none when they fail to load |
| BlogPostDetailModel.PostDetail.SetName | src/pages/BlogPostDetail.js:372-373 | only the commenter's name changes |
| BlogPostDetailModel.PostDetail.SetText | src/pages/BlogPostDetail.js:390-391 | only the comment text changes |
| BlogPostDetailModel.PostDetail.SubmitComment | src/pages/BlogPostDetail.js:94-147 | sends CommentDraft; a stored row is put first in the comments and clears the inputs; any other answer shows the error and keeps the inputs |
| BlogPostDetailModel.PostDetail.StatusTimeout | src/pages/BlogPostDetail.js:131-134 | the timer clears the status line and nothing else |
| ImageCarouselModel.JsRem | src/components/ImageCarousel.js:34 | JavaScript `%`: the remainder has the dividend's sign |
| ImageCarouselModel.Paginate | src/components/ImageCarousel.js:38-44 | the new position always names an image |
| ImageCarouselModel.StepsWrapAround | src/components/ImageCarousel.js:38-44 | forward from the last image shows the first; back from the first shows the last; otherwise ±1 |
| ImageCarouselModel.PaginateInverse | src/components/ImageCarousel.js:38-44 | one step forward and one back return to the same image, either way round |
| ImageCarouselModel.IndexOfReachedPage | src/components/ImageCarousel.js:34 | once in range, the shown index is the position |
| ImageCarouselModel.DotTarget | src/components/ImageCarousel.js:135 | dot i goes to position i, moving forward exactly when i is after the shown image |
| ImageCarouselModel.SwipeStep | src/components/ImageCarousel.js:90-97 | a swipe under -10000 steps forward, one over 10000 steps back, anything else not at all |
| ImageCarouselModel.Carousel.Shown | src/components/ImageCarousel.js:34 | the shown image is one of the images |
| ImageCarouselModel.Carousel.Step | src/components/ImageCarousel.js:36-47 | the position becomes Paginate of the step; the direction is the step |
| ImageCarouselModel.Carousel.Tick | src/components/ImageCarousel.js:49-57 | the timer, set up only with more than one image, steps forward |
| ImageCarouselModel.Carousel.ClickDot | src/components/ImageCarousel.js:127-135 | the position and direction become DotTarget |
| ImageCarouselModel.Carousel.DragEnd | src/components/ImageCarousel.js:90-97 | the position moves by SwipeStep, or stays |
| HomePageModel.WithField | src/pages/Home.js:104-107 | `{...prev, [name]: value}`: the named field takes the value and every other field stays |
| HomePageModel.QuoteValid | src/pages/Home.js:61-73 | valid exactly when the terms are accepted and every field but `detalles` is filled in |
| HomePageModel.EditingFieldsAndValidity | src/pages/Home.js:61-73 | editing `detalles` never changes validity; emptying a required field always invalidates |
| HomePageModel.HomePage.HandleInputChange | src/pages/Home.js:104-107 | only the named field changes; validity stays in step |
| HomePageModel.HomePage.HandleCheckboxChange | src/pages/Home.js:109-111 | the terms box takes the value; validity stays in step |
| HomePageModel.HomePage.PrefillFromNavigation | src/pages/Home.js:76-85 | a service named in the navigation state fills `tipoServicio` and nothing else |
| HomePageModel.HomePage.OpenModal | src/pages/Home.js:114-117 | the modal opens on the service |
| HomePageModel.HomePage.CloseModal | src/pages/Home.js:119-122 | the modal closes and the selection is cleared |
| HomePageModel.HomePage.SelectServiceFromModal | src/pages/Home.js:125-130 | the chosen service fills `tipoServicio` and the modal closes |
| HomePageModel.HomePage.EnviarCorreo | src/pages/Home.js:143-200 | an invalid form sends nothing; a valid one sends its fields; a successful send clears every field and the terms box; otherwise the form stays as it was |
| ContactPageModel.TemplateParamsOf | src/pages/Contact.js:99-105 | each field goes under its Spanish name; a missing phone becomes "No proporcionado" |
| ContactPageModel.TemplateParamsFaithful | src/pages/Contact.js:99-105 | the template never gets an empty phone, and two forms with the same parameters agree on every other field |
| ContactPageModel.ContactForm.Type | src/pages/Contact.js:300-385 | typing into the uncontrolled inputs sets the fields the submit reads, and nothing else |
| ContactPageModel.ContactForm.HandleSubmit | src/pages/Contact.js:95-141 | exactly one send to the fixed service and template; the form resets only when the send succeeds |

## Left out

- Rendering, animations, toasts, console output, loading flags, scrolling,
  focus and the `setTimeout` delays around them are not modelled. Only the
  state the handlers change is.
- `FileReader` and `URL.createObjectURL`/`revokeObjectURL` are not
  modelled. A new file's preview is a numbered blob value. The product
  preview of a chosen file is an abstract data URL.
- The store's and the tables' answers, the generated ids (`Date.now()`
  and `Math.random()`), and what `parseFloat`/`parseInt` return are
  parameters. The generated ids are not proved unique.
- An image URL is modelled by its pathname. The model assumes the public
  URL's path is `/storage/v1/object/public/pycsa-image/<object path>`,
  which is the storage SDK's shape. `new URL` parse failures and
  percent-encoding are not modelled.
- `Promise.all` over uploads is modelled as every upload taking place.
  When several fail, the reported failure is the first by index, not the
  first in time.
- A refetch started and not awaited (`fetchBlogs()` and `fetchServices()`
  after a refused delete, the zone page's refetch after an add) is
  modelled as completing before the next event.
- BlogFormModel.BlogForm and ServicesFormModel.ServicesForm: a stored row
  with more than three images, or with the same image twice, is outside
  the model. Prefill still fills the form from it, but the invariant every
  other form operation requires does not hold. The source accepts such a
  row: no slot is free, so every new file is refused, and removing an image
  removes each equal entry. The site's own writes never produce such a row.
- StorageUtils.UploadImage: the failure on a path already in the bucket is
  a rule of the modelled store (see "Remote answers are parameters"), not a
  reply parameter. ImageBatch.AllUploadedWritesFreshObjects and
  StorageUtils.UploadThenDelete rely on it for "the new path was free".
- EditBlogModalModel.HandleUpdateBlog and EditServiceModalModel.HandleUpdateService: the
  guarantee that the written row names only images still in the bucket is proved
  under two premises the model does not derive: each stored URL is the public URL
  of an object in the bucket (rows are written only from uploaded URLs), and the
  dropped URLs are taken from the stored list (the forms compute them by filtering
  the original URLs). A row edited by hand in the table is outside that guarantee.
- AdminLists.PendingId: `if (!id) return` is modelled as a missing id or an
  id equal to 0.
- AdminProductPageModel.AdminProductPage.ConfirmDelete: the source filters
  the list the render captured, not the newest state. The model filters the
  current list, which is the same unless a second update lands in between.
- AdminDeliveryZonePageModel.AdminDeliveryZonePage.ConfirmDelete: the same
  capture of the render-time list is not modelled.
- HomePageModel.HomePage: `isFormValid` is set by an effect after each
  render. The model updates it in the same step (the `Valid()` invariant),
  so the model has no moment where it lags behind.
- Browser-side `required` validation on the home page and contact form is
  not modelled.
- ContactPageModel.ContactForm: the uncontrolled inputs are modelled as one
  fields value, and `e.target.reset()` as emptying it.
- ImageCarouselModel.Carousel: a change of `images` while mounted is not
  modelled beyond the position staying non-negative.
- BlogPostDetailModel: `formatCommentDate` and `formatPostDate` (locale
  date formatting) and the cleanup on unmount are not modelled.
- BlogListingModel.BlogPage.Fetch: with a count of 0 the page count is 0,
  as the source computes. The `Valid()` invariant therefore does not
  require `currentPage <= totalPages`.
- The site's other pages (header, footer, about, login, the list
  components, the zone add/edit modals) are not part of this model.
- Where the code and the design description of the site disagree, the
  model follows the code:
  - AddProduct never rejects the promise its form awaits. EditServiceModal
    resolves on the submit whose update fails; it rejects only when the
    error the previous submit left is set, with that older message (see
    "## Findings").
  - A failed `Promise.all` batch leaves its successful uploads in the bucket,
    because `uploadedUrls` is still empty when the catch block runs
    (ImageBatch.SucceededUploadsStay).
  - Blog page requests outside `1..totalPages` are ignored, not clamped.
  - A failed comment's status line stays until the next submit; only a
    success clears itself after four seconds.
  - The product and zone pages keep the old list when a fetch fails, while
    the blog and service pages empty it.

## Findings

| source | as written | input that shows it | evidently intended | confidence | as-written member | corrected member |
|---|---|---|---|---|---|---|
| src/components/admin/EditServiceModal.js:96-106 | the catch stores the error with `setError` and does not rethrow; the final `if (error) { throw new Error(error); }` reads the `error` captured when the handler was created, so it reflects the previous submit | a first submit whose update fails resolves (the form shows success); a later successful submit then rejects with the old message | reject with this run's friendly error, as the blog and product modals do | not executed | EditServiceModalModel.ServiceUpdateSettles, EditServiceModalModel.HandleUpdateService, EditServiceModalModel.StaleErrorCounterexample | EditServiceModalModel.ServiceUpdateSettlesIntended, EditServiceModalModel.HandleUpdateServiceRethrowing |
| src/components/admin/AdminBlogsPage.js:92-95 (and src/components/admin/AdminServicesPage.js:97-100) | after a refused delete the catch sets the delete's message and then calls `fetchBlogs()`/`fetchServices()`, whose first step is `setError(null)` | the table refuses the delete and the refetch succeeds: the page shows no error | the delete's message stays on the page while the list is refetched | not executed | AdminBlogsPageModel.ErrorAfterFailedDelete, AdminBlogsPageModel.DeleteErrorLost, AdminServicesPageModel.ErrorAfterFailedDelete | AdminBlogsPageModel.ErrorAfterFailedDeleteIntended, AdminServicesPageModel.ErrorAfterFailedDeleteIntended |
