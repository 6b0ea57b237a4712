/** handleAddBlog (src/components/admin/AddBlog.js): upload every image, insert
    the entry with the uploaded URLs, and on a failed insert delete the
    uploads again. Every failure is rethrown with a friendly prefix. */
module AddBlogModel {
  import opened Common
  import opened StorageUtils
  import opened ImageBatch
  import opened ImageRules
  import opened Records
  import opened BlogFormModel
  import opened Database

  const NO_BLOG_IMAGES: string := "Se requieren imágenes para la nueva entrada de blog."
  const ADD_BLOG_PREFIX: string := "Error al agregar el blog: "

  /** The object written to the `blogs` table. */
  datatype BlogData = BlogData(
    title: string, excerpt: Option<string>, info: seq<string>, date: string, category: string,
    imageUrls: seq<string>)

  /** The payload built from the form's fields and the image list, the
      excerpt `|| null`. */
  function BlogDataOf(d: BlogFields, info: seq<string>, imageUrls: seq<string>): BlogData
  {
    BlogData(d.title, EmptyToNull(d.excerpt), info, d.date, d.category, imageUrls)
  }

  /** The friendly error: the prefix and the error's message, or the fallback
      text when it has none. */
  function AddBlogError(message: string): string
  {
    ADD_BLOG_PREFIX + RejectionText(message, UNEXPECTED_ERROR)
  }

  /** handleAddBlog(formData, imageFiles). The k-th upload uses id `ids[k]`
      and meets reply `replies[k]`; `insert` is the table's answer and
      `removeErrors[k]` the store's answer to the k-th compensating delete. */
  method HandleAddBlog(
    sub: BlogSubmission, ids: seq<string>, replies: seq<StorageReply>, insert: WriteReply<BlogRow>,
    removeErrors: seq<Option<string>>, storage: set<string>)
    returns (o: Outcome<BlogData, BlogRow>)
    requires |ids| == |sub.imageFiles| && |replies| == |sub.imageFiles| && |removeErrors| == |sub.imageFiles|
    // no files: nothing is uploaded and nothing inserted
    ensures |sub.imageFiles| == 0 ==>
      o == Outcome(None, None, Some(ADD_BLOG_PREFIX + NO_BLOG_IMAGES), Rejected(ADD_BLOG_PREFIX + NO_BLOG_IMAGES), storage)
    // the insert is issued exactly when there are files and every upload succeeded
    ensures o.sent.Some? <==> |sub.imageFiles| > 0 && !SomeUploadFails(sub.imageFiles, ids, replies, storage)
    // the row carries the fields, the excerpt `|| null`, and one URL per file in file order
    ensures o.sent.Some? ==>
      var s := o.sent.value;
      s.title == sub.data.title && s.date == sub.data.date && s.category == sub.data.category &&
      s.info == sub.info && (s.excerpt.None? <==> sub.data.excerpt == "") &&
      |s.imageUrls| == |sub.imageFiles| &&
      forall k :: 0 <= k < |sub.imageFiles| ==> s.imageUrls[k] == PublicUrl(ObjectPathFor(ids[k], sub.imageFiles[k].name))
    // success: the page gets the inserted row; the bucket gains exactly the new objects
    ensures o.settled.Resolved? <==> o.sent.Some? && insert.Wrote?
    ensures o.settled.Resolved? ==>
      o.delivered == Some(insert.row) && o.reported.None? &&
      o.storage == storage + Elements(PathsFor(sub.imageFiles, ids)) && storage !! Elements(PathsFor(sub.imageFiles, ids))
    // every failure is rethrown with the prefix, and the page gets nothing
    ensures o.settled.Rejected? ==>
      o.delivered.None? && o.reported == Some(o.settled.message) && StartsWith(o.settled.message, ADD_BLOG_PREFIX)
    // a failed upload: the insert's reply does not matter, earlier uploads stay in the bucket
    ensures |sub.imageFiles| > 0 && o.sent.None? ==>
      var b := UploadAll(sub.imageFiles, ids, replies, storage);
      b.outcome.BatchFailed? && o.settled == Rejected(AddBlogError(b.outcome.message)) && o.storage == b.storage
    // a failed insert: the compensating deletes touch only the new objects
    ensures o.sent.Some? && insert.WriteFailed? ==>
      o.settled == Rejected(AddBlogError(insert.message)) &&
      storage <= o.storage <= storage + Elements(PathsFor(sub.imageFiles, ids))
    // ... and when they all succeed the bucket is as it was
    ensures o.sent.Some? && insert.WriteFailed? && removeErrors == NoErrors(|sub.imageFiles|) ==> o.storage == storage
  {
    var files := sub.imageFiles;
    if |files| == 0 {
      var message := ADD_BLOG_PREFIX + NO_BLOG_IMAGES;
      StartsWithConcat(ADD_BLOG_PREFIX, NO_BLOG_IMAGES);
      return Outcome(None, None, Some(message), Rejected(message), storage);
    }
    var b := UploadAll(files, ids, replies, storage);
    UploadAllFailsIff(files, ids, replies, storage);
    if b.outcome.BatchFailed? {
      var message := AddBlogError(b.outcome.message);
      StartsWithConcat(ADD_BLOG_PREFIX, RejectionText(b.outcome.message, UNEXPECTED_ERROR));
      return Outcome(None, None, Some(message), Rejected(message), b.storage);
    }
    var uploadedUrls := b.outcome.urls;
    AllUploadedWritesFreshObjects(files, ids, replies, storage);
    var blogData := BlogDataOf(sub.data, sub.info, uploadedUrls);
    match insert {
      case WriteFailed(_, insertMessage) =>
        var after := DeleteAll(uploadedUrls, b.storage, removeErrors);
        DeleteAllRemoves(uploadedUrls, b.storage, removeErrors);
        RemovedSetWithin(uploadedUrls, PathsFor(files, ids), removeErrors);
        if removeErrors == NoErrors(|files|) {
          UploadAllThenDeleteAll(files, ids, replies, storage);
        }
        var message := AddBlogError(insertMessage);
        StartsWithConcat(ADD_BLOG_PREFIX, RejectionText(insertMessage, UNEXPECTED_ERROR));
        o := Outcome(Some(blogData), None, Some(message), Rejected(message), after);
      case Wrote(row) =>
        o := Outcome(Some(blogData), Some(row), None, Resolved, b.storage);
    }
  }
}
