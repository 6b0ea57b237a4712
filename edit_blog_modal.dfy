/** handleUpdateBlog (src/components/admin/EditBlogModal.js): upload the new
    images, write the entry with the retained and new URLs, undo the new
    uploads when the write fails, and delete the dropped images only once the
    write has succeeded. Every failure is rethrown with a friendly prefix. */
module EditBlogModalModel {
  import opened Common
  import opened StorageUtils
  import opened ImageBatch
  import opened ImageRules
  import opened Records
  import opened BlogFormModel
  import opened AddBlogModel
  import opened Database

  const EDIT_BLOG_PREFIX: string := "Error al actualizar el blog: "

  /** handleUpdateBlog(formData, newImageFiles, urlsToRemove) for the entry
      `blog`. The k-th upload uses id `ids[k]` and meets reply `replies[k]`;
      `update` is the table's answer; `rollbackErrors[k]` answers the delete
      of the k-th new upload and `cleanupErrors[k]` the delete of the k-th
      dropped URL. */
  method HandleUpdateBlog(
    blog: BlogRow, sub: BlogSubmission, ids: seq<string>, replies: seq<StorageReply>, update: WriteReply<BlogRow>,
    rollbackErrors: seq<Option<string>>, cleanupErrors: seq<Option<string>>, storage: set<string>)
    returns (o: Outcome<BlogData, BlogRow>)
    requires |ids| == |sub.imageFiles| && |replies| == |sub.imageFiles| && |rollbackErrors| == |sub.imageFiles|
    requires |cleanupErrors| == |sub.urlsToRemove|
    // the write is issued exactly when every new upload succeeded (trivially, when there are none)
    ensures o.sent.Some? <==> !SomeUploadFails(sub.imageFiles, ids, replies, storage)
    // it carries the fields and the final list: retained URLs, then one URL per new file, at most three
    ensures o.sent.Some? ==>
      var b := UploadAll(sub.imageFiles, ids, replies, storage);
      var s := o.sent.value;
      b.outcome.AllUploaded? &&
      s == BlogDataOf(sub.data, sub.info, FinalImageUrls(OrNone(blog.imageUrls), sub.urlsToRemove, b.outcome.urls)) &&
      |s.imageUrls| <= MAX_IMAGES && (s.excerpt.None? <==> sub.data.excerpt == "")
    // success: the page gets the updated row; the bucket gains the new objects and loses only dropped ones
    ensures o.settled.Resolved? <==> o.sent.Some? && update.Wrote?
    ensures o.settled.Resolved? ==>
      o.delivered == Some(update.row) && o.reported.None? &&
      o.storage == (storage + Elements(PathsFor(sub.imageFiles, ids))) - RemovedSet(sub.urlsToRemove, cleanupErrors)
    // the cleanup never deletes an image the written entry still names, given stored URLs that are
    // published in the bucket and dropped URLs taken from them
    ensures (o.settled.Resolved? && AllPublished(OrNone(blog.imageUrls), storage) &&
       (forall r :: r in sub.urlsToRemove ==> r in OrNone(blog.imageUrls))) ==>
      AllPublished(o.sent.value.imageUrls, o.storage)
    // every failure is rethrown with the prefix, and the page gets nothing
    ensures o.settled.Rejected? ==>
      o.delivered.None? && o.reported == Some(o.settled.message) && StartsWith(o.settled.message, EDIT_BLOG_PREFIX)
    ensures o.sent.None? ==>
      var b := UploadAll(sub.imageFiles, ids, replies, storage);
      b.outcome.BatchFailed? && o.settled == Rejected(EDIT_BLOG_PREFIX + b.outcome.message) && o.storage == b.storage
    // a failed write: the dropped images are untouched, and only new uploads are deleted
    ensures o.sent.Some? && update.WriteFailed? ==>
      o.settled == Rejected(EDIT_BLOG_PREFIX + update.message) &&
      storage <= o.storage <= storage + Elements(PathsFor(sub.imageFiles, ids))
    ensures o.sent.Some? && update.WriteFailed? && rollbackErrors == NoErrors(|sub.imageFiles|) ==> o.storage == storage
  {
    var files := sub.imageFiles;
    var b := UploadAll(files, ids, replies, storage);
    UploadAllFailsIff(files, ids, replies, storage);
    var uploadedNewUrls: seq<string> := [];
    if |files| > 0 {
      if b.outcome.BatchFailed? {
        var message := EDIT_BLOG_PREFIX + b.outcome.message;
        StartsWithConcat(EDIT_BLOG_PREFIX, b.outcome.message);
        return Outcome(None, None, Some(message), Rejected(message), b.storage);
      }
      uploadedNewUrls := b.outcome.urls;
    }
    AllUploadedWritesFreshObjects(files, ids, replies, storage);
    var finalImageUrls := FinalImageUrls(OrNone(blog.imageUrls), sub.urlsToRemove, uploadedNewUrls);
    FinalImageUrlsSpec(OrNone(blog.imageUrls), sub.urlsToRemove, uploadedNewUrls);
    var updatedData := BlogDataOf(sub.data, sub.info, finalImageUrls);
    match update {
      case WriteFailed(_, updateMessage) =>
        var after := b.storage;
        if |uploadedNewUrls| > 0 {
          after := DeleteAll(uploadedNewUrls, b.storage, rollbackErrors);
          DeleteAllRemoves(uploadedNewUrls, b.storage, rollbackErrors);
          RemovedSetWithin(uploadedNewUrls, PathsFor(files, ids), rollbackErrors);
          if rollbackErrors == NoErrors(|files|) {
            UploadAllThenDeleteAll(files, ids, replies, storage);
          }
        }
        var message := EDIT_BLOG_PREFIX + updateMessage;
        StartsWithConcat(EDIT_BLOG_PREFIX, updateMessage);
        o := Outcome(Some(updatedData), None, Some(message), Rejected(message), after);
      case Wrote(row) =>
        var after := b.storage;
        if |sub.urlsToRemove| > 0 {
          after := DeleteAll(sub.urlsToRemove, b.storage, cleanupErrors);
        }
        DeleteAllRemoves(sub.urlsToRemove, b.storage, cleanupErrors);
        var current := OrNone(blog.imageUrls);
        if AllPublished(current, storage) && forall r :: r in sub.urlsToRemove ==> r in current {
          EditKeepsWrittenImages(current, sub.urlsToRemove, finalImageUrls, files, ids, replies, cleanupErrors, storage);
        }
        o := Outcome(Some(updatedData), Some(row), None, Resolved, after);
    }
  }
}
