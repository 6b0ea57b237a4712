/** handleUpdateService (src/components/admin/EditServiceModal.js): the same
    upload, write and cleanup sequence as the blog's edit modal, for the
    `services` table. A failure is stored in the modal's `error` state and not
    rethrown; after the sequence the handler throws the `error` value it
    captured when the modal last rendered. */
module EditServiceModalModel {
  import opened Common
  import opened StorageUtils
  import opened ImageBatch
  import opened ImageRules
  import opened Records
  import opened ServicesFormModel
  import opened AddServicesModel
  import opened Database

  const EDIT_SERVICE_PREFIX: string := "Error al actualizar el servicio: "

  /** How the handler's promise settles: it throws the `error` state read
      through the closure of the last render, not the error of this run. */
  function ServiceUpdateSettles(errorAtRender: Option<string>): (r: Settled)
    ensures r.Rejected? <==> errorAtRender.Some? && errorAtRender.value != ""
    ensures r.Rejected? ==> r.message == errorAtRender.value
  {
    if errorAtRender.Some? && errorAtRender.value != "" then Rejected(errorAtRender.value) else Resolved
  }

  /** handleUpdateService(formData, newImageFiles, urlsToRemove) for the entry
      `service`, rendered with `error` equal to `errorAtRender`. The k-th upload uses id `ids[k]` and meets reply `replies[k]`;
      `update` is the table's answer; `rollbackErrors[k]` answers the delete
      of the k-th new upload and `cleanupErrors[k]` the delete of the k-th
      dropped URL. */
  method HandleUpdateService(
    service: ServiceRow, sub: ServiceSubmission, ids: seq<string>, replies: seq<StorageReply>,
    update: WriteReply<ServiceRow>, rollbackErrors: seq<Option<string>>, cleanupErrors: seq<Option<string>>,
    errorAtRender: Option<string>, storage: set<string>)
    returns (o: Outcome<ServiceData, ServiceRow>)
    requires |ids| == |sub.imageFiles| && |replies| == |sub.imageFiles| && |rollbackErrors| == |sub.imageFiles|
    requires |cleanupErrors| == |sub.urlsToRemove|
    // the write is issued exactly when every new upload succeeded (trivially, when there are none)
    ensures o.sent.Some? <==> !SomeUploadFails(sub.imageFiles, ids, replies, storage)
    // it carries the fields and the final list: retained URLs, then one URL per new file, at most three
    ensures o.sent.Some? ==>
      var b := UploadAll(sub.imageFiles, ids, replies, storage);
      var s := o.sent.value;
      b.outcome.AllUploaded? &&
      s == ServiceDataOf(sub.data, sub.details, FinalImageUrls(OrNone(service.imageUrls), sub.urlsToRemove, b.outcome.urls)) &&
      |s.imageUrls| <= MAX_IMAGES
    // the settling ignores this run: it is the thrown value of the last render, or nothing
    ensures o.settled == ServiceUpdateSettles(errorAtRender)
    // success: the page gets the updated row; the bucket gains the new objects and loses only dropped ones
    ensures o.delivered.Some? <==> o.sent.Some? && update.Wrote?
    ensures o.delivered.Some? ==>
      o.delivered == Some(update.row) && o.reported.None? &&
      o.storage == (storage + Elements(PathsFor(sub.imageFiles, ids))) - RemovedSet(sub.urlsToRemove, cleanupErrors)
    // the cleanup never deletes an image the written service still names, given stored URLs that are
    // published in the bucket and dropped URLs taken from them
    ensures (o.delivered.Some? && AllPublished(OrNone(service.imageUrls), storage) &&
       (forall r :: r in sub.urlsToRemove ==> r in OrNone(service.imageUrls))) ==>
      AllPublished(o.sent.value.imageUrls, o.storage)
    // every failure is stored with the prefix, and the page gets nothing
    ensures o.delivered.None? ==> o.reported.Some? && StartsWith(o.reported.value, EDIT_SERVICE_PREFIX)
    ensures o.sent.None? ==>
      var b := UploadAll(sub.imageFiles, ids, replies, storage);
      b.outcome.BatchFailed? && o.reported == Some(EDIT_SERVICE_PREFIX + b.outcome.message) && o.storage == b.storage
    // a failed write: the dropped images are untouched, and only new uploads are deleted
    ensures o.sent.Some? && update.WriteFailed? ==>
      o.reported == Some(EDIT_SERVICE_PREFIX + update.message) &&
      storage <= o.storage <= storage + Elements(PathsFor(sub.imageFiles, ids))
    ensures o.sent.Some? && update.WriteFailed? && rollbackErrors == NoErrors(|sub.imageFiles|) ==> o.storage == storage
  {
    var files := sub.imageFiles;
    var b := UploadAll(files, ids, replies, storage);
    UploadAllFailsIff(files, ids, replies, storage);
    var uploadedNewUrls: seq<string> := [];
    if |files| > 0 {
      if b.outcome.BatchFailed? {
        var message := EDIT_SERVICE_PREFIX + b.outcome.message;
        StartsWithConcat(EDIT_SERVICE_PREFIX, b.outcome.message);
        return Outcome(None, None, Some(message), ServiceUpdateSettles(errorAtRender), b.storage);
      }
      uploadedNewUrls := b.outcome.urls;
    }
    AllUploadedWritesFreshObjects(files, ids, replies, storage);
    var finalImageUrls := FinalImageUrls(OrNone(service.imageUrls), sub.urlsToRemove, uploadedNewUrls);
    FinalImageUrlsSpec(OrNone(service.imageUrls), sub.urlsToRemove, uploadedNewUrls);
    var updatedData := ServiceDataOf(sub.data, sub.details, finalImageUrls);
    match update {
      case WriteFailed(_, updateMessage) =>
        var after := b.storage;
        if |uploadedNewUrls| > 0 {
          after := DeleteAll(uploadedNewUrls, b.storage, rollbackErrors);
          DeleteAllRemoves(uploadedNewUrls, b.storage, rollbackErrors);
          RemovedSetWithin(uploadedNewUrls, PathsFor(files, ids), rollbackErrors);
          if rollbackErrors == NoErrors(|files|) {
            UploadAllThenDeleteAll(files, ids, replies, storage);
          }
        }
        var message := EDIT_SERVICE_PREFIX + updateMessage;
        StartsWithConcat(EDIT_SERVICE_PREFIX, updateMessage);
        o := Outcome(Some(updatedData), None, Some(message), ServiceUpdateSettles(errorAtRender), after);
      case Wrote(row) =>
        var after := b.storage;
        if |sub.urlsToRemove| > 0 {
          after := DeleteAll(sub.urlsToRemove, b.storage, cleanupErrors);
        }
        DeleteAllRemoves(sub.urlsToRemove, b.storage, cleanupErrors);
        var current := OrNone(service.imageUrls);
        if AllPublished(current, storage) && forall r :: r in sub.urlsToRemove ==> r in current {
          EditKeepsWrittenImages(current, sub.urlsToRemove, finalImageUrls, files, ids, replies, cleanupErrors, storage);
        }
        o := Outcome(Some(updatedData), Some(row), None, ServiceUpdateSettles(errorAtRender), after);
    }
  }

  /** The settling the handler evidently means (the other modals rethrow the
      friendly error): reject with this run's error, resolve when it has
      none. */
  function ServiceUpdateSettlesIntended(reported: Option<string>): (r: Settled)
    ensures r.Rejected? <==> reported.Some?
    ensures r.Rejected? ==> r.message == reported.value
  {
    if reported.Some? then Rejected(reported.value) else Resolved
  }

  /** As written, the promise disagrees with the run it belongs to: a first
      failed update resolves, and the next update rejects with the old
      message even when it succeeds. */
  lemma StaleErrorCounterexample(reported: string)
    requires reported != ""
    ensures ServiceUpdateSettles(None) == Resolved && ServiceUpdateSettlesIntended(Some(reported)) == Rejected(reported)
    ensures ServiceUpdateSettles(Some(reported)) == Rejected(reported) && ServiceUpdateSettlesIntended(None) == Resolved
  {
  }

  /** handleUpdateService with the friendly error rethrown: the same run, whose
      promise now rejects exactly when the update did not go through, with
      that run's message. */
  method HandleUpdateServiceRethrowing(
    service: ServiceRow, sub: ServiceSubmission, ids: seq<string>, replies: seq<StorageReply>,
    update: WriteReply<ServiceRow>, rollbackErrors: seq<Option<string>>, cleanupErrors: seq<Option<string>>,
    storage: set<string>)
    returns (o: Outcome<ServiceData, ServiceRow>)
    requires |ids| == |sub.imageFiles| && |replies| == |sub.imageFiles| && |rollbackErrors| == |sub.imageFiles|
    requires |cleanupErrors| == |sub.urlsToRemove|
    ensures o.settled.Resolved? <==> o.delivered.Some?
    ensures o.delivered.Some? <==> o.sent.Some? && update.Wrote?
    ensures o.settled.Rejected? ==> o.reported == Some(o.settled.message) && StartsWith(o.settled.message, EDIT_SERVICE_PREFIX)
    ensures o.sent.Some? && update.WriteFailed? ==> o.settled == Rejected(EDIT_SERVICE_PREFIX + update.message)
    ensures (o.settled.Resolved? && AllPublished(OrNone(service.imageUrls), storage) &&
       (forall r :: r in sub.urlsToRemove ==> r in OrNone(service.imageUrls))) ==>
      AllPublished(o.sent.value.imageUrls, o.storage)
  {
    o := HandleUpdateService(service, sub, ids, replies, update, rollbackErrors, cleanupErrors, None, storage);
    o := o.(settled := ServiceUpdateSettlesIntended(o.reported));
  }

  /** The modal's `error` state across submits: each run reads the value the
      previous run stored, and stores its own. */
  class EditServiceModal {
    var error: Option<string>

    constructor()
      ensures error.None?
    {
      error := None;
    }

    method UpdateService(
      service: ServiceRow, sub: ServiceSubmission, ids: seq<string>, replies: seq<StorageReply>,
      update: WriteReply<ServiceRow>, rollbackErrors: seq<Option<string>>, cleanupErrors: seq<Option<string>>,
      storage: set<string>)
      returns (o: Outcome<ServiceData, ServiceRow>)
      requires |ids| == |sub.imageFiles| && |replies| == |sub.imageFiles| && |rollbackErrors| == |sub.imageFiles|
      requires |cleanupErrors| == |sub.urlsToRemove|
      modifies this
      ensures o.settled == ServiceUpdateSettles(old(error))
      ensures error == o.reported && (error.None? <==> o.delivered.Some?)
    {
      o := HandleUpdateService(service, sub, ids, replies, update, rollbackErrors, cleanupErrors, error, storage);
      error := o.reported;
    }
  }
}
