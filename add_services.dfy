/** handleAddServices (src/components/admin/AddServices.js): the same sequence
    as the blog's add handler, for the `services` table. */
module AddServicesModel {
  import opened Common
  import opened StorageUtils
  import opened ImageBatch
  import opened ImageRules
  import opened Records
  import opened ServicesFormModel
  import opened Database

  const NO_SERVICE_IMAGES: string := "Se requieren imágenes para el nuevo servicio."
  const ADD_SERVICE_PREFIX: string := "Error al agregar el servicio: "

  /** The object written to the `services` table. */
  datatype ServiceData = ServiceData(
    nameService: string, description: Option<string>, shortDescription: Option<string>,
    details: seq<string>, imageUrls: seq<string>, isFeatured: bool)

  /** The payload built from the form's fields and the image list, the two
      descriptions `|| null`. */
  function ServiceDataOf(d: ServiceFields, details: seq<string>, imageUrls: seq<string>): ServiceData
  {
    ServiceData(d.nameService, EmptyToNull(d.description), EmptyToNull(d.shortDescription), details, imageUrls, d.isFeatured)
  }

  /** The friendly error: the prefix and the error's message, or the fallback
      text when it has none. */
  function AddServiceError(message: string): string
  {
    ADD_SERVICE_PREFIX + RejectionText(message, UNEXPECTED_ERROR)
  }

  /** handleAddServices(formData, imageFiles). The k-th upload uses id `ids[k]`
      and meets reply `replies[k]`; `insert` is the table's answer and
      `removeErrors[k]` the store's answer to the k-th compensating delete. */
  method HandleAddServices(
    sub: ServiceSubmission, ids: seq<string>, replies: seq<StorageReply>, insert: WriteReply<ServiceRow>,
    removeErrors: seq<Option<string>>, storage: set<string>)
    returns (o: Outcome<ServiceData, ServiceRow>)
    requires |ids| == |sub.imageFiles| && |replies| == |sub.imageFiles| && |removeErrors| == |sub.imageFiles|
    // no files: nothing is uploaded and nothing inserted
    ensures |sub.imageFiles| == 0 ==>
      o == Outcome(None, None, Some(ADD_SERVICE_PREFIX + NO_SERVICE_IMAGES), Rejected(ADD_SERVICE_PREFIX + NO_SERVICE_IMAGES), storage)
    // the insert is issued exactly when there are files and every upload succeeded
    ensures o.sent.Some? <==> |sub.imageFiles| > 0 && !SomeUploadFails(sub.imageFiles, ids, replies, storage)
    // the row carries the fields, the descriptions `|| null`, and one URL per file in file order
    ensures o.sent.Some? ==>
      var s := o.sent.value;
      s.nameService == sub.data.nameService && s.isFeatured == sub.data.isFeatured && s.details == sub.details &&
      (s.description.None? <==> sub.data.description == "") &&
      (s.shortDescription.None? <==> sub.data.shortDescription == "") &&
      |s.imageUrls| == |sub.imageFiles| &&
      forall k :: 0 <= k < |sub.imageFiles| ==> s.imageUrls[k] == PublicUrl(ObjectPathFor(ids[k], sub.imageFiles[k].name))
    // success: the page gets the inserted row; the bucket gains exactly the new objects
    ensures o.settled.Resolved? <==> o.sent.Some? && insert.Wrote?
    ensures o.settled.Resolved? ==>
      o.delivered == Some(insert.row) && o.reported.None? &&
      o.storage == storage + Elements(PathsFor(sub.imageFiles, ids)) && storage !! Elements(PathsFor(sub.imageFiles, ids))
    // every failure is rethrown with the prefix, and the page gets nothing
    ensures o.settled.Rejected? ==>
      o.delivered.None? && o.reported == Some(o.settled.message) && StartsWith(o.settled.message, ADD_SERVICE_PREFIX)
    // a failed upload: the insert's reply does not matter, earlier uploads stay in the bucket
    ensures |sub.imageFiles| > 0 && o.sent.None? ==>
      var b := UploadAll(sub.imageFiles, ids, replies, storage);
      b.outcome.BatchFailed? && o.settled == Rejected(AddServiceError(b.outcome.message)) && o.storage == b.storage
    // a failed insert: the compensating deletes touch only the new objects
    ensures o.sent.Some? && insert.WriteFailed? ==>
      o.settled == Rejected(AddServiceError(insert.message)) &&
      storage <= o.storage <= storage + Elements(PathsFor(sub.imageFiles, ids))
    // ... and when they all succeed the bucket is as it was
    ensures o.sent.Some? && insert.WriteFailed? && removeErrors == NoErrors(|sub.imageFiles|) ==> o.storage == storage
  {
    var files := sub.imageFiles;
    if |files| == 0 {
      var message := ADD_SERVICE_PREFIX + NO_SERVICE_IMAGES;
      StartsWithConcat(ADD_SERVICE_PREFIX, NO_SERVICE_IMAGES);
      return Outcome(None, None, Some(message), Rejected(message), storage);
    }
    var b := UploadAll(files, ids, replies, storage);
    UploadAllFailsIff(files, ids, replies, storage);
    if b.outcome.BatchFailed? {
      var message := AddServiceError(b.outcome.message);
      StartsWithConcat(ADD_SERVICE_PREFIX, RejectionText(b.outcome.message, UNEXPECTED_ERROR));
      return Outcome(None, None, Some(message), Rejected(message), b.storage);
    }
    var uploadedUrls := b.outcome.urls;
    AllUploadedWritesFreshObjects(files, ids, replies, storage);
    var servicesData := ServiceDataOf(sub.data, sub.details, uploadedUrls);
    match insert {
      case WriteFailed(_, insertMessage) =>
        var after := DeleteAll(uploadedUrls, b.storage, removeErrors);
        DeleteAllRemoves(uploadedUrls, b.storage, removeErrors);
        RemovedSetWithin(uploadedUrls, PathsFor(files, ids), removeErrors);
        if removeErrors == NoErrors(|files|) {
          UploadAllThenDeleteAll(files, ids, replies, storage);
        }
        var message := AddServiceError(insertMessage);
        StartsWithConcat(ADD_SERVICE_PREFIX, RejectionText(insertMessage, UNEXPECTED_ERROR));
        o := Outcome(Some(servicesData), None, Some(message), Rejected(message), after);
      case Wrote(row) =>
        o := Outcome(Some(servicesData), Some(row), None, Resolved, b.storage);
    }
  }
}
