/** The service form (src/components/admin/ServicesForm.js): the fields, the
    list of details (protocols), the image list with its pending files, and
    the submit sequence that hands the service to the add or edit handler. */
module ServicesFormModel {
  import opened Common
  import opened ImageRules
  import opened Records

  const NAME_REQUIRED: string := "Por favor, completa el nombre del servicio."
  const DETAIL_REQUIRED: string := "Por favor, añade al menos un detalle o protocolo."
  const SERVICE_IMAGE_REQUIRED: string := "Por favor, añade al menos una imagen."
  const SERVICE_SAVE_FAILED: string := "Ocurrió un error al guardar."

  /** The text inputs handleChange writes, by their `name` attribute; the
      `is_featured` checkbox is the one input that writes its `checked`. */
  datatype ServiceTextField = NameService | Description | ShortDescription

  /** The `formData` state object. */
  datatype ServiceFields = ServiceFields(
    nameService: string, description: string, shortDescription: string, isFeatured: bool)

  const EMPTY_SERVICE: ServiceFields := ServiceFields("", "", "", false)

  /** The fields of a stored service, each `|| ''` (and `|| false`). */
  function ServiceFieldsOf(row: ServiceRow): (d: ServiceFields)
    ensures d.nameService == row.nameService && d.isFeatured == row.isFeatured
    ensures d.description == OrEmpty(row.description) && d.shortDescription == OrEmpty(row.shortDescription)
  {
    ServiceFields(row.nameService, OrEmpty(row.description), OrEmpty(row.shortDescription), row.isFeatured)
  }

  /** What the form hands to the add or edit handler: `{...formData, details}`,
      the pending files and the stored images to drop. */
  datatype ServiceSubmission = ServiceSubmission(
    data: ServiceFields, details: seq<string>, imageFiles: seq<File>, urlsToRemove: seq<string>)

  /** The submit checks, in their order. The name is checked as typed: a name
      of spaces passes. */
  function ServiceValidationError(nameService: string, detailCount: nat, previewCount: nat): (r: Option<string>)
    ensures r.None? <==> nameService != "" && detailCount > 0 && previewCount > 0
    ensures r == Some(NAME_REQUIRED) <==> nameService == ""
    ensures r == Some(DETAIL_REQUIRED) <==> nameService != "" && detailCount == 0
  {
    if nameService == "" then Some(NAME_REQUIRED)
    else if detailCount == 0 then Some(DETAIL_REQUIRED)
    else if previewCount == 0 then Some(SERVICE_IMAGE_REQUIRED)
    else None
  }

  /** `initialData?.image_urls?.filter(url => !existingImageUrls.includes(url)) || []`. */
  function ServiceUrlsToRemove(initial: Option<ServiceRow>, existing: seq<string>): (r: seq<string>)
    ensures initial.None? ==> r == []
    ensures initial.Some? ==> r == UrlsToRemove(OrNone(initial.value.imageUrls), existing)
  {
    if initial.Some? then UrlsToRemove(OrNone(initial.value.imageUrls), existing) else []
  }

  class ServicesForm {
    var formData: ServiceFields
    var details: seq<string>
    /** The detail being typed (`currentDetail`). */
    var currentDetail: string
    var imageFiles: seq<File>
    var imagePreviews: seq<Preview>
    /** The stored images still shown (`existingImageUrls`). */
    var existingImageUrls: seq<string>
    var imageError: string
    var formError: string
    /** The service being edited (`initialData`), if any. */
    var initialData: Option<ServiceRow>
    /** The number the next object URL gets. */
    var nextBlobId: nat

    /** The previews are the shown stored images followed by one preview per
        pending file, at most three. */
    predicate Valid()
      reads this
    {
      PreviewsMatch(imagePreviews, existingImageUrls, |imageFiles|, nextBlobId)
    }

    constructor()
      ensures Valid() && initialData.None?
      ensures formData == EMPTY_SERVICE && details == [] && currentDetail == ""
      ensures imageFiles == [] && imagePreviews == [] && existingImageUrls == []
      ensures imageError == "" && formError == ""
    {
      formData, details, currentDetail := EMPTY_SERVICE, [], "";
      imageFiles, imagePreviews, existingImageUrls := [], [], [];
      imageError, formError := "", "";
      initialData := None;
      nextBlobId := 0;
    }

    /** Empty the fields, the details and the image lists. */
    method Clear()
      modifies this
      ensures Valid()
      ensures formData == EMPTY_SERVICE && details == [] && currentDetail == ""
      ensures imageFiles == [] && imagePreviews == [] && existingImageUrls == []
      ensures imageError == old(imageError) && formError == old(formError)
      ensures initialData == old(initialData) && nextBlobId == old(nextBlobId)
    {
      formData, details, currentDetail := EMPTY_SERVICE, [], "";
      imageFiles, imagePreviews, existingImageUrls := [], [], [];
    }

    /** Copy a stored service into the form. */
    method Load(row: ServiceRow)
      modifies this
      ensures formData == ServiceFieldsOf(row) && details == OrNone(row.details) && currentDetail == ""
      ensures imagePreviews == ExistingPreviews(OrNone(row.imageUrls)) && existingImageUrls == OrNone(row.imageUrls)
      ensures imageFiles == []
      ensures imageError == old(imageError) && formError == old(formError)
      ensures initialData == old(initialData) && nextBlobId == old(nextBlobId)
      ensures Distinct(OrNone(row.imageUrls)) && |OrNone(row.imageUrls)| <= MAX_IMAGES ==> Valid()
    {
      var urls := OrNone(row.imageUrls);
      if Distinct(urls) && |urls| <= MAX_IMAGES {
        ExistingShape(urls, nextBlobId);
      }
      formData, details, currentDetail := ServiceFieldsOf(row), OrNone(row.details), "";
      imageFiles, imagePreviews, existingImageUrls := [], ExistingPreviews(urls), urls;
    }

    /** The effect that runs when `initialData` changes. A stored service
        whose image list repeats a URL or holds more than three is outside the
        shape the form keeps. */
    method Prefill(initial: Option<ServiceRow>)
      modifies this
      ensures initialData == initial
      ensures initial.Some? ==>
        formData == ServiceFieldsOf(initial.value) && details == OrNone(initial.value.details) &&
        existingImageUrls == OrNone(initial.value.imageUrls) &&
        imagePreviews == ExistingPreviews(OrNone(initial.value.imageUrls))
      ensures initial.None? ==>
        formData == EMPTY_SERVICE && details == [] && imagePreviews == [] && existingImageUrls == []
      ensures imageFiles == [] && currentDetail == "" && imageError == "" && formError == ""
      ensures nextBlobId == old(nextBlobId)
      ensures (initial.None? || (Distinct(OrNone(initial.value.imageUrls)) && |OrNone(initial.value.imageUrls)| <= MAX_IMAGES))
        ==> Valid()
    {
      if initial.Some? {
        Load(initial.value);
      } else {
        Clear();
      }
      initialData := initial;
      imageError, formError := "", "";
    }

    /** handleChange on a text input. */
    method ChangeText(field: ServiceTextField, value: string)
      requires Valid()
      modifies this
      ensures Valid()
      ensures formData.nameService == (if field == NameService then value else old(formData.nameService))
      ensures formData.description == (if field == Description then value else old(formData.description))
      ensures formData.shortDescription == (if field == ShortDescription then value else old(formData.shortDescription))
      ensures formData.isFeatured == old(formData.isFeatured) && formError == ""
      ensures details == old(details) && imageFiles == old(imageFiles) && imagePreviews == old(imagePreviews)
      ensures existingImageUrls == old(existingImageUrls) && imageError == old(imageError)
    {
      formData := match field
        case NameService => formData.(nameService := value)
        case Description => formData.(description := value)
        case ShortDescription => formData.(shortDescription := value);
      formError := "";
    }

    /** handleChange on the `is_featured` checkbox. */
    method ChangeFeatured(checked: bool)
      requires Valid()
      modifies this
      ensures Valid()
      ensures formData == old(formData).(isFeatured := checked) && formError == ""
      ensures details == old(details) && imageFiles == old(imageFiles) && imagePreviews == old(imagePreviews)
      ensures existingImageUrls == old(existingImageUrls) && imageError == old(imageError)
    {
      formData := formData.(isFeatured := checked);
      formError := "";
    }

    /** handleDetailChange. */
    method ChangeDetail(value: string)
      requires Valid()
      modifies this
      ensures Valid() && currentDetail == value
      ensures formData == old(formData) && details == old(details) && imageFiles == old(imageFiles)
      ensures imagePreviews == old(imagePreviews) && existingImageUrls == old(existingImageUrls)
      ensures formError == old(formError) && imageError == old(imageError)
    {
      currentDetail := value;
    }

    /** handleAddDetail: append the trimmed detail when it is not blank, and
        then clear the input. */
    method AddDetail()
      requires Valid()
      modifies this
      ensures Valid()
      ensures details == WithDraft(old(details), old(currentDetail))
      ensures currentDetail == (if AllWhitespace(old(currentDetail)) then old(currentDetail) else "")
      ensures formData == old(formData) && imageFiles == old(imageFiles) && imagePreviews == old(imagePreviews)
      ensures existingImageUrls == old(existingImageUrls) && formError == old(formError) && imageError == old(imageError)
    {
      TrimEmptyIff(currentDetail);
      if Trim(currentDetail) != "" {
        details := details + [Trim(currentDetail)];
        currentDetail := "";
      }
    }

    /** handleRemoveDetail: drop the detail at that position (nothing when
        there is none). */
    method RemoveDetail(index: int)
      requires Valid()
      modifies this
      ensures Valid()
      ensures details == RemoveAt(old(details), index)
      ensures formData == old(formData) && currentDetail == old(currentDetail)
      ensures imageFiles == old(imageFiles) && imagePreviews == old(imagePreviews)
      ensures existingImageUrls == old(existingImageUrls) && formError == old(formError) && imageError == old(imageError)
    {
      details := RemoveAt(details, index);
    }

    /** handleFileChange: the image state becomes what AddBatchResult gives. */
    method HandleFileChange(batch: seq<File>)
      requires Valid()
      modifies this
      ensures Valid()
      ensures existingImageUrls == old(existingImageUrls) && details == old(details)
      ensures formData == old(formData) && formError == old(formError)
      ensures var r := AddBatchResult(old(imageFiles), old(imagePreviews), old(nextBlobId), batch);
        imageError == r.imageError && imageFiles == r.files && imagePreviews == r.previews && nextBlobId == r.nextBlobId
    {
      AddBatchKeepsShape(imageFiles, imagePreviews, existingImageUrls, nextBlobId, batch);
      var r := AddBatch(imageFiles, imagePreviews, nextBlobId, batch);
      imageError, imageFiles, imagePreviews, nextBlobId := r.imageError, r.files, r.previews, r.nextBlobId;
    }

    /** handleRemoveImage, called with `isExisting` as the render computes it
        (`existingImageUrls.includes(previewSrc)`): drop the preview, and with
        it either every copy of that stored URL or the pending file at
        `index - existingImageUrls.length`. The image error is left as it
        was. */
    method RemoveImage(index: int)
      requires Valid() && 0 <= index < |imagePreviews|
      modifies this
      ensures Valid()
      ensures imagePreviews == RemoveAt(old(imagePreviews), index)
      ensures index < |old(existingImageUrls)| ==>
        existingImageUrls == RemoveAt(old(existingImageUrls), index) && imageFiles == old(imageFiles)
      ensures index >= |old(existingImageUrls)| ==>
        existingImageUrls == old(existingImageUrls) &&
        imageFiles == RemoveAt(old(imageFiles), index - |old(existingImageUrls)|)
      ensures formData == old(formData) && details == old(details)
      ensures formError == old(formError) && imageError == old(imageError)
    {
      var current := imagePreviews;
      var removed := current[index];
      var isExisting := removed.Existing? && removed.url in existingImageUrls;
      KeptDistinct(current, existingImageUrls, |imageFiles|, nextBlobId);
      imagePreviews := RemoveAt(imagePreviews, index);
      if isExisting {
        assert index < |existingImageUrls|;
        DistinctOccursOnce(existingImageUrls, index);
        RemoveAllSingle(existingImageUrls, index);
        RemoveExistingKeepsShape(current, existingImageUrls, |imageFiles|, nextBlobId, index);
        existingImageUrls := RemoveAll(existingImageUrls, removed.url);
      } else {
        assert index >= |existingImageUrls|;
        RemoveBlobKeepsShape(current, existingImageUrls, |imageFiles|, nextBlobId, index);
        var fileIndex := index - |existingImageUrls|;
        if 0 <= fileIndex < |imageFiles| {
          imageFiles := RemoveAt(imageFiles, fileIndex);
        }
      }
    }

    /** handleSubmit, with the add or edit handler's outcome given. Returns
        what was handed to that handler, or None when a check stopped the
        submit. */
    method Submit(reply: Settled) returns (sent: Option<ServiceSubmission>)
      requires Valid()
      modifies this
      ensures Valid() && initialData == old(initialData)
      ensures var err := ServiceValidationError(old(formData.nameService), |old(details)|, |old(imagePreviews)|);
        err.Some? ==>
          sent.None? && formError == err.value && imageError == "" &&
          formData == old(formData) && details == old(details) && imageFiles == old(imageFiles) &&
          imagePreviews == old(imagePreviews) && existingImageUrls == old(existingImageUrls)
      ensures ServiceValidationError(old(formData.nameService), |old(details)|, |old(imagePreviews)|).None? ==>
        sent == Some(ServiceSubmission(old(formData), old(details), old(imageFiles),
                                       ServiceUrlsToRemove(old(initialData), old(existingImageUrls))))
      ensures sent.Some? && reply.Resolved? && old(initialData).None? ==>
        formData == EMPTY_SERVICE && details == [] && currentDetail == "" &&
        imageFiles == [] && imagePreviews == [] && existingImageUrls == []
      ensures sent.Some? && (reply.Rejected? || old(initialData).Some?) ==>
        formData == old(formData) && details == old(details) && imageFiles == old(imageFiles) &&
        imagePreviews == old(imagePreviews) && existingImageUrls == old(existingImageUrls)
      ensures sent.Some? && reply.Resolved? ==> formError == "" && imageError == ""
      ensures sent.Some? && reply.Rejected? ==>
        formError == RejectionText(reply.message, SERVICE_SAVE_FAILED) && imageError == ""
    {
      formError, imageError := "", "";
      var err := ServiceValidationError(formData.nameService, |details|, |imagePreviews|);
      if err.Some? {
        formError := err.value;
        return None;
      }
      sent := Some(ServiceSubmission(formData, details, imageFiles, ServiceUrlsToRemove(initialData, existingImageUrls)));
      match reply {
        case Resolved =>
          if initialData.None? {
            Clear();
          }
          formError, imageError := "", "";
        case Rejected(message) =>
          formError := RejectionText(message, SERVICE_SAVE_FAILED);
      }
    }
  }
}
