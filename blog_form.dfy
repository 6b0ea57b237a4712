/** The blog entry form (src/components/admin/BlogForm.js): the fields, the
    paragraph list, the image list with its pending files, and the submit
    sequence that hands the entry to the add or edit handler. */
module BlogFormModel {
  import opened Common
  import opened ImageRules
  import opened Records

  const TITLE_REQUIRED: string := "El título del blog es obligatorio."
  const DATE_REQUIRED: string := "La fecha del blog es obligatoria."
  const CATEGORY_REQUIRED: string := "La categoría del blog es obligatoria."
  const INFO_REQUIRED: string := "Añade al menos un párrafo de información."
  const IMAGE_REQUIRED: string := "Añade al menos una imagen."
  const BLOG_SAVE_FAILED: string := "Ocurrió un error al guardar el blog."

  /** The inputs handleChange writes, by their `name` attribute. */
  datatype BlogField = Title | Excerpt | Date | Category

  /** The `formData` state object: the entry's text fields. */
  datatype BlogFields = BlogFields(title: string, excerpt: string, date: string, category: string)

  const EMPTY_FIELDS: BlogFields := BlogFields("", "", "", "")

  /** The fields of a stored entry, each `|| ''`. */
  function FieldsOf(row: BlogRow): (d: BlogFields)
    ensures d.excerpt == OrEmpty(row.excerpt)
    ensures d.title == row.title && d.date == row.date && d.category == row.category
  {
    BlogFields(row.title, OrEmpty(row.excerpt), row.date, row.category)
  }

  /** What the form hands to the add or edit handler: `{...formData, info}`,
      the pending files and the stored images to drop. */
  datatype BlogSubmission = BlogSubmission(
    data: BlogFields, info: seq<string>, imageFiles: seq<File>, urlsToRemove: seq<string>)

  /** The submit checks, in their order; the first that fails gives the
      message. A field is blank (`!x.trim()`) when it is all whitespace, which
      BlogValidationErrorSpec ties back to Trim. */
  function BlogValidationError(title: string, date: string, category: string, infoCount: nat, previewCount: nat): (r: Option<string>)
    ensures r.None? <==>
      !AllWhitespace(title) && date != "" && !AllWhitespace(category) && infoCount > 0 && previewCount > 0
    ensures r.Some? ==> r.value in [TITLE_REQUIRED, DATE_REQUIRED, CATEGORY_REQUIRED, INFO_REQUIRED, IMAGE_REQUIRED]
  {
    if AllWhitespace(title) then Some(TITLE_REQUIRED)
    else if date == "" then Some(DATE_REQUIRED)
    else if AllWhitespace(category) then Some(CATEGORY_REQUIRED)
    else if infoCount == 0 then Some(INFO_REQUIRED)
    else if previewCount == 0 then Some(IMAGE_REQUIRED)
    else None
  }

  /** Stated with String.prototype.trim: an entry passes exactly when its
      title and category trim to something, its date is set, and it has a
      paragraph and an image; a blank title is reported before anything else,
      a missing date before the rest, and a blank category before the counts. */
  lemma BlogValidationErrorSpec(title: string, date: string, category: string, infoCount: nat, previewCount: nat)
    ensures var r := BlogValidationError(title, date, category, infoCount, previewCount);
      r.None? <==> Trim(title) != "" && date != "" && Trim(category) != "" && infoCount > 0 && previewCount > 0
    ensures var r := BlogValidationError(title, date, category, infoCount, previewCount);
      r == Some(TITLE_REQUIRED) <==> Trim(title) == ""
    ensures var r := BlogValidationError(title, date, category, infoCount, previewCount);
      r == Some(DATE_REQUIRED) <==> Trim(title) != "" && date == ""
    ensures var r := BlogValidationError(title, date, category, infoCount, previewCount);
      r == Some(CATEGORY_REQUIRED) <==> Trim(title) != "" && date != "" && Trim(category) == ""
    ensures var r := BlogValidationError(title, date, category, infoCount, previewCount);
      r == Some(INFO_REQUIRED) <==> Trim(title) != "" && date != "" && Trim(category) != "" && infoCount == 0
  {
    TrimEmptyIff(title);
    TrimEmptyIff(category);
  }

  class BlogForm {
    var formData: BlogFields
    var info: seq<string>
    /** The paragraph being typed (`currentInfoItem`). */
    var currentInfoItem: string
    var imageFiles: seq<File>
    var imagePreviews: seq<Preview>
    var originalImageUrls: seq<string>
    var keptImageUrls: seq<string>
    var imageError: string
    var formError: string
    /** Whether the form was given an entry to edit (`initialData`). */
    var editing: bool
    /** The number the next object URL gets. */
    var nextBlobId: nat

    /** The previews are the retained stored images followed by one preview
        per pending file, at most three, and every retained image is one of the
        entry's stored images. */
    predicate Valid()
      reads this
    {
      PreviewsMatch(imagePreviews, keptImageUrls, |imageFiles|, nextBlobId) &&
      forall u :: u in keptImageUrls ==> u in originalImageUrls
    }

    constructor()
      ensures Valid() && !editing
      ensures formData == EMPTY_FIELDS && info == [] && currentInfoItem == ""
      ensures imageFiles == [] && imagePreviews == [] && originalImageUrls == [] && keptImageUrls == []
      ensures imageError == "" && formError == ""
    {
      formData, info, currentInfoItem := EMPTY_FIELDS, [], "";
      imageFiles, imagePreviews, originalImageUrls, keptImageUrls := [], [], [], [];
      imageError, formError := "", "";
      editing := false;
      nextBlobId := 0;
    }

    /** Empty the fields, the paragraphs and the image lists. */
    method Clear()
      modifies this
      ensures Valid()
      ensures formData == EMPTY_FIELDS && info == [] && currentInfoItem == ""
      ensures imageFiles == [] && imagePreviews == [] && originalImageUrls == [] && keptImageUrls == []
      ensures imageError == old(imageError) && formError == old(formError)
      ensures editing == old(editing) && nextBlobId == old(nextBlobId)
    {
      formData, info, currentInfoItem := EMPTY_FIELDS, [], "";
      imageFiles, imagePreviews, originalImageUrls, keptImageUrls := [], [], [], [];
    }

    /** Copy a stored entry into the form: its images become the retained
        previews and no file is pending. */
    method Load(row: BlogRow)
      modifies this
      ensures formData == FieldsOf(row) && info == OrNone(row.info) && currentInfoItem == ""
      ensures var urls := OrNone(row.imageUrls);
        imagePreviews == ExistingPreviews(urls) && originalImageUrls == urls && keptImageUrls == urls
      ensures imageFiles == []
      ensures imageError == old(imageError) && formError == old(formError)
      ensures editing == old(editing) && nextBlobId == old(nextBlobId)
      ensures Distinct(OrNone(row.imageUrls)) && |OrNone(row.imageUrls)| <= MAX_IMAGES ==> Valid()
    {
      var urls := OrNone(row.imageUrls);
      if Distinct(urls) && |urls| <= MAX_IMAGES {
        ExistingShape(urls, nextBlobId);
      }
      formData, info, currentInfoItem := FieldsOf(row), OrNone(row.info), "";
      imageFiles, imagePreviews, originalImageUrls, keptImageUrls := [], ExistingPreviews(urls), urls, urls;
    }

    /** The effect that runs when `initialData` changes: copy the entry into
        the form, or clear the form; both errors are cleared. A stored entry
        whose image list repeats a URL or holds more than three is outside the
        shape the form keeps. */
    method Prefill(initial: Option<BlogRow>)
      modifies this
      ensures editing == initial.Some?
      ensures initial.Some? ==>
        var row := initial.value;
        var urls := OrNone(row.imageUrls);
        formData == FieldsOf(row) && info == OrNone(row.info) &&
        imagePreviews == ExistingPreviews(urls) && originalImageUrls == urls && keptImageUrls == urls
      ensures initial.None? ==>
        formData == EMPTY_FIELDS && info == [] &&
        imagePreviews == [] && originalImageUrls == [] && keptImageUrls == []
      ensures imageFiles == [] && currentInfoItem == "" && imageError == "" && formError == ""
      ensures nextBlobId == old(nextBlobId)
      ensures (initial.None? || (Distinct(OrNone(initial.value.imageUrls)) && |OrNone(initial.value.imageUrls)| <= MAX_IMAGES))
        ==> Valid()
    {
      if initial.Some? {
        Load(initial.value);
      } else {
        Clear();
      }
      editing := initial.Some?;
      imageError, formError := "", "";
    }

    /** handleChange: one field takes the typed value and the form error is
        cleared. */
    method Change(field: BlogField, value: string)
      requires Valid()
      modifies this
      ensures Valid()
      ensures formData.title == (if field == Title then value else old(formData.title))
      ensures formData.excerpt == (if field == Excerpt then value else old(formData.excerpt))
      ensures formData.date == (if field == Date then value else old(formData.date))
      ensures formData.category == (if field == Category then value else old(formData.category))
      ensures formError == ""
      ensures info == old(info) && imageFiles == old(imageFiles) && imagePreviews == old(imagePreviews)
      ensures keptImageUrls == old(keptImageUrls) && originalImageUrls == old(originalImageUrls)
      ensures imageError == old(imageError) && currentInfoItem == old(currentInfoItem) && editing == old(editing)
    {
      formData := match field
        case Title => formData.(title := value)
        case Excerpt => formData.(excerpt := value)
        case Date => formData.(date := value)
        case Category => formData.(category := value);
      formError := "";
    }

    /** handleInfoChange. */
    method ChangeInfoItem(value: string)
      requires Valid()
      modifies this
      ensures Valid() && currentInfoItem == value
      ensures formData == old(formData) && info == old(info) && imageFiles == old(imageFiles)
      ensures imagePreviews == old(imagePreviews) && keptImageUrls == old(keptImageUrls)
      ensures formError == old(formError) && imageError == old(imageError)
    {
      currentInfoItem := value;
    }

    /** handleAddInfoItem: append the trimmed paragraph when it is not blank,
        and then clear the input. */
    method AddInfoItem()
      requires Valid()
      modifies this
      ensures Valid()
      ensures info == WithDraft(old(info), old(currentInfoItem))
      ensures currentInfoItem == (if AllWhitespace(old(currentInfoItem)) then old(currentInfoItem) else "")
      ensures formData == old(formData) && imageFiles == old(imageFiles) && imagePreviews == old(imagePreviews)
      ensures keptImageUrls == old(keptImageUrls) && formError == old(formError) && imageError == old(imageError)
    {
      TrimEmptyIff(currentInfoItem);
      if Trim(currentInfoItem) != "" {
        info := info + [Trim(currentInfoItem)];
        currentInfoItem := "";
      }
    }

    /** handleRemoveInfoItem: drop the paragraph at that position (nothing
        when there is none). */
    method RemoveInfoItem(index: int)
      requires Valid()
      modifies this
      ensures Valid()
      ensures info == RemoveAt(old(info), index)
      ensures formData == old(formData) && currentInfoItem == old(currentInfoItem)
      ensures imageFiles == old(imageFiles) && imagePreviews == old(imagePreviews)
      ensures keptImageUrls == old(keptImageUrls) && formError == old(formError) && imageError == old(imageError)
    {
      info := RemoveAt(info, index);
    }

    /** handleFileChange: the image state becomes what AddBatchResult gives. */
    method HandleFileChange(batch: seq<File>)
      requires Valid()
      modifies this
      ensures Valid()
      ensures keptImageUrls == old(keptImageUrls) && originalImageUrls == old(originalImageUrls)
      ensures info == old(info) && formData == old(formData) && formError == old(formError) && editing == old(editing)
      ensures var r := AddBatchResult(old(imageFiles), old(imagePreviews), old(nextBlobId), batch);
        imageError == r.imageError && imageFiles == r.files && imagePreviews == r.previews && nextBlobId == r.nextBlobId
    {
      AddBatchKeepsShape(imageFiles, imagePreviews, keptImageUrls, nextBlobId, batch);
      var r := AddBatch(imageFiles, imagePreviews, nextBlobId, batch);
      imageError, imageFiles, imagePreviews, nextBlobId := r.imageError, r.files, r.previews, r.nextBlobId;
    }

    /** handleRemoveImage: drop the preview, and with it either the retained
        stored image or the pending file it shows. */
    method RemoveImage(index: int)
      requires Valid() && 0 <= index < |imagePreviews|
      modifies this
      ensures Valid()
      ensures imagePreviews == RemoveAt(old(imagePreviews), index) && imageError == ""
      ensures index < |old(keptImageUrls)| ==>
        keptImageUrls == RemoveAt(old(keptImageUrls), index) && imageFiles == old(imageFiles)
      ensures index >= |old(keptImageUrls)| ==>
        keptImageUrls == old(keptImageUrls) && imageFiles == RemoveAt(old(imageFiles), index - |old(keptImageUrls)|)
      ensures originalImageUrls == old(originalImageUrls) && info == old(info)
      ensures formData == old(formData) && formError == old(formError)
    {
      var current := imagePreviews;
      var removed := current[index];
      KeptDistinct(imagePreviews, keptImageUrls, |imageFiles|, nextBlobId);
      imagePreviews := RemoveAt(imagePreviews, index);
      if removed.Existing? && removed.url in originalImageUrls {
        assert index < |keptImageUrls|;
        DistinctOccursOnce(keptImageUrls, index);
        RemoveAllSingle(keptImageUrls, index);
        RemoveExistingKeepsShape(current, keptImageUrls, |imageFiles|, nextBlobId, index);
        keptImageUrls := RemoveAll(keptImageUrls, removed.url);
        forall u | u in keptImageUrls ensures u in originalImageUrls {
          assert u in old(keptImageUrls);
        }
      } else {
        assert index >= |keptImageUrls|;
        var blobIndex := IndexOf(BlobsOf(current), removed);
        BlobIndexIsFileIndex(current, keptImageUrls, |imageFiles|, nextBlobId, index);
        RemoveBlobKeepsShape(current, keptImageUrls, |imageFiles|, nextBlobId, index);
        if blobIndex != -1 {
          imageFiles := RemoveAt(imageFiles, blobIndex);
        }
      }
      imageError := "";
    }

    /** handleSubmit, with the add or edit handler's outcome given. Returns
        what was handed to that handler, or None when a check stopped the
        submit. */
    method Submit(reply: Settled) returns (sent: Option<BlogSubmission>)
      requires Valid()
      modifies this
      ensures Valid() && editing == old(editing)
      ensures var err := BlogValidationError(old(formData.title), old(formData.date), old(formData.category), |old(info)|, |old(imagePreviews)|);
        err.Some? ==>
          sent.None? && formError == err.value && imageError == "" &&
          formData == old(formData) && info == old(info) && imageFiles == old(imageFiles) &&
          imagePreviews == old(imagePreviews) && keptImageUrls == old(keptImageUrls)
      ensures BlogValidationError(old(formData.title), old(formData.date), old(formData.category), |old(info)|, |old(imagePreviews)|).None? ==>
        sent == Some(BlogSubmission(old(formData), old(info), old(imageFiles),
                                    UrlsToRemove(old(originalImageUrls), old(keptImageUrls))))
      ensures sent.Some? && reply.Resolved? && !old(editing) ==>
        formData == EMPTY_FIELDS && info == [] && currentInfoItem == "" &&
        imageFiles == [] && imagePreviews == [] && originalImageUrls == [] && keptImageUrls == [] &&
        formError == "" && imageError == ""
      ensures sent.Some? && (reply.Rejected? || old(editing)) ==>
        formData == old(formData) && info == old(info) && imageFiles == old(imageFiles) &&
        imagePreviews == old(imagePreviews) && keptImageUrls == old(keptImageUrls) &&
        originalImageUrls == old(originalImageUrls) && imageError == ""
      ensures sent.Some? && reply.Rejected? ==> formError == RejectionText(reply.message, BLOG_SAVE_FAILED)
      ensures sent.Some? && reply.Resolved? ==> formError == ""
    {
      formError, imageError := "", "";
      var err := BlogValidationError(formData.title, formData.date, formData.category, |info|, |imagePreviews|);
      if err.Some? {
        formError := err.value;
        return None;
      }
      sent := Some(BlogSubmission(formData, info, imageFiles, UrlsToRemove(originalImageUrls, keptImageUrls)));
      match reply {
        case Resolved =>
          if !editing {
            Clear();
          }
        case Rejected(message) =>
          formError := RejectionText(message, BLOG_SAVE_FAILED);
      }
    }
  }
}
