/** The product form (src/components/admin/ProductForm.js): the fields, one
    optional image file with its preview, and the submit sequence that hands
    the product to the add or edit handler. */
module ProductFormModel {
  import opened Common
  import opened ImageRules
  import opened Records

  const PRODUCT_REQUIRED: string := "Por favor, completa los campos obligatorios: Nombre, Precio y Stock."
  const PRODUCT_NEGATIVE: string := "El precio y el stock no pueden ser negativos."
  const PRODUCT_SAVE_FAILED: string := "Ocurrió un error al guardar."
  const PRODUCT_TOO_LARGE: string := "El archivo es demasiado grande. Máximo: 2MB"

  /** `Array.prototype.join` with a separator string. */
  function JoinWith(parts: seq<string>, sep: string): string
  {
    if |parts| == 0 then ""
    else if |parts| == 1 then parts[0]
    else parts[0] + sep + JoinWith(parts[1..], sep)
  }

  /** The message for a file whose type is not accepted: it lists the
      accepted types. */
  function TypeMessage(): string
  {
    "Tipo de archivo no permitido. Aceptados: " + JoinWith(ACCEPTED_IMAGE_TYPES, ", ")
  }

  /** The text inputs handleChange writes, by their `name` attribute; the
      `is_featured` checkbox writes its `checked`. */
  datatype ProductTextField = Name | Description | ShortDescription | Price | Category | Stock | Sku

  /** The `formData` state object; price and stock are held as the text
      typed into their inputs. */
  datatype ProductFields = ProductFields(
    name: string, description: string, shortDescription: string, price: string,
    category: string, stock: string, sku: string, isFeatured: bool, imageUrl: Option<string>)

  const EMPTY_PRODUCT: ProductFields := ProductFields("", "", "", "", "", "", "", false, None)

  /** `x || null` on a stored URL: an empty URL counts as none. */
  function StoredUrl(u: Option<string>): (r: Option<string>)
    ensures r.None? <==> u.None? || u.value == ""
    ensures r.Some? ==> r == u
  {
    if u.Some? && u.value != "" then u else None
  }

  /** The fields of a stored product: texts `|| ''`, numbers through their
      text, the image URL `|| null`. */
  function ProductFieldsOf(row: ProductRow): (d: ProductFields)
    ensures d.name == row.name && d.isFeatured == row.isFeatured && d.imageUrl == StoredUrl(row.imageUrl)
    ensures d.price == OrEmpty(row.price) && d.stock == OrEmpty(row.stock)
    ensures d.description == OrEmpty(row.description) && d.shortDescription == OrEmpty(row.shortDescription)
    ensures d.category == OrEmpty(row.category) && d.sku == OrEmpty(row.sku)
  {
    ProductFields(row.name, OrEmpty(row.description), OrEmpty(row.shortDescription), OrEmpty(row.price),
                  OrEmpty(row.category), OrEmpty(row.stock), OrEmpty(row.sku), row.isFeatured,
                  StoredUrl(row.imageUrl))
  }

  /** What the preview shows: the stored image, or the chosen file read as a
      data URL. */
  datatype ProductPreview = StoredImage(url: string) | FileData(file: File)

  /** The preview of the stored image (`setImagePreview(formData.image_url)`). */
  function StoredPreview(u: Option<string>): (p: Option<ProductPreview>)
    ensures p.None? <==> u.None?
    ensures p.Some? ==> p.value == StoredImage(u.value)
  {
    if u.Some? then Some(StoredImage(u.value)) else None
  }

  /** Why the one chosen file is refused, if it is: the type is checked
      before the size. */
  function ProductFileError(f: File): (r: Option<string>)
    ensures r.None? <==> FileProblemOf(f).None?
    ensures f.mimeType !in ACCEPTED_IMAGE_TYPES ==> r == Some(TypeMessage())
    ensures f.mimeType in ACCEPTED_IMAGE_TYPES && f.size > MAX_FILE_SIZE_BYTES ==> r == Some(PRODUCT_TOO_LARGE)
  {
    if f.mimeType !in ACCEPTED_IMAGE_TYPES then Some(TypeMessage())
    else if f.size > MAX_FILE_SIZE_BYTES then Some(PRODUCT_TOO_LARGE)
    else None
  }

  /** The submit checks. `parsedPrice` and `parsedStock` are what
      `parseFloat(price)` and `parseInt(stock, 10)` give, None for NaN; NaN is
      not below zero, so a price or stock that is not a number passes. */
  function ProductValidationError(d: ProductFields, parsedPrice: Option<real>, parsedStock: Option<int>): (r: Option<string>)
    ensures r == Some(PRODUCT_REQUIRED) <==> d.name == "" || d.price == "" || d.stock == ""
    ensures r == Some(PRODUCT_NEGATIVE) <==>
      d.name != "" && d.price != "" && d.stock != "" &&
      ((parsedPrice.Some? && parsedPrice.value < 0.0) || (parsedStock.Some? && parsedStock.value < 0))
    ensures r.None? || r == Some(PRODUCT_REQUIRED) || r == Some(PRODUCT_NEGATIVE)
  {
    if d.name == "" || d.price == "" || d.stock == "" then Some(PRODUCT_REQUIRED)
    else if (parsedPrice.Some? && parsedPrice.value < 0.0) || (parsedStock.Some? && parsedStock.value < 0) then
      Some(PRODUCT_NEGATIVE)
    else None
  }

  /** What the form hands to the add or edit handler: `formData` and the
      chosen file. */
  datatype ProductSubmission = ProductSubmission(data: ProductFields, imageFile: Option<File>)

  class ProductForm {
    var formData: ProductFields
    var imageFile: Option<File>
    var imagePreview: Option<ProductPreview>
    var imageError: string
    var formError: string
    /** Whether the form was given a product to edit (`initialData`). */
    var editing: bool

    /** The preview shows the chosen file, or else the stored image. */
    predicate Valid()
      reads this
    {
      imagePreview == (if imageFile.Some? then Some(FileData(imageFile.value)) else StoredPreview(formData.imageUrl))
    }

    constructor()
      ensures Valid() && !editing
      ensures formData == EMPTY_PRODUCT && imageFile.None? && imagePreview.None?
      ensures imageError == "" && formError == ""
    {
      formData, imageFile, imagePreview := EMPTY_PRODUCT, None, None;
      imageError, formError := "", "";
      editing := false;
    }

    /** The effect that runs when `initialData` changes. Copying a product in
        leaves the form error as it was; clearing the form clears it. */
    method Prefill(initial: Option<ProductRow>)
      modifies this
      ensures Valid() && editing == initial.Some?
      ensures initial.Some? ==>
        formData == ProductFieldsOf(initial.value) && formError == old(formError) &&
        imagePreview == StoredPreview(StoredUrl(initial.value.imageUrl))
      ensures initial.None? ==> formData == EMPTY_PRODUCT && formError == "" && imagePreview.None?
      ensures imageFile.None? && imageError == ""
    {
      if initial.Some? {
        formData := ProductFieldsOf(initial.value);
        imagePreview := StoredPreview(formData.imageUrl);
      } else {
        formData, imagePreview := EMPTY_PRODUCT, None;
        formError := "";
      }
      imageFile, imageError := None, "";
      editing := initial.Some?;
    }

    /** handleChange on a text input. */
    method ChangeText(field: ProductTextField, value: string)
      requires Valid()
      modifies this
      ensures Valid()
      ensures formData.name == (if field == Name then value else old(formData.name))
      ensures formData.description == (if field == Description then value else old(formData.description))
      ensures formData.shortDescription == (if field == ShortDescription then value else old(formData.shortDescription))
      ensures formData.price == (if field == Price then value else old(formData.price))
      ensures formData.category == (if field == Category then value else old(formData.category))
      ensures formData.stock == (if field == Stock then value else old(formData.stock))
      ensures formData.sku == (if field == Sku then value else old(formData.sku))
      ensures formData.isFeatured == old(formData.isFeatured) && formData.imageUrl == old(formData.imageUrl)
      ensures formError == "" && imageFile == old(imageFile) && imagePreview == old(imagePreview)
      ensures imageError == old(imageError) && editing == old(editing)
    {
      formData := match field
        case Name => formData.(name := value)
        case Description => formData.(description := value)
        case ShortDescription => formData.(shortDescription := value)
        case Price => formData.(price := value)
        case Category => formData.(category := value)
        case Stock => formData.(stock := value)
        case Sku => formData.(sku := value);
      formError := "";
    }

    /** handleChange on the `is_featured` checkbox. */
    method ChangeFeatured(checked: bool)
      requires Valid()
      modifies this
      ensures Valid()
      ensures formData == old(formData).(isFeatured := checked) && formError == ""
      ensures imageFile == old(imageFile) && imagePreview == old(imagePreview) && imageError == old(imageError)
    {
      formData := formData.(isFeatured := checked);
      formError := "";
    }

    /** handleFileChange with the first selected file, if any: the previous
        choice is dropped and the stored image shown again; an accepted file
        becomes the choice and its contents the preview. */
    method HandleFileChange(file: Option<File>)
      requires Valid()
      modifies this
      ensures Valid()
      ensures file.Some? && ProductFileError(file.value).None? ==>
        imageFile == file && imagePreview == Some(FileData(file.value)) && imageError == ""
      ensures file.Some? && ProductFileError(file.value).Some? ==>
        imageFile.None? && imageError == ProductFileError(file.value).value
      ensures file.None? ==> imageFile.None? && imageError == ""
      ensures imageFile.None? ==> imagePreview == StoredPreview(old(formData.imageUrl))
      ensures formData == old(formData) && formError == old(formError) && editing == old(editing)
    {
      imageError, imageFile, imagePreview := "", None, StoredPreview(formData.imageUrl);
      if file.Some? {
        var problem := ProductFileError(file.value);
        if problem.Some? {
          imageError := problem.value;
          return;
        }
        imageFile := file;
        // reader.onloadend: the preview becomes the file's data URL
        imagePreview := Some(FileData(file.value));
      }
    }

    /** handleSubmit, with the parsed price and stock and the add or edit
        handler's outcome given. */
    method Submit(parsedPrice: Option<real>, parsedStock: Option<int>, reply: Settled) returns (sent: Option<ProductSubmission>)
      requires Valid()
      modifies this
      ensures Valid() && editing == old(editing)
      ensures var err := ProductValidationError(old(formData), parsedPrice, parsedStock);
        err.Some? ==>
          sent.None? && formError == err.value && imageError == old(imageError) &&
          formData == old(formData) && imageFile == old(imageFile) && imagePreview == old(imagePreview)
      ensures ProductValidationError(old(formData), parsedPrice, parsedStock).None? ==>
        sent == Some(ProductSubmission(old(formData), old(imageFile)))
      ensures sent.Some? && reply.Resolved? && !old(editing) ==>
        formData == EMPTY_PRODUCT && imageFile.None? && imagePreview.None?
      ensures sent.Some? && (reply.Rejected? || old(editing)) ==>
        formData == old(formData) && imageFile == old(imageFile) && imagePreview == old(imagePreview)
      ensures sent.Some? && reply.Resolved? ==> formError == "" && imageError == ""
      ensures sent.Some? && reply.Rejected? ==>
        formError == RejectionText(reply.message, PRODUCT_SAVE_FAILED) && imageError == old(imageError)
    {
      formError := "";
      var err := ProductValidationError(formData, parsedPrice, parsedStock);
      if err.Some? {
        formError := err.value;
        return None;
      }
      sent := Some(ProductSubmission(formData, imageFile));
      match reply {
        case Resolved =>
          if !editing {
            formData, imageFile, imagePreview := EMPTY_PRODUCT, None, None;
          }
          imageError, formError := "", "";
        case Rejected(message) =>
          formError := RejectionText(message, PRODUCT_SAVE_FAILED);
      }
    }
  }
}
