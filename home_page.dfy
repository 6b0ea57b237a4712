/** The quote form of the home page (src/pages/Home.js): seven controlled
    fields and the terms box, a validity flag the form keeps in step with
    them, the service picker modal, and a send through the e-mail service
    that clears the form only when it succeeds. */
module HomePageModel {
  import opened Common

  const QUOTE_SERVICE_ID: string := "service_xr3qzsd"
  const QUOTE_TEMPLATE_ID: string := "template_iv54z3l"

  /** The form's `name` attributes. */
  datatype QuoteField = Nombre | Correo | Telefono | Provincia | Distrito | TipoServicio | Detalles

  datatype QuoteFields = QuoteFields(
    nombre: string, correo: string, telefono: string, provincia: string,
    distrito: string, tipoServicio: string, detalles: string)

  const EMPTY_QUOTE: QuoteFields := QuoteFields("", "", "", "", "", "", "")

  /** The validation effect: every field but `detalles` filled in, and the
      terms accepted. A field of spaces counts as filled. */
  predicate QuoteValid(d: QuoteFields, acceptedTerms: bool)
    ensures QuoteValid(d, acceptedTerms) <==>
      acceptedTerms && forall f :: f != Detalles ==> FieldValue(d, f) != ""
  {
    FieldValue(d, Nombre) != "" && FieldValue(d, Correo) != "" && FieldValue(d, Telefono) != "" &&
    FieldValue(d, Provincia) != "" && FieldValue(d, Distrito) != "" && FieldValue(d, TipoServicio) != "" &&
    acceptedTerms
  }

  function FieldValue(d: QuoteFields, field: QuoteField): string
  {
    match field
    case Nombre => d.nombre
    case Correo => d.correo
    case Telefono => d.telefono
    case Provincia => d.provincia
    case Distrito => d.distrito
    case TipoServicio => d.tipoServicio
    case Detalles => d.detalles
  }

  /** `{ ...prev, [name]: value }`. */
  function WithField(d: QuoteFields, field: QuoteField, value: string): (r: QuoteFields)
    ensures FieldValue(r, field) == value
    ensures forall f :: f != field ==> FieldValue(r, f) == FieldValue(d, f)
  {
    match field
    case Nombre => d.(nombre := value)
    case Correo => d.(correo := value)
    case Telefono => d.(telefono := value)
    case Provincia => d.(provincia := value)
    case Distrito => d.(distrito := value)
    case TipoServicio => d.(tipoServicio := value)
    case Detalles => d.(detalles := value)
  }

  /** Changing `detalles` never changes validity; emptying a required field
      always makes the form invalid. */
  lemma EditingFieldsAndValidity(d: QuoteFields, acceptedTerms: bool, field: QuoteField, value: string)
    ensures field == Detalles ==> (QuoteValid(WithField(d, field, value), acceptedTerms) <==> QuoteValid(d, acceptedTerms))
    ensures field != Detalles && value == "" ==> !QuoteValid(WithField(d, field, value), acceptedTerms)
  {
  }

  class HomePage {
    var formData: QuoteFields
    var acceptedTerms: bool
    var isFormValid: bool
    var isModalOpen: bool
    var selectedService: Option<string>

    /** The validation effect has caught up with the fields. */
    predicate Valid()
      reads this
    {
      isFormValid == QuoteValid(formData, acceptedTerms)
    }

    constructor()
      ensures Valid() && formData == EMPTY_QUOTE && !acceptedTerms && !isFormValid
      ensures !isModalOpen && selectedService.None?
    {
      formData, acceptedTerms, isFormValid := EMPTY_QUOTE, false, false;
      isModalOpen, selectedService := false, None;
    }

    /** handleInputChange: only the named field changes. */
    method HandleInputChange(field: QuoteField, value: string)
      modifies this
      ensures Valid() && formData == WithField(old(formData), field, value)
      ensures acceptedTerms == old(acceptedTerms)
      ensures isModalOpen == old(isModalOpen) && selectedService == old(selectedService)
    {
      formData := WithField(formData, field, value);
      isFormValid := QuoteValid(formData, acceptedTerms);
    }

    /** handleCheckboxChange. */
    method HandleCheckboxChange(checked: bool)
      modifies this
      ensures Valid() && acceptedTerms == checked && formData == old(formData)
      ensures isModalOpen == old(isModalOpen) && selectedService == old(selectedService)
    {
      acceptedTerms := checked;
      isFormValid := QuoteValid(formData, acceptedTerms);
    }

    /** The effect on the navigation state: a service named there fills in
        `tipoServicio` and nothing else. */
    method PrefillFromNavigation(serviceFromState: Option<string>)
      modifies this
      ensures Valid() && acceptedTerms == old(acceptedTerms)
      ensures Truthy(serviceFromState) ==> formData == old(formData).(tipoServicio := serviceFromState.value)
      ensures !Truthy(serviceFromState) ==> formData == old(formData)
      ensures isModalOpen == old(isModalOpen) && selectedService == old(selectedService)
    {
      if Truthy(serviceFromState) {
        formData := formData.(tipoServicio := serviceFromState.value);
      }
      isFormValid := QuoteValid(formData, acceptedTerms);
    }

    method OpenModal(service: string)
      modifies this
      ensures isModalOpen && selectedService == Some(service)
      ensures formData == old(formData) && acceptedTerms == old(acceptedTerms) && isFormValid == old(isFormValid)
    {
      selectedService, isModalOpen := Some(service), true;
    }

    method CloseModal()
      modifies this
      ensures !isModalOpen && selectedService.None?
      ensures formData == old(formData) && acceptedTerms == old(acceptedTerms) && isFormValid == old(isFormValid)
    {
      isModalOpen, selectedService := false, None;
    }

    /** handleSelectServiceFromModal: the chosen service fills in
        `tipoServicio` and the modal closes. */
    method SelectServiceFromModal(serviceTitle: string)
      modifies this
      ensures Valid() && formData == old(formData).(tipoServicio := serviceTitle)
      ensures acceptedTerms == old(acceptedTerms)
      ensures !isModalOpen && selectedService.None?
    {
      formData := formData.(tipoServicio := serviceTitle);
      isFormValid := QuoteValid(formData, acceptedTerms);
      CloseModal();
    }

    /** enviarCorreo, with the e-mail service's answer. Returns the fields
        sent, if the form was sent at all. */
    method EnviarCorreo(reply: Settled) returns (sent: Option<QuoteFields>)
      requires Valid()
      modifies this
      ensures Valid()
      // an invalid form sends nothing
      ensures sent.Some? <==> old(isFormValid)
      ensures sent.Some? ==> sent.value == old(formData) && QuoteValid(sent.value, old(acceptedTerms))
      // a successful send clears every field and the terms box
      ensures sent.Some? && reply.Resolved? ==> formData == EMPTY_QUOTE && !acceptedTerms && !isFormValid
      // otherwise the form is as it was
      ensures !(sent.Some? && reply.Resolved?) ==> formData == old(formData) && acceptedTerms == old(acceptedTerms)
      ensures isModalOpen == old(isModalOpen) && selectedService == old(selectedService)
    {
      if !isFormValid {
        return None;
      }
      sent := Some(formData);
      if reply.Resolved? {
        formData, acceptedTerms, isFormValid := EMPTY_QUOTE, false, false;
      }
    }
  }
}
