/** The contact form (src/pages/Contact.js): the submitted form's values are
    mapped onto the e-mail template's parameters and sent once; the form is
    reset only when the send succeeds. */
module ContactPageModel {
  import opened Common

  const CONTACT_SERVICE_ID: string := "service_xr3qzsd"
  const CONTACT_TEMPLATE_ID: string := "template_u9n90c8"
  const NO_PHONE: string := "No proporcionado"

  /** The form's inputs `name`, `email`, `phone`, `subject` and `message`. */
  datatype ContactFields = ContactFields(name: string, email: string, phone: string, subject: string, message: string)

  const EMPTY_CONTACT: ContactFields := ContactFields("", "", "", "", "")

  /** The e-mail template's parameters. */
  datatype TemplateParams = TemplateParams(nombre: string, correo: string, telefono: string, asunto: string, mensaje: string)

  /** One call of the e-mail service. */
  datatype EmailSend = EmailSend(serviceId: string, templateId: string, params: TemplateParams)

  /** The template parameters for a submitted form: each field under its
      Spanish name, and a missing phone (an optional input) as "No
      proporcionado". */
  function TemplateParamsOf(f: ContactFields): (p: TemplateParams)
    ensures p.nombre == f.name && p.correo == f.email && p.asunto == f.subject && p.mensaje == f.message
    ensures f.phone == "" ==> p.telefono == NO_PHONE
    ensures f.phone != "" ==> p.telefono == f.phone
  {
    TemplateParams(f.name, f.email, if f.phone == "" then NO_PHONE else f.phone, f.subject, f.message)
  }

  /** The template never gets an empty phone, and apart from the phone the
      mapping loses nothing: two forms with the same parameters agree on
      every other field. */
  lemma TemplateParamsFaithful(f: ContactFields, g: ContactFields)
    ensures TemplateParamsOf(f).telefono != ""
    ensures TemplateParamsOf(f) == TemplateParamsOf(g) ==>
      f.name == g.name && f.email == g.email && f.subject == g.subject && f.message == g.message
    ensures TemplateParamsOf(f) == TemplateParamsOf(g) && f.phone != "" && g.phone != "" ==> f == g
  {
  }

  class ContactForm {
    /** What the (uncontrolled) inputs hold. */
    var fields: ContactFields

    constructor()
      ensures fields == EMPTY_CONTACT
    {
      fields := EMPTY_CONTACT;
    }

    /** The user types into the inputs; the submit reads them from the form. */
    method Type(value: ContactFields)
      modifies this
      ensures fields == value
    {
      fields := value;
    }

    /** handleSubmit, with the e-mail service's answer: exactly one send,
        then a reset when it succeeded. */
    method HandleSubmit(reply: Settled) returns (send: EmailSend)
      modifies this
      ensures send == EmailSend(CONTACT_SERVICE_ID, CONTACT_TEMPLATE_ID, TemplateParamsOf(old(fields)))
      ensures reply.Resolved? ==> fields == EMPTY_CONTACT
      ensures reply.Rejected? ==> fields == old(fields)
    {
      send := EmailSend(CONTACT_SERVICE_ID, CONTACT_TEMPLATE_ID, TemplateParamsOf(fields));
      if reply.Resolved? {
        fields := EMPTY_CONTACT;
      }
    }
  }
}
