/** The delivery zone form (src/components/admin/DeliveryZoneForm.js): four
    text fields, of which province and cost are required and cost must read
    as a number that is not negative. */
module DeliveryZoneFormModel {
  import opened Common
  import opened ImageRules
  import opened Records

  const ZONE_REQUIRED: string := "Por favor, completa los campos obligatorios: Provincia y Costo."
  const ZONE_BAD_COST: string := "El costo debe ser un número válido y no puede ser negativo."
  const ZONE_SAVE_FAILED: string := "Ocurrió un error al guardar."

  datatype ZoneField = Province | Area | Cost | EstimatedTime

  /** The `formData` state object; the cost is the text typed into its input. */
  datatype ZoneFields = ZoneFields(province: string, area: string, cost: string, estimatedTime: string)

  const EMPTY_ZONE: ZoneFields := ZoneFields("", "", "", "")

  /** The fields of a stored zone, each `|| ''` (the cost through its text). */
  function ZoneFieldsOf(row: DeliveryZoneRow): (d: ZoneFields)
    ensures d.province == OrEmpty(row.province) && d.area == OrEmpty(row.area)
    ensures d.cost == OrEmpty(row.cost) && d.estimatedTime == OrEmpty(row.estimatedTime)
  {
    ZoneFields(OrEmpty(row.province), OrEmpty(row.area), OrEmpty(row.cost), OrEmpty(row.estimatedTime))
  }

  /** The submit checks. `parsedCost` is what `parseFloat(cost)` gives, None
      for NaN: unlike the product form, a cost that is not a number is
      refused. */
  function ZoneValidationError(d: ZoneFields, parsedCost: Option<real>): (r: Option<string>)
    ensures r.None? <==> d.province != "" && d.cost != "" && parsedCost.Some? && parsedCost.value >= 0.0
    ensures r == Some(ZONE_REQUIRED) <==> d.province == "" || d.cost == ""
    ensures r.None? || r == Some(ZONE_REQUIRED) || r == Some(ZONE_BAD_COST)
  {
    if d.province == "" || d.cost == "" then Some(ZONE_REQUIRED)
    else if parsedCost.None? || parsedCost.value < 0.0 then Some(ZONE_BAD_COST)
    else None
  }

  class DeliveryZoneForm {
    var formData: ZoneFields
    var formError: string
    /** Whether the form was given a zone to edit (`initialZoneData`). */
    var editing: bool

    constructor()
      ensures formData == EMPTY_ZONE && formError == "" && !editing
    {
      formData, formError, editing := EMPTY_ZONE, "", false;
    }

    /** The effect that runs when `initialZoneData` changes. */
    method Prefill(initial: Option<DeliveryZoneRow>)
      modifies this
      ensures formData == (if initial.Some? then ZoneFieldsOf(initial.value) else EMPTY_ZONE)
      ensures formError == "" && editing == initial.Some?
    {
      formData := if initial.Some? then ZoneFieldsOf(initial.value) else EMPTY_ZONE;
      formError := "";
      editing := initial.Some?;
    }

    /** handleChange: one field takes the typed value and the error is
        cleared. */
    method Change(field: ZoneField, value: string)
      modifies this
      ensures formData.province == (if field == Province then value else old(formData.province))
      ensures formData.area == (if field == Area then value else old(formData.area))
      ensures formData.cost == (if field == Cost then value else old(formData.cost))
      ensures formData.estimatedTime == (if field == EstimatedTime then value else old(formData.estimatedTime))
      ensures formError == "" && editing == old(editing)
    {
      formData := match field
        case Province => formData.(province := value)
        case Area => formData.(area := value)
        case Cost => formData.(cost := value)
        case EstimatedTime => formData.(estimatedTime := value);
      formError := "";
    }

    /** handleSubmit, with the parsed cost and the add or edit handler's
        outcome given. */
    method Submit(parsedCost: Option<real>, reply: Settled) returns (sent: Option<ZoneFields>)
      modifies this
      ensures editing == old(editing)
      ensures var err := ZoneValidationError(old(formData), parsedCost);
        (err.Some? ==> sent.None? && formError == err.value && formData == old(formData)) &&
        (err.None? ==> sent == Some(old(formData)))
      ensures sent.Some? && reply.Resolved? ==>
        formError == "" && formData == (if old(editing) then old(formData) else EMPTY_ZONE)
      ensures sent.Some? && reply.Rejected? ==>
        formError == RejectionText(reply.message, ZONE_SAVE_FAILED) && formData == old(formData)
    {
      formError := "";
      var err := ZoneValidationError(formData, parsedCost);
      if err.Some? {
        formError := err.value;
        return None;
      }
      sent := Some(formData);
      match reply {
        case Resolved =>
          if !editing {
            formData := EMPTY_ZONE;
          }
          formError := "";
        case Rejected(message) =>
          formError := RejectionText(message, ZONE_SAVE_FAILED);
      }
    }
  }
}
