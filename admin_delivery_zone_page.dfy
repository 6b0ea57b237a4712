/** The delivery zone admin page (src/components/admin/AdminDeliveryZonePage.js):
    the listed zones, the page error, the zone being edited and the id
    pending deletion. Zones have no images, so no call reaches the bucket. */
module AdminDeliveryZonePageModel {
  import opened Common
  import opened Records
  import opened AdminLists

  const FETCH_ZONES_FAILED: string := "No se pudieron cargar las zonas de entrega. Intenta recargar."
  const DELETE_ZONE_FAILED: string := "Error al borrar la zona de entrega."

  function ZoneId(z: DeliveryZoneRow): int
  {
    z.id
  }

  class AdminDeliveryZonePage {
    var zones: seq<DeliveryZoneRow>
    var error: string
    var editing: Option<DeliveryZoneRow>
    var pendingId: Option<int>

    constructor()
      ensures zones == [] && error == "" && editing.None? && pendingId.None?
    {
      zones, error, editing, pendingId := [], "", None, None;
    }

    /** fetchDeliveryZones, run to its end with the table's answer: a failure
        keeps the list as it was. */
    method Fetch(reply: FetchReply<DeliveryZoneRow>)
      modifies this
      ensures reply.Fetched? ==> zones == RowsOf(reply.data) && error == ""
      ensures reply.FetchFailed? ==> zones == old(zones) && error == FETCH_ZONES_FAILED
      ensures editing == old(editing) && pendingId == old(pendingId)
    {
      error := "";
      match reply {
        case Fetched(data) => zones := RowsOf(data);
        case FetchFailed(_) => error := FETCH_ZONES_FAILED;
      }
    }

    /** handleDeliveryZoneAdded: the new zone is not inserted locally; the
        whole list is fetched again. */
    method HandleDeliveryZoneAdded(newZone: DeliveryZoneRow, refetch: FetchReply<DeliveryZoneRow>)
      modifies this
      ensures refetch.Fetched? ==> zones == RowsOf(refetch.data) && error == ""
      ensures refetch.FetchFailed? ==> zones == old(zones) && error == FETCH_ZONES_FAILED
      ensures editing == old(editing) && pendingId == old(pendingId)
    {
      Fetch(refetch);
    }

    /** handleDeliveryZoneUpdated: the zone with the same id is replaced in
        place and the editor closes. */
    method HandleDeliveryZoneUpdated(updated: DeliveryZoneRow)
      modifies this
      ensures zones == ReplaceById(old(zones), updated, ZoneId) && editing.None?
      ensures error == old(error) && pendingId == old(pendingId)
    {
      zones := ReplaceById(zones, updated, ZoneId);
      editing := None;
    }

    /** handleEditClick: open the editor and clear the error. */
    method HandleEditClick(zone: DeliveryZoneRow)
      modifies this
      ensures editing == Some(zone) && error == ""
      ensures zones == old(zones) && pendingId == old(pendingId)
    {
      editing, error := Some(zone), "";
    }

    method HandleCloseModal()
      modifies this
      ensures editing.None?
      ensures zones == old(zones) && error == old(error) && pendingId == old(pendingId)
    {
      editing := None;
    }

    /** handleDeleteClick: ask for confirmation. */
    method HandleDeleteClick(id: Option<int>)
      modifies this
      ensures pendingId == id && error == ""
      ensures zones == old(zones) && editing == old(editing)
    {
      pendingId, error := id, "";
    }

    method CancelDelete()
      modifies this
      ensures pendingId.None?
      ensures zones == old(zones) && error == old(error) && editing == old(editing)
    {
      pendingId := None;
    }

    /** confirmDelete, with the table's answer to the delete. The error is
        not cleared first: a successful delete leaves it as it was. */
    method ConfirmDelete(dbError: Option<string>)
      modifies this
      ensures !PendingId(old(pendingId)) ==>
        zones == old(zones) && error == old(error) && pendingId == old(pendingId)
      ensures PendingId(old(pendingId)) && dbError.None? ==>
        zones == RemoveById(old(zones), old(pendingId.value), ZoneId) && error == old(error)
      ensures PendingId(old(pendingId)) && dbError.Some? ==>
        zones == old(zones) && error == DELETE_ZONE_FAILED
      ensures PendingId(old(pendingId)) ==> pendingId.None?
      ensures editing == old(editing)
    {
      if !PendingId(pendingId) {
        return;
      }
      var zoneId := pendingId.value;
      if dbError.None? {
        zones := RemoveById(zones, zoneId, ZoneId);
      } else {
        error := DELETE_ZONE_FAILED;
      }
      pendingId := None;
    }
  }
}
