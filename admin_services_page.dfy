/** The service admin page (src/components/admin/AdminServicesPage.js): the
    listed services, the page error, the service being edited and the pending
    delete.
    The page error is a string; null and '' both read as "" (no error). */
module AdminServicesPageModel {
  import opened Common
  import opened ImageBatch
  import opened Records
  import opened AdminLists

  const FETCH_SERVICES_PREFIX: string := "Error al cargar servicios: "
  const DELETE_SERVICE_PREFIX: string := "Error al borrar el servicio: "

  /** The `deleteConfirmation` state: the service to delete and its images
      (possibly null: handleDeleteService stores them as given). */
  datatype ServiceDeletion = ServiceDeletion(id: Option<int>, imageUrls: Option<seq<string>>)

  const NO_SERVICE_DELETION: ServiceDeletion := ServiceDeletion(None, None)

  function ServiceId(s: ServiceRow): int
  {
    s.id
  }

  /** The list and the error a fetchServices run leaves: the rows, or an empty
      list and the prefixed message. */
  datatype ServiceListing = ServiceListing(services: seq<ServiceRow>, error: string)

  function FetchedServices(reply: FetchReply<ServiceRow>): (l: ServiceListing)
    ensures reply.Fetched? ==> l == ServiceListing(RowsOf(reply.data), "")
    ensures reply.FetchFailed? ==> l.services == [] && StartsWith(l.error, FETCH_SERVICES_PREFIX)
  {
    match reply
    case Fetched(data) => ServiceListing(RowsOf(data), "")
    case FetchFailed(message) =>
      StartsWithConcat(FETCH_SERVICES_PREFIX, message);
      ServiceListing([], FETCH_SERVICES_PREFIX + message)
  }

  /** The page error after a failed delete, as written: the catch block sets
      the delete's message and then calls fetchServices, whose first step sets
      the error back to null, so what remains is the refetch's own error. */
  function ErrorAfterFailedDelete(deleteMessage: string, refetch: FetchReply<ServiceRow>): (e: string)
    ensures refetch.Fetched? ==> e == ""
    ensures refetch.FetchFailed? ==> StartsWith(e, FETCH_SERVICES_PREFIX)
  {
    // setError(`Error al borrar el servicio: …`) is overwritten by fetchServices
    FetchedServices(refetch).error
  }

  /** The page error the catch block evidently means to leave: the delete's
      message, whatever the refetch does to the list. */
  function ErrorAfterFailedDeleteIntended(deleteMessage: string, refetch: FetchReply<ServiceRow>): (e: string)
    ensures StartsWith(e, DELETE_SERVICE_PREFIX) && e != ""
    // what follows the prefix is exactly the message the delete failed with
    ensures e[|DELETE_SERVICE_PREFIX|..] == deleteMessage
  {
    StartsWithConcat(DELETE_SERVICE_PREFIX, deleteMessage);
    DELETE_SERVICE_PREFIX + deleteMessage
  }

  /** A delete that the table refuses, followed by a refetch that succeeds,
      shows no error at all. */
  lemma DeleteErrorLost(deleteMessage: string, data: Option<seq<ServiceRow>>)
    ensures ErrorAfterFailedDelete(deleteMessage, Fetched(data)) == ""
    ensures ErrorAfterFailedDeleteIntended(deleteMessage, Fetched(data)) != ""
  {
  }

  class AdminServicesPage {
    var services: seq<ServiceRow>
    var error: string
    var editing: Option<ServiceRow>
    var deletion: ServiceDeletion

    constructor()
      ensures services == [] && error == "" && editing.None? && deletion == NO_SERVICE_DELETION
    {
      services, error, editing, deletion := [], "", None, NO_SERVICE_DELETION;
    }

    /** fetchServices, run to its end with the table's answer. */
    method Fetch(reply: FetchReply<ServiceRow>)
      modifies this
      ensures services == FetchedServices(reply).services && error == FetchedServices(reply).error
      ensures editing == old(editing) && deletion == old(deletion)
    {
      var listing := FetchedServices(reply);
      services, error := listing.services, listing.error;
    }

    /** handleServiceAdded: the new service goes first. */
    method HandleServiceAdded(newService: ServiceRow)
      modifies this
      ensures services == [newService] + old(services)
      ensures error == old(error) && editing == old(editing) && deletion == old(deletion)
    {
      services := [newService] + services;
    }

    /** handleServiceUpdated: the service with the same id is replaced in
        place and the editor closes. */
    method HandleServiceUpdated(updated: ServiceRow)
      modifies this
      ensures services == ReplaceById(old(services), updated, ServiceId) && editing.None?
      ensures error == old(error) && deletion == old(deletion)
    {
      services := ReplaceById(services, updated, ServiceId);
      editing := None;
    }

    /** handleDeleteService: ask for confirmation. */
    method HandleDeleteService(id: Option<int>, imageUrls: Option<seq<string>>)
      modifies this
      ensures deletion == ServiceDeletion(id, imageUrls) && error == ""
      ensures services == old(services) && editing == old(editing)
    {
      deletion, error := ServiceDeletion(id, imageUrls), "";
    }

    method CancelDelete()
      modifies this
      ensures deletion == NO_SERVICE_DELETION
      ensures services == old(services) && error == old(error) && editing == old(editing)
    {
      deletion := NO_SERVICE_DELETION;
    }

    /** handleEditClick and handleCloseModal. */
    method SetEditing(service: Option<ServiceRow>)
      modifies this
      ensures editing == service
      ensures services == old(services) && error == old(error) && deletion == old(deletion)
    {
      editing := service;
    }

    /** confirmDelete, with the table's answer to the delete (`dbError`), the
        store's answer to each image delete, and the answer to the refetch a
        failure starts. Returns the bucket afterwards. */
    method ConfirmDelete(
      dbError: Option<string>, removeErrors: seq<Option<string>>, refetch: FetchReply<ServiceRow>, storage: set<string>)
      returns (after: set<string>)
      requires |removeErrors| == |OrNone(deletion.imageUrls)|
      modifies this
      // no pending id: nothing happens
      ensures !PendingId(old(deletion.id)) ==>
        after == storage && services == old(services) && error == old(error) && deletion == old(deletion)
      // the row goes first; only then its images (`Promise.all` over deletes that catch their own errors), whose delete errors are swallowed
      ensures PendingId(old(deletion.id)) && dbError.None? ==>
        services == RemoveById(old(services), old(deletion.id.value), ServiceId) && error == "" &&
        after == storage - RemovedSet(OrNone(old(deletion.imageUrls)), removeErrors)
      // a refused delete: the bucket is untouched and the list refetched, not edited
      ensures PendingId(old(deletion.id)) && dbError.Some? ==>
        after == storage && services == FetchedServices(refetch).services &&
        error == ErrorAfterFailedDelete(dbError.value, refetch)
      // the confirmation is cleared in every case that ran
      ensures PendingId(old(deletion.id)) ==> deletion == NO_SERVICE_DELETION
      ensures editing == old(editing)
    {
      if !PendingId(deletion.id) {
        return storage;
      }
      var serviceId, imageUrls := deletion.id.value, OrNone(deletion.imageUrls);
      error := "";
      after := storage;
      if dbError.None? {
        if |imageUrls| > 0 {
          after := DeleteAll(imageUrls, storage, removeErrors);
        }
        DeleteAllRemoves(imageUrls, storage, removeErrors);
        services := RemoveById(services, serviceId, ServiceId);
      } else {
        error := DELETE_SERVICE_PREFIX + dbError.value;
        Fetch(refetch);
      }
      deletion := NO_SERVICE_DELETION;
    }
  }
}
