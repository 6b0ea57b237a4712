/** The blog admin page (src/components/admin/AdminBlogsPage.js): the listed
    entries, the page error, the entry being edited and the pending delete.
    The page error is a string; null and '' both read as "" (no error). */
module AdminBlogsPageModel {
  import opened Common
  import opened ImageBatch
  import opened Records
  import opened AdminLists

  const FETCH_BLOGS_PREFIX: string := "Error al cargar blogs: "
  const DELETE_BLOG_PREFIX: string := "Error al borrar el blog: "

  /** The `deleteConfirmation` state: the entry to delete and its images. */
  datatype BlogDeletion = BlogDeletion(id: Option<int>, imageUrls: seq<string>)

  const NO_BLOG_DELETION: BlogDeletion := BlogDeletion(None, [])

  function BlogId(b: BlogRow): int
  {
    b.id
  }

  /** The list and the error a fetchBlogs run leaves: the rows, or an empty
      list and the prefixed message. */
  datatype BlogListing = BlogListing(blogs: seq<BlogRow>, error: string)

  function FetchedBlogs(reply: FetchReply<BlogRow>): (l: BlogListing)
    ensures reply.Fetched? ==> l == BlogListing(RowsOf(reply.data), "")
    ensures reply.FetchFailed? ==> l.blogs == [] && StartsWith(l.error, FETCH_BLOGS_PREFIX)
  {
    match reply
    case Fetched(data) => BlogListing(RowsOf(data), "")
    case FetchFailed(message) =>
      StartsWithConcat(FETCH_BLOGS_PREFIX, message);
      BlogListing([], FETCH_BLOGS_PREFIX + message)
  }

  /** The page error after a failed delete, as written: the catch block sets
      the delete's message and then calls fetchBlogs, whose first step sets
      the error back to null, so what remains is the refetch's own error. */
  function ErrorAfterFailedDelete(deleteMessage: string, refetch: FetchReply<BlogRow>): (e: string)
    ensures refetch.Fetched? ==> e == ""
    ensures refetch.FetchFailed? ==> StartsWith(e, FETCH_BLOGS_PREFIX)
  {
    // setError(`Error al borrar el blog: …`) is overwritten by fetchBlogs
    FetchedBlogs(refetch).error
  }

  /** The page error the catch block evidently means to leave: the delete's
      message, whatever the refetch does to the list. */
  function ErrorAfterFailedDeleteIntended(deleteMessage: string, refetch: FetchReply<BlogRow>): (e: string)
    ensures StartsWith(e, DELETE_BLOG_PREFIX) && e != ""
    // what follows the prefix is exactly the message the delete failed with
    ensures e[|DELETE_BLOG_PREFIX|..] == deleteMessage
  {
    StartsWithConcat(DELETE_BLOG_PREFIX, deleteMessage);
    DELETE_BLOG_PREFIX + deleteMessage
  }

  /** A delete that the table refuses, followed by a refetch that succeeds,
      shows no error at all. */
  lemma DeleteErrorLost(deleteMessage: string, data: Option<seq<BlogRow>>)
    ensures ErrorAfterFailedDelete(deleteMessage, Fetched(data)) == ""
    ensures ErrorAfterFailedDeleteIntended(deleteMessage, Fetched(data)) != ""
  {
  }

  class AdminBlogsPage {
    var blogs: seq<BlogRow>
    var error: string
    var editing: Option<BlogRow>
    var deletion: BlogDeletion

    constructor()
      ensures blogs == [] && error == "" && editing.None? && deletion == NO_BLOG_DELETION
    {
      blogs, error, editing, deletion := [], "", None, NO_BLOG_DELETION;
    }

    /** fetchBlogs, run to its end with the table's answer. */
    method Fetch(reply: FetchReply<BlogRow>)
      modifies this
      ensures blogs == FetchedBlogs(reply).blogs && error == FetchedBlogs(reply).error
      ensures editing == old(editing) && deletion == old(deletion)
    {
      var listing := FetchedBlogs(reply);
      blogs, error := listing.blogs, listing.error;
    }

    /** handleBlogAdded: the new entry goes first. */
    method HandleBlogAdded(newBlog: BlogRow)
      modifies this
      ensures blogs == [newBlog] + old(blogs)
      ensures error == old(error) && editing == old(editing) && deletion == old(deletion)
    {
      blogs := [newBlog] + blogs;
    }

    /** handleBlogUpdated: the entry with the same id is replaced in place
        and the editor closes. */
    method HandleBlogUpdated(updated: BlogRow)
      modifies this
      ensures blogs == ReplaceById(old(blogs), updated, BlogId) && editing.None?
      ensures error == old(error) && deletion == old(deletion)
    {
      blogs := ReplaceById(blogs, updated, BlogId);
      editing := None;
    }

    /** handleDeleteBlog: ask for confirmation. */
    method HandleDeleteBlog(id: Option<int>, imageUrls: Option<seq<string>>)
      modifies this
      ensures deletion == BlogDeletion(id, OrNone(imageUrls)) && error == ""
      ensures blogs == old(blogs) && editing == old(editing)
    {
      deletion, error := BlogDeletion(id, OrNone(imageUrls)), "";
    }

    method CancelDelete()
      modifies this
      ensures deletion == NO_BLOG_DELETION
      ensures blogs == old(blogs) && error == old(error) && editing == old(editing)
    {
      deletion := NO_BLOG_DELETION;
    }

    /** handleEditClick and handleCloseModal. */
    method SetEditing(blog: Option<BlogRow>)
      modifies this
      ensures editing == blog
      ensures blogs == old(blogs) && error == old(error) && deletion == old(deletion)
    {
      editing := blog;
    }

    /** confirmDelete, with the table's answer to the delete (`dbError`), the
        store's answer to each image delete, and the answer to the refetch a
        failure starts. Returns the bucket afterwards. */
    method ConfirmDelete(
      dbError: Option<string>, removeErrors: seq<Option<string>>, refetch: FetchReply<BlogRow>, storage: set<string>)
      returns (after: set<string>)
      requires |removeErrors| == |deletion.imageUrls|
      modifies this
      // no pending id: nothing happens
      ensures !PendingId(old(deletion.id)) ==>
        after == storage && blogs == old(blogs) && error == old(error) && deletion == old(deletion)
      // the row goes first; only then its images, whose delete errors are swallowed
      ensures PendingId(old(deletion.id)) && dbError.None? ==>
        blogs == RemoveById(old(blogs), old(deletion.id.value), BlogId) && error == "" &&
        after == storage - RemovedSet(old(deletion.imageUrls), removeErrors)
      // a refused delete: the bucket is untouched and the list refetched, not edited
      ensures PendingId(old(deletion.id)) && dbError.Some? ==>
        after == storage && blogs == FetchedBlogs(refetch).blogs &&
        error == ErrorAfterFailedDelete(dbError.value, refetch)
      // the confirmation is cleared in every case that ran
      ensures PendingId(old(deletion.id)) ==> deletion == NO_BLOG_DELETION
      ensures editing == old(editing)
    {
      if !PendingId(deletion.id) {
        return storage;
      }
      var blogId, imageUrls := deletion.id.value, deletion.imageUrls;
      error := "";
      after := storage;
      if dbError.None? {
        if |imageUrls| > 0 {
          after := DeleteAll(imageUrls, storage, removeErrors);
        }
        DeleteAllRemoves(imageUrls, storage, removeErrors);
        blogs := RemoveById(blogs, blogId, BlogId);
      } else {
        error := DELETE_BLOG_PREFIX + dbError.value;
        Fetch(refetch);
      }
      deletion := NO_BLOG_DELETION;
    }
  }
}
