/** The public blog listing (src/pages/Blog.js): six entries per page, read
    newest first with the exact row count, each shown with its first image
    or the site logo, and a page change accepted only inside 1..totalPages. */
module BlogListingModel {
  import opened Common
  import opened Records
  import opened PaginationModel

  const POSTS_PER_PAGE: nat := 6
  const FALLBACK_IMAGE: string := "/assets/logo.png"
  const FETCH_POSTS_FAILED: string := "No se pudieron cargar las entradas del blog. Inténtalo más tarde."

  /** The inclusive row range `.range(from, to)` asked for page `page`. */
  datatype RowRange = RowRange(from: int, to: int)

  function PageRange(page: int): (r: RowRange)
    ensures r.to - r.from + 1 == POSTS_PER_PAGE
    ensures page >= 1 ==> r.from >= 0
  {
    var from := (page - 1) * POSTS_PER_PAGE;
    RowRange(from, from + POSTS_PER_PAGE - 1)
  }

  /** The rows the table returns for page `page` of `table` (the rows in
      `date` descending order): those whose index lies in the page's range,
      in order, as many as exist. */
  function PageRows<T>(table: seq<T>, page: int): (r: seq<T>)
    requires page >= 1
    ensures |r| <= POSTS_PER_PAGE
    ensures forall k :: 0 <= k < |r| ==> PageRange(page).from + k < |table| && r[k] == table[PageRange(page).from + k]
    ensures |r| == if PageRange(page).from >= |table| then 0 else Min(POSTS_PER_PAGE, |table| - PageRange(page).from)
  {
    var range := PageRange(page);
    if range.from >= |table| then []
    else table[range.from..Min(range.to + 1, |table|)]
  }

  function Min(a: int, b: int): int
  {
    if a <= b then a else b
  }

  /** `Math.ceil((count || 0) / POSTS_PER_PAGE)`: the fewest pages of six
      that hold `count` rows. */
  function TotalPages(count: Option<nat>): (n: nat)
    ensures var c := if count.Some? then count.value else 0;
      n * POSTS_PER_PAGE >= c && (n == 0 || (n - 1) * POSTS_PER_PAGE < c)
  {
    var c := if count.Some? then count.value else 0;
    (c + POSTS_PER_PAGE - 1) / POSTS_PER_PAGE
  }

  /** The card image: the entry's first image, or the logo when it has
      none. */
  function DisplayImage(imageUrls: Option<seq<string>>): (r: string)
    ensures imageUrls.Some? && |imageUrls.value| > 0 ==> r == imageUrls.value[0]
    ensures imageUrls.None? || |imageUrls.value| == 0 ==> r == FALLBACK_IMAGE
  {
    if imageUrls.Some? && |imageUrls.value| > 0 then imageUrls.value[0] else FALLBACK_IMAGE
  }

  /** A listed entry: the selected row and its display image. */
  datatype PostCard = PostCard(post: BlogRow, imageUrl: string)

  function Cards(rows: seq<BlogRow>): (r: seq<PostCard>)
    ensures |r| == |rows|
    ensures forall k :: 0 <= k < |rows| ==> r[k].post == rows[k] && r[k].imageUrl == DisplayImage(rows[k].imageUrls)
  {
    seq(|rows|, k requires 0 <= k < |rows| => PostCard(rows[k], DisplayImage(rows[k].imageUrls)))
  }

  /** The answer to one page request: the rows (`data`, possibly null) with
      the exact count, or the error. */
  datatype PostsReply = PostsFetched(data: Option<seq<BlogRow>>, count: Option<nat>) | PostsFailed(message: string)

  /** `handlePageChange`'s guard, which every button of the pagination
      control goes through. */
  predicate PageChangeAccepted(page: int, totalPages: int)
  {
    page >= 1 && page <= totalPages
  }

  /** Every row of the table is the (i % 6)-th row of page i / 6 + 1. */
  lemma RowOnItsPage<T>(table: seq<T>, i: nat)
    requires i < |table|
    ensures |PageRows(table, i / POSTS_PER_PAGE + 1)| > i % POSTS_PER_PAGE
    ensures PageRows(table, i / POSTS_PER_PAGE + 1)[i % POSTS_PER_PAGE] == table[i]
  {
    assert PageRange(i / POSTS_PER_PAGE + 1).from + i % POSTS_PER_PAGE == i;
  }

  /** The page count of the whole table is exactly the number of pages whose
      answer holds rows: pages 1..totalPages are non-empty, later ones
      empty. */
  lemma NonEmptyPagesAreCounted<T>(table: seq<T>, page: int)
    requires page >= 1
    ensures |PageRows(table, page)| > 0 <==> page <= TotalPages(Some(|table|))
  {
    var n := TotalPages(Some(|table|));
    if page <= n {
      assert (page - 1) * POSTS_PER_PAGE <= (n - 1) * POSTS_PER_PAGE;
    } else {
      assert (page - 1) * POSTS_PER_PAGE >= n * POSTS_PER_PAGE;
    }
  }

  /** Consecutive pages ask for adjacent ranges: nothing is skipped or read
      twice. */
  lemma PageRangesAdjacent(page: int)
    ensures PageRange(page + 1).from == PageRange(page).to + 1
  {
  }

  /** The pagination's buttons ask only for pages the page accepts: a page
      button always, prev and next exactly when they are enabled. */
  lemma ControlsMatchPageChange(currentPage: int, totalPages: nat)
    requires 1 <= currentPage <= totalPages
    ensures forall p :: p in PageNumbers(totalPages) ==> PageChangeAccepted(p, totalPages)
    ensures !PrevDisabled(currentPage) <==> PageChangeAccepted(PrevRequest(currentPage), totalPages)
    ensures !NextDisabled(currentPage, totalPages) <==> PageChangeAccepted(NextRequest(currentPage), totalPages)
  {
    PageNumbersAreThePages(totalPages);
  }

  class BlogPage {
    var posts: seq<PostCard>
    var error: string
    var currentPage: int
    var totalPages: int

    /** The page shown is always a page number. */
    predicate Valid()
      reads this
    {
      currentPage >= 1
    }

    constructor()
      ensures Valid()
      ensures posts == [] && error == "" && currentPage == 1 && totalPages == 1
    {
      posts, error, currentPage, totalPages := [], "", 1, 1;
    }

    /** fetchPosts(currentPage), run to its end with the table's answer:
        the cards and the page count, or an empty list, one page and the
        fixed message. */
    method Fetch(reply: PostsReply)
      requires Valid()
      modifies this
      ensures Valid() && currentPage == old(currentPage)
      ensures reply.PostsFailed? ==> posts == [] && totalPages == 1 && error == FETCH_POSTS_FAILED
      ensures reply.PostsFetched? && reply.data.Some? ==>
        posts == Cards(reply.data.value) && totalPages == TotalPages(reply.count) && error == ""
      ensures reply.PostsFetched? && reply.data.None? ==> posts == [] && totalPages == 1 && error == ""
    {
      error := "";
      match reply {
        case PostsFailed(_) =>
          posts, totalPages, error := [], 1, FETCH_POSTS_FAILED;
        case PostsFetched(data, count) =>
          if data.Some? {
            posts, totalPages := Cards(data.value), TotalPages(count);
          } else {
            posts, totalPages := [], 1;
          }
      }
    }

    /** handlePageChange: a request outside 1..totalPages is ignored. */
    method HandlePageChange(page: int)
      requires Valid()
      modifies this
      ensures Valid()
      ensures PageChangeAccepted(page, old(totalPages)) ==> currentPage == page
      ensures !PageChangeAccepted(page, old(totalPages)) ==> currentPage == old(currentPage)
      ensures posts == old(posts) && error == old(error) && totalPages == old(totalPages)
    {
      if PageChangeAccepted(page, totalPages) {
        currentPage := page;
      }
    }

    /** The pagination control shows once loading has ended, with no error
        and more than one page. */
    predicate ShowsPagination()
      reads this
    {
      error == "" && Renders(totalPages)
    }
  }
}
