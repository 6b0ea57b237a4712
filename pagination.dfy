/** The blog's pagination control (src/components/Blog/Pagination.js): one
    button per page, a previous and a next button, and the current page
    marked. It only asks the page to change; the page decides. */
module PaginationModel {

  /** The control renders at all only when there is more than one page. */
  predicate Renders(totalPages: int)
  {
    totalPages > 1
  }

  /** `Array.from({ length: totalPages }, (_, i) => i + 1)`. */
  function PageNumbers(totalPages: nat): (r: seq<int>)
    ensures |r| == totalPages
  {
    seq(totalPages, i => i + 1)
  }

  /** The previous button's onClick: `onPageChange(currentPage - 1)`. */
  function PrevRequest(currentPage: int): int
  {
    currentPage - 1
  }

  /** The previous button's `disabled`: on page 1. */
  predicate PrevDisabled(currentPage: int)
  {
    currentPage == 1
  }

  /** The next button's onClick: `onPageChange(currentPage + 1)`. */
  function NextRequest(currentPage: int): int
  {
    currentPage + 1
  }

  /** The next button's `disabled`: on the last page. */
  predicate NextDisabled(currentPage: int, totalPages: int)
  {
    currentPage == totalPages
  }

  /** A page button's onClick asks for its own page; the button is marked
      (`aria-current="page"`) when it is the current page. */
  predicate IsCurrent(page: int, currentPage: int)
  {
    currentPage == page
  }

  /** The buttons are exactly the pages 1..totalPages, each once, in
      ascending order. */
  lemma PageNumbersAreThePages(totalPages: nat)
    ensures forall p :: p in PageNumbers(totalPages) <==> 1 <= p <= totalPages
    ensures forall j, k :: 0 <= j < k < totalPages ==> PageNumbers(totalPages)[j] < PageNumbers(totalPages)[k]
  {
    var r := PageNumbers(totalPages);
    forall p | 1 <= p <= totalPages
      ensures p in r
    {
      assert r[p - 1] == p;
    }
  }

  /** With the current page in range, exactly one button is marked: the one
      at position currentPage - 1. */
  lemma ExactlyOneCurrent(totalPages: nat, currentPage: int)
    requires 1 <= currentPage <= totalPages
    ensures forall k :: 0 <= k < totalPages ==>
      (IsCurrent(PageNumbers(totalPages)[k], currentPage) <==> k == currentPage - 1)
  {
  }
}
