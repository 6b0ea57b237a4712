/** The image carousel (src/components/ImageCarousel.js): the position
    `page` and the last step's direction, a displayed index that wraps
    around the image list, arrows, dots, swipes and a three-second
    auto-advance when there is more than one image. */
module ImageCarouselModel {

  const SWIPE_CONFIDENCE_THRESHOLD: real := 10000.0
  const AUTO_ADVANCE_MS: nat := 3000

  /** JavaScript's `%` on integers: the remainder takes the sign of the
      dividend (it truncates toward zero), unlike Dafny's `%`. */
  function JsRem(a: int, b: int): (r: int)
    requires b > 0
    ensures a >= 0 ==> 0 <= r < b
    ensures a < 0 ==> -b < r <= 0
  {
    if a >= 0 then a % b else -((-a) % b)
  }

  /** A dividend smaller than the divisor either way is its own remainder. */
  lemma JsRemOfSmall(a: int, b: int)
    requires -b < a < b
    ensures JsRem(a, b) == a
  {
    ModOfSmall(if a < 0 then -a else a, b);
  }

  lemma ModOfSmall(m: int, b: int)
    requires 0 <= m < b
    ensures m % b == m
  {
  }

  /** The index shown for position `page`: `page % images.length`. */
  function ImageIndex(page: int, length: nat): int
    requires length > 0
  {
    JsRem(page, length)
  }

  /** `paginate(newDirection)`'s new position: the JavaScript remainder,
      lifted by the length when negative, so it always names an image. */
  function Paginate(currentPage: int, newDirection: int, length: nat): (r: int)
    requires length > 0
    ensures 0 <= r < length
  {
    var newIndex := JsRem(currentPage + newDirection, length);
    if newIndex < 0 then newIndex + length else newIndex
  }

  /** Clicking dot i goes to position i, moving forward when i lies after
      the shown image and backward otherwise. */
  function DotTarget(i: int, imageIndex: int): (r: (int, int))
    ensures r.0 == i
    ensures r.1 == 1 <==> i > imageIndex
    ensures r.1 == -1 <==> i <= imageIndex
  {
    (i, if i > imageIndex then 1 else -1)
  }

  /** The step a drag ends with: `Math.abs(offset) * velocity` past the
      threshold either way, or none. */
  function SwipeStep(offset: real, velocity: real): (r: int)
    ensures r == 1 <==> (if offset < 0.0 then -offset else offset) * velocity < -SWIPE_CONFIDENCE_THRESHOLD
    ensures r == -1 <==> (if offset < 0.0 then -offset else offset) * velocity > SWIPE_CONFIDENCE_THRESHOLD
    ensures r == 0 || r == 1 || r == -1
  {
    var swipe := (if offset < 0.0 then -offset else offset) * velocity;
    if swipe < -SWIPE_CONFIDENCE_THRESHOLD then 1
    else if swipe > SWIPE_CONFIDENCE_THRESHOLD then -1
    else 0
  }

  /** The arrows, the dots and the auto-advance timer exist only with more
      than one image; an empty list shows the placeholder. */
  predicate HasControls(length: nat)
  {
    length > 1
  }

  predicate ShowsPlaceholder(length: nat)
  {
    length == 0
  }

  /** From a shown image, a step forward shows the next one and wraps from
      the last to the first; a step back shows the previous one and wraps
      from the first to the last. */
  lemma StepsWrapAround(currentPage: int, length: nat)
    requires length > 0 && 0 <= currentPage < length
    ensures Paginate(currentPage, 1, length) == if currentPage == length - 1 then 0 else currentPage + 1
    ensures Paginate(currentPage, -1, length) == if currentPage == 0 then length - 1 else currentPage - 1
  {
    if currentPage == length - 1 {
      assert JsRem(currentPage + 1, length) == 0 by {
        assert (currentPage + 1) % length == length % length == 0;
      }
    } else {
      JsRemOfSmall(currentPage + 1, length);
    }
    if length == 1 {
      assert JsRem(currentPage - 1, length) == 0 by {
        assert 1 % 1 == 0;
      }
    } else {
      JsRemOfSmall(currentPage - 1, length);
    }
  }

  /** A step forward and a step back return to the same image. */
  lemma PaginateInverse(currentPage: int, length: nat)
    requires length > 0 && 0 <= currentPage < length
    ensures Paginate(Paginate(currentPage, 1, length), -1, length) == currentPage
    ensures Paginate(Paginate(currentPage, -1, length), 1, length) == currentPage
  {
    StepsWrapAround(currentPage, length);
    StepsWrapAround(Paginate(currentPage, 1, length), length);
    StepsWrapAround(Paginate(currentPage, -1, length), length);
  }

  /** Once a position in range is reached, the shown index is the position
      itself. */
  lemma IndexOfReachedPage(page: int, length: nat)
    requires length > 0 && 0 <= page < length
    ensures ImageIndex(page, length) == page
  {
    JsRemOfSmall(page, length);
  }

  class Carousel {
    var images: seq<string>
    var page: int
    var direction: int

    /** The position is never negative, so the shown index is in range. */
    predicate Valid()
      reads this
    {
      page >= 0
    }

    constructor(images: seq<string>)
      ensures Valid() && this.images == images && page == 0 && direction == 0
    {
      this.images, page, direction := images, 0, 0;
    }

    /** The image shown. */
    function Shown(): (r: string)
      reads this
      requires Valid() && |images| > 0
      ensures r in images
    {
      images[ImageIndex(page, |images|)]
    }

    /** paginate(newDirection): an arrow, a swipe or the timer. */
    method Step(newDirection: int)
      requires Valid() && |images| > 0
      modifies this
      ensures images == old(images) && Valid() && page < |images|
      ensures page == Paginate(old(page), newDirection, |images|) && direction == newDirection
    {
      page, direction := Paginate(page, newDirection, |images|), newDirection;
    }

    /** The timer's tick, which is only set up with more than one image. */
    method Tick()
      requires Valid() && HasControls(|images|)
      modifies this
      ensures images == old(images) && Valid()
      ensures page == Paginate(old(page), 1, |images|) && direction == 1
    {
      Step(1);
    }

    /** A click on dot i (one of 0..length-1). */
    method ClickDot(i: nat)
      requires Valid() && HasControls(|images|) && i < |images|
      modifies this
      ensures images == old(images) && Valid()
      ensures (page, direction) == DotTarget(i, ImageIndex(old(page), |images|))
    {
      page, direction := DotTarget(i, ImageIndex(page, |images|)).0, DotTarget(i, ImageIndex(page, |images|)).1;
    }

    /** The end of a drag. */
    method DragEnd(offset: real, velocity: real)
      requires Valid() && |images| > 0
      modifies this
      ensures images == old(images) && Valid()
      ensures SwipeStep(offset, velocity) == 0 ==> page == old(page) && direction == old(direction)
      ensures SwipeStep(offset, velocity) != 0 ==>
        page == Paginate(old(page), SwipeStep(offset, velocity), |images|) && direction == SwipeStep(offset, velocity)
    {
      var step := SwipeStep(offset, velocity);
      if step != 0 {
        Step(step);
      }
    }
  }
}
