/** The page and zoom controls every form viewer has: previous and next page
    within the template's pages, and zoom in steps of 25 between 50 and 200 per
    cent, starting on the first page at 100 per cent. */
module PageControls {

  const MinZoom := 50
  const MaxZoom := 200
  const ZoomStep := 25
  const InitialZoom := 100

  /** `handlePrevPage`: back one page unless on the first. */
  function PrevPage(page: nat): nat
  {
    if page > 0 then page - 1 else page
  }

  /** `handleNextPage`: on one page unless on the last. */
  function NextPage(page: nat, totalPages: nat): nat
  {
    if page < totalPages - 1 then page + 1 else page
  }

  /** `handleZoomIn`: `Math.min(zoom + 25, 200)`. */
  function ZoomIn(zoom: int): int
  {
    if zoom + ZoomStep < MaxZoom then zoom + ZoomStep else MaxZoom
  }

  /** `handleZoomOut`: `Math.max(zoom - 25, 50)`. */
  function ZoomOut(zoom: int): int
  {
    if zoom - ZoomStep > MinZoom then zoom - ZoomStep else MinZoom
  }

  /** A page index the viewer can be on: one of the pages, or the first when
      the template has none. */
  predicate OnPage(page: nat, totalPages: nat)
  {
    page == 0 || page < totalPages
  }

  /** A zoom the controls can reach from 100: a multiple of 25 in range. */
  predicate ZoomLevel(zoom: int)
  {
    MinZoom <= zoom <= MaxZoom && zoom % ZoomStep == 0
  }

  /** Both page buttons keep the viewer on a page, and each moves by at most one:
      forward only below the last page, back only above the first. */
  lemma PagingStaysOnPage(page: nat, totalPages: nat)
    requires OnPage(page, totalPages)
    ensures OnPage(PrevPage(page), totalPages) && OnPage(NextPage(page, totalPages), totalPages)
    ensures PrevPage(page) == page <==> page == 0
    ensures NextPage(page, totalPages) == page <==> page + 1 >= totalPages
    ensures PrevPage(page) + 1 >= page && NextPage(page, totalPages) <= page + 1
  {
  }

  /** Next undoes previous and previous undoes next, away from the ends. */
  lemma PagingRoundTrip(page: nat, totalPages: nat)
    ensures 0 < page < totalPages ==> NextPage(PrevPage(page), totalPages) == page
    ensures page + 1 < totalPages ==> PrevPage(NextPage(page, totalPages)) == page
  {
  }

  /** Zooming keeps a reachable zoom level, and changes it exactly when it is not
      already at the bound the button moves towards. */
  lemma ZoomStaysInRange(zoom: int)
    requires ZoomLevel(zoom)
    ensures ZoomLevel(ZoomIn(zoom)) && ZoomLevel(ZoomOut(zoom))
    ensures ZoomIn(zoom) == zoom <==> zoom == MaxZoom
    ensures ZoomOut(zoom) == zoom <==> zoom == MinZoom
  {
  }

  /** Zooming out undoes zooming in below the maximum, and the other way round
      above the minimum. */
  lemma ZoomRoundTrip(zoom: int)
    requires ZoomLevel(zoom)
    ensures zoom < MaxZoom ==> ZoomOut(ZoomIn(zoom)) == zoom
    ensures zoom > MinZoom ==> ZoomIn(ZoomOut(zoom)) == zoom
  {
  }

  /** The page and zoom state of one viewer over a template of `totalPages`
      pages. */
  class PageView {
    const totalPages: nat
    var currentPage: nat
    var zoom: int

    predicate Valid()
      reads this
    {
      OnPage(currentPage, totalPages) && ZoomLevel(zoom)
    }

    constructor (totalPages: nat)
      ensures Valid() && this.totalPages == totalPages
      ensures currentPage == 0 && zoom == InitialZoom
    {
      this.totalPages := totalPages;
      currentPage := 0;
      zoom := InitialZoom;
    }

    method Prev()
      requires Valid()
      modifies this
      ensures Valid()
      ensures currentPage == PrevPage(old(currentPage)) && zoom == old(zoom)
    {
      currentPage := PrevPage(currentPage);
    }

    method Next()
      requires Valid()
      modifies this
      ensures Valid()
      ensures currentPage == NextPage(old(currentPage), totalPages) && zoom == old(zoom)
    {
      currentPage := NextPage(currentPage, totalPages);
    }

    method ZoomInView()
      requires Valid()
      modifies this
      ensures Valid()
      ensures zoom == ZoomIn(old(zoom)) && currentPage == old(currentPage)
    {
      zoom := ZoomIn(zoom);
    }

    method ZoomOutView()
      requires Valid()
      modifies this
      ensures Valid()
      ensures zoom == ZoomOut(old(zoom)) && currentPage == old(currentPage)
    {
      zoom := ZoomOut(zoom);
    }
  }
}
