/**
 * `FeaturedCarousel` (`src/ui/featured_carousel.rs`): a banner carousel with
 * previous and next buttons that cycle through its pages. `visiblePage` is
 * the carousel's own idea of the page on show; the scrolls it asks the
 * paginator for are collected in `scrolls`.
 */
module FeaturedCarousel {
  import opened Wrappers

  /** The button a page may carry: a GAction name and its label. */
  datatype PageAction = PageAction(name: string, labelText: string)

  /** A banner page: its title, its background colour and its optional button. */
  datatype Page = Page(title: string, rgb: string, action: Option<PageAction>)

  /** The next button: one page on, from the last page back to the first. */
  function NextIndex(visible: nat, count: nat): (r: nat)
    requires visible < count
    ensures r < count
    ensures r == (visible + 1) % count
  {
    if visible + 1 != count then visible + 1 else 0
  }

  /** The previous button: one page back, from the first page round to the last. */
  function PreviousIndex(visible: nat, count: nat): (r: nat)
    requires visible < count
    ensures r < count
    ensures r == (visible + count - 1) % count
  {
    if visible != 0 then visible - 1 else count - 1
  }

  /** `k` presses of the next button. */
  function Advance(visible: nat, count: nat, k: nat): (r: nat)
    requires visible < count
    ensures r < count
  {
    if k == 0 then visible else NextIndex(Advance(visible, count, k - 1), count)
  }

  /** Next undoes previous, and previous undoes next. */
  lemma NextPreviousInverse(visible: nat, count: nat)
    requires visible < count
    ensures NextIndex(PreviousIndex(visible, count), count) == visible
    ensures PreviousIndex(NextIndex(visible, count), count) == visible
  {
  }

  /** Up to one full round, `k` presses of next move `k` pages on, wrapping past the last page once. */
  lemma {:induction false} AdvanceWithinRound(visible: nat, count: nat, k: nat)
    requires visible < count && k <= count
    ensures Advance(visible, count, k) == if visible + k < count then visible + k else visible + k - count
  {
    if k > 0 {
      AdvanceWithinRound(visible, count, k - 1);
    }
  }

  /** As many presses of next as there are pages bring the carousel back to where it was. */
  lemma FullCircle(visible: nat, count: nat)
    requires visible < count
    ensures Advance(visible, count, count) == visible
  {
    AdvanceWithinRound(visible, count, count);
  }

  class FeaturedCarousel {
    var pages: seq<Page>
    var visiblePage: nat
    /** The page index of every `scroll_to` asked of the paginator, in order. */
    var scrolls: seq<nat>

    /** The visible page is a page of the carousel, or page 0 while it has none. */
    ghost predicate Valid()
      reads this
    {
      if pages == [] then visiblePage == 0 else visiblePage < |pages|
    }

    /** `FeaturedCarousel::new`: no pages, page 0 visible. */
    constructor ()
      ensures Valid()
      ensures pages == [] && visiblePage == 0 && scrolls == []
    {
      pages, visiblePage, scrolls := [], 0, [];
    }

    /** `add_page`: one page at the end; the visible page does not move. */
    method AddPage(title: string, rgb: string, action: Option<PageAction>)
      requires Valid()
      modifies this
      ensures Valid()
      ensures pages == old(pages) + [Page(title, rgb, action)]
      ensures visiblePage == old(visiblePage) && scrolls == old(scrolls)
    {
      pages := pages + [Page(title, rgb, action)];
    }

    /** The previous button's handler; `pages` must not be empty, as the handler indexes it. */
    method Previous()
      requires Valid() && pages != []
      modifies this
      ensures pages == old(pages) && Valid()
      ensures visiblePage == PreviousIndex(old(visiblePage), |pages|)
      ensures scrolls == old(scrolls) + [visiblePage]
    {
      if visiblePage != 0 {
        scrolls := scrolls + [visiblePage - 1];
        visiblePage := visiblePage - 1;
      } else {
        scrolls := scrolls + [|pages| - 1];
        visiblePage := |pages| - 1;
      }
    }

    /** The next button's handler; `pages` must not be empty, as the handler indexes it. */
    method Next()
      requires Valid() && pages != []
      modifies this
      ensures pages == old(pages) && Valid()
      ensures visiblePage == NextIndex(old(visiblePage), |pages|)
      ensures scrolls == old(scrolls) + [visiblePage]
    {
      if visiblePage + 1 != |pages| {
        scrolls := scrolls + [visiblePage + 1];
        visiblePage := visiblePage + 1;
      } else {
        scrolls := scrolls + [0];
        visiblePage := 0;
      }
    }

    /** The paginator's `page-changed` signal, which reports the index of one of its pages. */
    method PageChanged(index: nat)
      requires Valid() && index < |pages|
      modifies this
      ensures Valid()
      ensures visiblePage == index && pages == old(pages) && scrolls == old(scrolls)
    {
      visiblePage := index;
    }
  }
}
