/**
 * `PaginatedView` (`LR2/view/pagination.py`): the page state of the roster's table (page size,
 * current page, number of items), the four navigation buttons, the page-size entry and the
 * rule that enables each button. The widgets are left out; `update_view`, which a subclass
 * supplies, is counted as a refresh.
 */
module Pagination {
  import opened Wrappers
  import opened Numbers

  /** `max(1, (total_items + page_size - 1) // page_size)`; `//` floors, as Dafny's `/` does for a positive divisor. */
  function TotalPages(totalItems: int, pageSize: int): int
    requires pageSize > 0
  {
    var pages := (totalItems + pageSize - 1) / pageSize;
    if pages > 1 then pages else 1
  }

  /**
   * The number of pages is the least positive count of pages of `pageSize` items that holds
   * every item: at least one page, enough room, and one page fewer would not do.
   */
  lemma TotalPagesLeast(totalItems: int, pageSize: int)
    requires pageSize > 0
    ensures TotalPages(totalItems, pageSize) >= 1
    ensures TotalPages(totalItems, pageSize) * pageSize >= totalItems
    ensures TotalPages(totalItems, pageSize) == 1 || (TotalPages(totalItems, pageSize) - 1) * pageSize < totalItems
  {
    var q := (totalItems + pageSize - 1) / pageSize;
    var r := (totalItems + pageSize - 1) % pageSize;
    assert totalItems + pageSize - 1 == q * pageSize + r && 0 <= r < pageSize;
    assert (q - 1) * pageSize == q * pageSize - pageSize;
    if q <= 1 {
      assert q * pageSize <= pageSize;
      assert 1 * pageSize == pageSize;
    }
  }

  /** A roster that fits one page has one page. */
  lemma OnePage(totalItems: int, pageSize: int)
    requires pageSize > 0 && totalItems <= pageSize
    ensures TotalPages(totalItems, pageSize) == 1
  {
    TotalPagesLeast(totalItems, pageSize);
    EveryExtraPageFull(TotalPages(totalItems, pageSize), pageSize);
  }

  /** More than one page of `size` items holds at least `size` items before the last. */
  lemma EveryExtraPageFull(pages: int, size: int)
    requires pages >= 1 && size > 0
    ensures pages == 1 || (pages - 1) * size >= size
  {
  }

  /** The four navigation buttons. */
  datatype Move = First | Prev | Next | Last

  /** The page a button leads to from `current` when there are `pages` pages. */
  function Target(move: Move, current: int, pages: int): int {
    match move
    case First => 1
    case Prev => if current > 1 then current - 1 else current
    case Next => if current < pages then current + 1 else current
    case Last => pages
  }

  /** What `_update_pagination_controls` shows: the page label's numbers and which buttons are enabled. */
  datatype Controls = Controls(page: int, pages: int, prev: bool, next: bool, first: bool, last: bool)

  /** The controls for page `current` of `pages`. */
  function ControlsFor(current: int, pages: int): Controls {
    Controls(current, pages, current > 1, current < pages, current > 1, current < pages)
  }

  /** Whether the button for `move` is enabled. */
  function Enabled(c: Controls, move: Move): bool {
    match move
    case First => c.first
    case Prev => c.prev
    case Next => c.next
    case Last => c.last
  }

  /** On a page in range, every button leads to a page in range. */
  lemma {:induction false} TargetInRange(move: Move, current: int, pages: int)
    requires 1 <= current <= pages
    ensures 1 <= Target(move, current, pages) <= pages
  {
    match move
    case First =>
    case Prev =>
    case Next =>
    case Last =>
  }

  /** On a page in range, a button is enabled exactly when pressing it changes the page. */
  lemma {:induction false} EnabledIffMoves(move: Move, current: int, pages: int)
    requires 1 <= current <= pages
    ensures Enabled(ControlsFor(current, pages), move) <==> Target(move, current, pages) != current
  {
    match move
    case First =>
    case Prev =>
    case Next =>
    case Last =>
  }

  /** Moving on a page and back returns to it, away from the last page. */
  lemma NextThenPrev(current: int, pages: int)
    requires 1 <= current < pages
    ensures Target(Prev, Target(Next, current, pages), pages) == current
  {
  }

  /** What `_change_page_size` did with the entry's text. */
  datatype PageSizeOutcome =
    | Resized       // a positive integer: the page size changed and the view went back to page 1
    | NotPositive   // an integer that is not positive: an error is shown
    | NotANumber    // `int` raised `ValueError`: an error is shown

  class PaginatedView {
    var pageSize: int
    var currentPage: int
    var totalItems: int
    /** How many times `update_view` was called. */
    var refreshes: nat

    /** The page size is positive: it starts at 10 and only a positive value replaces it. */
    predicate Valid()
      reads this
    {
      pageSize > 0
    }

    /** The current page is one of the pages. */
    predicate InRange()
      reads this
    {
      Valid() && 1 <= currentPage <= Pages()
    }

    /** `total_pages` for the current state. */
    function Pages(): int
      reads this
      requires Valid()
    {
      TotalPages(totalItems, pageSize)
    }

    /** Ten items per page, on page 1 of an empty table. */
    constructor()
      ensures pageSize == 10 && currentPage == 1 && totalItems == 0 && refreshes == 0
      ensures InRange()
    {
      pageSize := 10;
      currentPage := 1;
      totalItems := 0;
      refreshes := 0;
    }

    /** `update_view`: the subclass redraws the table; here only the count of refreshes changes. */
    method UpdateView()
      modifies this
      ensures refreshes == old(refreshes) + 1
      ensures pageSize == old(pageSize) && currentPage == old(currentPage) && totalItems == old(totalItems)
    {
      refreshes := refreshes + 1;
    }

    /** `_update_pagination_controls`: the label and the enabled buttons for the current page; nothing changes. */
    method UpdatePaginationControls() returns (c: Controls)
      requires Valid()
      ensures c == ControlsFor(currentPage, Pages())
      ensures c.prev == c.first && c.next == c.last
      ensures c.pages >= 1
    {
      var pages := (totalItems + pageSize - 1) / pageSize;
      if pages < 1 {
        pages := 1;
      }
      TotalPagesLeast(totalItems, pageSize);
      c := Controls(currentPage, pages, currentPage > 1, currentPage < pages, currentPage > 1, currentPage < pages);
    }

    /** `first_page`: to page 1, refreshing only when the page changed. */
    method FirstPage()
      requires Valid()
      modifies this
      ensures Valid()
      ensures currentPage == Target(First, old(currentPage), old(Pages()))
      ensures pageSize == old(pageSize) && totalItems == old(totalItems)
      ensures refreshes == old(refreshes) + (if currentPage != old(currentPage) then 1 else 0)
      ensures old(InRange()) ==> InRange()
    {
      if currentPage != 1 {
        currentPage := 1;
        UpdateView();
      }
    }

    /** `last_page`: to the last page, refreshing only when the page changed. */
    method LastPage()
      requires Valid()
      modifies this
      ensures Valid()
      ensures currentPage == Target(Last, old(currentPage), old(Pages()))
      ensures pageSize == old(pageSize) && totalItems == old(totalItems)
      ensures refreshes == old(refreshes) + (if currentPage != old(currentPage) then 1 else 0)
      ensures InRange()
    {
      var pages := (totalItems + pageSize - 1) / pageSize;
      if pages < 1 {
        pages := 1;
      }
      TotalPagesLeast(totalItems, pageSize);
      if currentPage != pages {
        currentPage := pages;
        UpdateView();
      }
    }

    /** `prev_page`: one page back unless on page 1, refreshing only when the page changed. */
    method PrevPage()
      requires Valid()
      modifies this
      ensures Valid()
      ensures currentPage == Target(Prev, old(currentPage), old(Pages()))
      ensures pageSize == old(pageSize) && totalItems == old(totalItems)
      ensures refreshes == old(refreshes) + (if currentPage != old(currentPage) then 1 else 0)
      ensures old(InRange()) ==> InRange()
    {
      if currentPage > 1 {
        currentPage := currentPage - 1;
        UpdateView();
      }
    }

    /** `next_page`: one page on unless on the last page, refreshing only when the page changed. */
    method NextPage()
      requires Valid()
      modifies this
      ensures Valid()
      ensures currentPage == Target(Next, old(currentPage), old(Pages()))
      ensures pageSize == old(pageSize) && totalItems == old(totalItems)
      ensures refreshes == old(refreshes) + (if currentPage != old(currentPage) then 1 else 0)
      ensures old(InRange()) ==> InRange()
    {
      var pages := (totalItems + pageSize - 1) / pageSize;
      if pages < 1 {
        pages := 1;
      }
      if currentPage < pages {
        currentPage := currentPage + 1;
        UpdateView();
      }
    }

    /**
     * `_change_page_size`, with the entry's text: a positive integer becomes the page size and
     * the view returns to page 1 and refreshes; anything else changes nothing.
     */
    method ChangePageSize(entry: string) returns (outcome: PageSizeOutcome)
      requires Valid()
      modifies this
      ensures Valid()
      ensures outcome == NotANumber <==> ParseInt(entry).None?
      ensures outcome == Resized <==> ParseInt(entry).Some? && ParseInt(entry).value > 0
      ensures outcome == Resized ==>
                pageSize == ParseInt(entry).value && currentPage == 1 && totalItems == old(totalItems)
                && refreshes == old(refreshes) + 1 && InRange()
      ensures outcome != Resized ==>
                pageSize == old(pageSize) && currentPage == old(currentPage) && totalItems == old(totalItems)
                && refreshes == old(refreshes)
    {
      var n := ParseInt(entry);
      if n.None? {
        return NotANumber;
      }
      if n.value > 0 {
        pageSize := n.value;
        currentPage := 1;
        TotalPagesLeast(totalItems, pageSize);
        UpdateView();
        return Resized;
      }
      return NotPositive;
    }
  }
}
