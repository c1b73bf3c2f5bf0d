// The provider registry's API list page: the status chips, the search box,
// the "Showing a to b of n" line and the pager with First / Previous, a
// window of at most five pages with shortcuts to the ends, and Next / Last.
// React state is modelled as a value that each handler maps to its successor.
module ApisPage {
  import opened Wrappers
  import opened PageStrip

  const PAGE_SIZE: int := 12
  const MAX_VISIBLE_PAGES: int := 5

  /** The page's state: the search box text, the search the list was last
    * asked for, whether the 300 ms debounce timer is pending, the status
    * filter and the current page. */
  datatype ViewState = ViewState(search: string, debouncedSearch: string, timerPending: bool,
                                 statusFilter: string, currentPage: int)

  /** `handleStatusChip`: the pressed chip becomes the filter, or clears it
    * when it already is the filter; either way the list restarts at page 0. */
  function StatusChip(st: ViewState, value: string): (r: ViewState)
    ensures r.currentPage == 0 && r.search == st.search
    ensures r.debouncedSearch == st.debouncedSearch && r.timerPending == st.timerPending
    ensures r.statusFilter == "" <==> value == st.statusFilter || value == ""
    ensures r.statusFilter != "" ==> r.statusFilter == value
  {
    st.(statusFilter := if value == st.statusFilter then "" else value, currentPage := 0)
  }

  /** `setSearch`: React re-renders only when the text changes, and then the
    * debounce effect on `[search]` clears the pending timer and starts a new one. */
  function SetSearch(st: ViewState, text: string): (r: ViewState)
    ensures r.search == text && r.debouncedSearch == st.debouncedSearch
    ensures r.statusFilter == st.statusFilter && r.currentPage == st.currentPage
    ensures r.timerPending <==> st.timerPending || text != st.search
  {
    if text == st.search then st else st.(search := text, timerPending := true)
  }

  /** Escape in the search box and the clear button both empty the search. */
  function ClearSearch(st: ViewState): (r: ViewState)
    ensures r == SetSearch(st, "")
    ensures r.search == "" && r.statusFilter == st.statusFilter && r.currentPage == st.currentPage
  {
    st.(search := "", timerPending := st.timerPending || st.search != "")
  }

  /** The debounce timer firing: the list is asked for the current search
    * and goes back to page 0. */
  function DebounceFires(st: ViewState): (r: ViewState)
    ensures !r.timerPending && r.search == st.search && r.statusFilter == st.statusFilter
    ensures st.timerPending ==> r.debouncedSearch == st.search && r.currentPage == 0
    ensures !st.timerPending ==> r == st
  {
    if st.timerPending then st.(debouncedSearch := st.search, timerPending := false, currentPage := 0) else st
  }

  /** The window [start, end] of page buttons around the current page. */
  function VisibleWindow(currentPage: int, totalPages: int): (int, int)
  {
    var start0 := if currentPage - MAX_VISIBLE_PAGES / 2 > 0 then currentPage - MAX_VISIBLE_PAGES / 2 else 0;
    var end := if totalPages - 1 < start0 + MAX_VISIBLE_PAGES - 1 then totalPages - 1 else start0 + MAX_VISIBLE_PAGES - 1;
    var start := if end - start0 < MAX_VISIBLE_PAGES - 1 then
                   (if end - MAX_VISIBLE_PAGES + 1 > 0 then end - MAX_VISIBLE_PAGES + 1 else 0)
                 else start0;
    (start, end)
  }

  /** The window as the page computes it: centred on the current page, then
    * moved back when it runs past the last page. */
  method Window(currentPage: int, totalPages: int) returns (startPage: int, endPage: int)
    ensures (startPage, endPage) == VisibleWindow(currentPage, totalPages)
  {
    startPage := if currentPage - MAX_VISIBLE_PAGES / 2 > 0 then currentPage - MAX_VISIBLE_PAGES / 2 else 0;
    endPage := if totalPages - 1 < startPage + MAX_VISIBLE_PAGES - 1 then totalPages - 1
               else startPage + MAX_VISIBLE_PAGES - 1;
    if endPage - startPage < MAX_VISIBLE_PAGES - 1 {
      startPage := if endPage - MAX_VISIBLE_PAGES + 1 > 0 then endPage - MAX_VISIBLE_PAGES + 1 else 0;
    }
  }

  /** The pager's middle part, pushed item by item as the page does: the
    * first-page shortcut and an ellipsis, the window, then an ellipsis and
    * the last-page shortcut. */
  method PageItems(currentPage: int, totalPages: int) returns (items: seq<Item>)
    ensures var (s, e) := VisibleWindow(currentPage, totalPages);
      items == Strip(s, e, totalPages, currentPage)
  {
    var startPage, endPage := Window(currentPage, totalPages);
    items := [];
    if startPage > 0 {
      items := items + [PageButton(0, false)];
      if startPage > 1 {
        items := items + [Ellipsis];
      }
    }
    items := PushWindow(items, startPage, endPage, currentPage);
    if endPage < totalPages - 1 {
      if endPage < totalPages - 2 {
        items := items + [Ellipsis];
      }
      items := items + [PageButton(totalPages - 1, false)];
    }
  }

  /** The for-loop over the window, pushing one button per page. */
  method PushWindow(items0: seq<Item>, startPage: int, endPage: int, currentPage: int) returns (items: seq<Item>)
    ensures items == items0 + Buttons(Range(startPage, endPage + 1), currentPage)
  {
    items := items0;
    var i := startPage;
    while i <= endPage
      invariant startPage <= i && (i <= endPage + 1 || i == startPage)
      invariant items == items0 + Buttons(Range(startPage, i), currentPage)
    {
      RangeSnoc(startPage, i);
      ButtonsSnoc(Range(startPage, i), i, currentPage);
      items := items + [PageButton(i, i == currentPage)];
      i := i + 1;
    }
  }

  /** The pager: the page each button moves to, `None` when it is disabled. */
  datatype Pager = Pager(first: Option<int>, prev: Option<int>, strip: seq<Item>,
                         next: Option<int>, last: Option<int>)

  function Controls(currentPage: int, totalPages: int): (r: Option<Pager>)
    ensures r.None? <==> totalPages <= 1
    ensures r.Some? ==> (r.value.first.Some? <==> currentPage != 0) && (r.value.prev.Some? <==> currentPage != 0)
    ensures r.Some? ==> (r.value.next.Some? <==> currentPage < totalPages - 1)
                        && (r.value.last.Some? <==> currentPage < totalPages - 1)
  {
    if totalPages <= 1 then None
    else
      var (s, e) := VisibleWindow(currentPage, totalPages);
      var back := currentPage != 0;
      var forward := currentPage < totalPages - 1;
      Some(Pager(if back then Some(0) else None,
                 if back then Some(if currentPage - 1 > 0 then currentPage - 1 else 0) else None,
                 Strip(s, e, totalPages, currentPage),
                 if forward then Some(if totalPages - 1 < currentPage + 1 then totalPages - 1 else currentPage + 1) else None,
                 if forward then Some(totalPages - 1) else None))
  }

  /** "Showing first to last of totalElements". */
  function Showing(shown: int, currentPage: int, pageSize: int, totalElements: int): (int, int)
  {
    (if shown > 0 then currentPage * pageSize + 1 else 0,
     if (currentPage + 1) * pageSize < totalElements then (currentPage + 1) * pageSize else totalElements)
  }

  /** What `loadApis` keeps of a page response: the server's totalPages
    * unless missing or 0 (JavaScript's `||`), else the pages the element
    * count needs; the total is totalElements, else total, else 0. A failed
    * call (`None`) leaves no pages and no entries. */
  datatype Totals = Totals(totalPages: int, totalElements: int)

  function Truthy(v: Option<int>): bool
  {
    v.Some? && v.value != 0
  }

  function LoadedTotals(response: Option<(Option<int>, Option<int>, Option<int>)>): (r: Totals)
  {
    if response.None? then Totals(0, 0)
    else
      var (totalPages, totalElements, total) := response.value;
      var elements := if Truthy(totalElements) then totalElements.value else 0;
      Totals(if Truthy(totalPages) then totalPages.value else CeilDiv(elements, PAGE_SIZE),
             if Truthy(totalElements) then totalElements.value else if Truthy(total) then total.value else 0)
  }

  /** `Math.ceil(n / d)` for a positive d. */
  function CeilDiv(n: int, d: int): (r: int)
    requires d > 0
    ensures (r - 1) * d < n <= r * d
  {
    if n % d == 0 then n / d else n / d + 1
  }

  // ---------------------------------------------------------------- properties

  /** Pressing the same chip twice gives back the filter it started from,
    * when that was no filter or this chip. */
  lemma ChipTwice(st: ViewState, value: string)
    requires value != "" && (st.statusFilter == "" || st.statusFilter == value)
    ensures StatusChip(StatusChip(st, value), value) == st.(currentPage := 0)
  {
  }

  /** Clearing a non-empty search keeps the page only until the debounce
    * timer fires: then the list is asked for the empty search from page 0.
    * Clearing an already empty search with no timer pending changes nothing. */
  lemma ClearSearchSettles(st: ViewState)
    ensures var r := DebounceFires(ClearSearch(st));
      r.search == "" && r.statusFilter == st.statusFilter &&
      (st.search != "" || st.timerPending ==> r.debouncedSearch == "" && r.currentPage == 0) &&
      (st.search == "" && !st.timerPending ==> r == st)
  {
  }

  /** Typing settles to the typed search on page 0, whatever came before. */
  lemma TypedSearchSettles(st: ViewState, text: string)
    requires text != st.search
    ensures var r := DebounceFires(SetSearch(st, text));
      r == st.(search := text, debouncedSearch := text, timerPending := false, currentPage := 0)
  {
  }

  /** The window lies inside the pages, spans at most five of them, exactly
    * five when there are that many, all of them otherwise, and holds the
    * current page whenever that page exists. */
  lemma WindowRules(currentPage: int, totalPages: int)
    requires totalPages >= 1
    ensures var (s, e) := VisibleWindow(currentPage, totalPages);
      && 0 <= s <= e <= totalPages - 1
      && e - s + 1 <= MAX_VISIBLE_PAGES
      && (totalPages >= MAX_VISIBLE_PAGES ==> e - s + 1 == MAX_VISIBLE_PAGES)
      && (totalPages < MAX_VISIBLE_PAGES ==> s == 0 && e == totalPages - 1)
      && (0 <= currentPage < totalPages ==> s <= currentPage <= e)
  {
  }

  /** With more than one page, page n has a button exactly when it is the
    * first, the last or in the window; the current page alone is
    * highlighted; the shortcuts and ellipses follow the window's ends. */
  lemma ControlsShow(currentPage: int, totalPages: int)
    requires 1 < totalPages && 0 <= currentPage < totalPages
    ensures var (s, e) := VisibleWindow(currentPage, totalPages);
      var strip := Controls(currentPage, totalPages).value.strip;
      && (forall n :: Shown(strip, n) <==> n == 0 || s <= n <= e || n == totalPages - 1)
      && (forall n :: PageButton(n, true) in strip <==> n == currentPage)
      && (Ellipsis in strip <==> s > 1 || e < totalPages - 2)
  {
    WindowRules(currentPage, totalPages);
    var (s, e) := VisibleWindow(currentPage, totalPages);
    StripShows(s, e, totalPages, currentPage);
  }

  /** Every enabled button moves to an existing page; Previous and Next move
    * by one. */
  lemma NavigationClamped(currentPage: int, totalPages: int)
    requires 1 < totalPages && 0 <= currentPage < totalPages
    ensures var c := Controls(currentPage, totalPages).value;
      && (c.first.Some? ==> c.first.value == 0)
      && (c.prev.Some? ==> c.prev.value == currentPage - 1 && 0 <= c.prev.value)
      && (c.next.Some? ==> c.next.value == currentPage + 1 && c.next.value < totalPages)
      && (c.last.Some? ==> c.last.value == totalPages - 1)
  {
  }

  /** On a page holding the entries it should (pageSize of them, fewer on
    * the last page), the line names exactly the entries shown. */
  lemma ShowingCountsEntries(shown: int, currentPage: int, pageSize: int, totalElements: int)
    requires currentPage >= 0 && pageSize >= 1 && currentPage * pageSize < totalElements
    requires shown == (if totalElements - currentPage * pageSize < pageSize then totalElements - currentPage * pageSize
                       else pageSize)
    ensures var (first, last) := Showing(shown, currentPage, pageSize, totalElements);
      1 <= first <= last <= totalElements && last - first + 1 == shown
  {
  }

  /** An empty page reads "Showing 0 to ..."; the last number never passes
    * the total. */
  lemma ShowingBounds(shown: int, currentPage: int, pageSize: int, totalElements: int)
    ensures Showing(shown, currentPage, pageSize, totalElements).1 <= totalElements
    ensures shown <= 0 ==> Showing(shown, currentPage, pageSize, totalElements).0 == 0
  {
  }

  /** Without a page count from the server the count is what the total
    * needs at twelve entries a page: every entry falls on one of them and
    * none is empty. */
  lemma LoadedPagesCover(totalElements: int)
    requires totalElements > 0
    ensures var t := LoadedTotals(Some((None, Some(totalElements), None)));
      && t.totalElements == totalElements
      && (t.totalPages - 1) * PAGE_SIZE < totalElements <= t.totalPages * PAGE_SIZE
  {
  }

  /** A server page count wins over the element count, and a failed call
    * shows no pager. */
  lemma LoadedTotalsRules(totalPages: int, totalElements: Option<int>, total: Option<int>)
    requires totalPages != 0
    ensures LoadedTotals(Some((Some(totalPages), totalElements, total))).totalPages == totalPages
    ensures Controls(0, LoadedTotals(None).totalPages).None?
  {
  }
}
