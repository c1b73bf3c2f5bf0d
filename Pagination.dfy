// The registry UI's shared pagination control: Prev, a first-page shortcut,
// the pages within two of the current one, a last-page shortcut and Next.
// It draws nothing for a single page.
module Pagination {
  import opened Wrappers
  import opened PageStrip

  const WINDOW: int := 2

  function WindowStart(page: int): int
  {
    if page - WINDOW > 0 then page - WINDOW else 0
  }

  function WindowEnd(page: int, totalPages: int): int
  {
    if totalPages - 1 < page + WINDOW then totalPages - 1 else page + WINDOW
  }

  /** The page numbers the loop pushes: start, start + 1, ..., end. */
  method WindowPages(page: int, totalPages: int) returns (pages: seq<int>)
    ensures pages == Range(WindowStart(page), WindowEnd(page, totalPages) + 1)
  {
    var start := if page - WINDOW > 0 then page - WINDOW else 0;
    var end := if totalPages - 1 < page + WINDOW then totalPages - 1 else page + WINDOW;
    pages := [];
    var i := start;
    while i <= end
      invariant start <= i && (i <= end + 1 || i == start)
      invariant pages == Range(start, i)
    {
      RangeSnoc(start, i);
      pages := pages + [i];
      i := i + 1;
    }
  }

  /** What the control draws: the page Prev and Next move to (`None` when
    * disabled) and the strip of page buttons between them. */
  datatype Controls = Controls(prev: Option<int>, strip: seq<Item>, next: Option<int>)

  function Render(page: int, totalPages: int): (r: Option<Controls>)
    ensures r.None? <==> totalPages <= 1
    ensures r.Some? ==> (r.value.prev.Some? <==> page > 0) && (r.value.next.Some? <==> page < totalPages - 1)
    ensures r.Some? && r.value.prev.Some? ==> r.value.prev.value == page - 1
    ensures r.Some? && r.value.next.Some? ==> r.value.next.value == page + 1
  {
    if totalPages <= 1 then None
    else
      Some(Controls(if page > 0 then Some(page - 1) else None,
                    Strip(WindowStart(page), WindowEnd(page, totalPages), totalPages, page),
                    if page < totalPages - 1 then Some(page + 1) else None))
  }

  // ---------------------------------------------------------------- properties

  /** For a page in range the window is the pages within two of it, clipped
    * to [0, totalPages - 1]; the shortcuts and ellipses answer to how far
    * the page is from either end. */
  lemma WindowRules(page: int, totalPages: int)
    requires 0 <= page < totalPages
    ensures var s, e := WindowStart(page), WindowEnd(page, totalPages);
      && 0 <= s <= page <= e < totalPages
      && e - s <= 2 * WINDOW
      && (if page >= WINDOW then s == page - WINDOW else s == 0)
      && (if page + WINDOW < totalPages then e == page + WINDOW else e == totalPages - 1)
      && (s > 0 <==> page > 2) && (s > 1 <==> page > 3)
      && (e < totalPages - 1 <==> page < totalPages - 3) && (e < totalPages - 2 <==> page < totalPages - 4)
  {
  }

  /** The control for a page in range shows page n exactly when n is the
    * first, the last or within two of the current page; only the current
    * page is highlighted; an ellipsis shows exactly when the current page
    * is more than three pages from an end. */
  lemma RenderShows(page: int, totalPages: int)
    requires 1 < totalPages && 0 <= page < totalPages
    ensures var s := Render(page, totalPages).value.strip;
      && (forall n :: Shown(s, n) <==>
            n == 0 || n == totalPages - 1 || (0 <= n < totalPages && page - WINDOW <= n <= page + WINDOW))
      && (forall n :: PageButton(n, true) in s <==> n == page)
      && (Ellipsis in s <==> page > 3 || page < totalPages - 4)
  {
    WindowRules(page, totalPages);
    StripShows(WindowStart(page), WindowEnd(page, totalPages), totalPages, page);
  }

  /** Prev and Next stay within the pages and never both disable. */
  lemma NavigationInRange(page: int, totalPages: int)
    requires 1 < totalPages && 0 <= page < totalPages
    ensures var c := Render(page, totalPages).value;
      && (c.prev.Some? || c.next.Some?)
      && (c.prev.Some? ==> 0 <= c.prev.value < totalPages)
      && (c.next.Some? ==> 0 <= c.next.value < totalPages)
  {
  }
}
