// The strip of page buttons both listing pages draw: the first page, an
// ellipsis, a window of consecutive pages, an ellipsis, the last page, the
// shortcuts and ellipses appearing only when the window does not reach the
// ends. Page numbers are 0-based; the labels show them plus one.
module PageStrip {

  datatype Item = PageButton(page: int, active: bool) | Ellipsis

  /** The integers a, a + 1, ..., b - 1. */
  function Range(a: int, b: int): (r: seq<int>)
    ensures |r| == if b <= a then 0 else b - a
    ensures forall i :: 0 <= i < |r| ==> r[i] == a + i
  {
    seq(if b <= a then 0 else b - a, i => a + i)
  }

  function Buttons(pages: seq<int>, current: int): (r: seq<Item>)
    ensures |r| == |pages|
    ensures forall i :: 0 <= i < |r| ==> r[i] == PageButton(pages[i], pages[i] == current)
  {
    seq(|pages|, i requires 0 <= i < |pages| => PageButton(pages[i], pages[i] == current))
  }

  lemma RangeSnoc(a: int, b: int)
    requires a <= b
    ensures Range(a, b + 1) == Range(a, b) + [b]
  {
    assert Range(a, b + 1)[..b - a] == Range(a, b);
  }

  lemma ButtonsSnoc(pages: seq<int>, p: int, current: int)
    ensures Buttons(pages + [p], current) == Buttons(pages, current) + [PageButton(p, p == current)]
  {
    assert Buttons(pages + [p], current)[..|pages|] == Buttons(pages, current);
  }

  function Head(start: int): seq<Item>
  {
    if start > 0 then [PageButton(0, false)] + (if start > 1 then [Ellipsis] else []) else []
  }

  function Tail(end: int, totalPages: int): seq<Item>
  {
    if end < totalPages - 1 then (if end < totalPages - 2 then [Ellipsis] else []) + [PageButton(totalPages - 1, false)]
    else []
  }

  /** Whether page `n` has a button in the strip, active or not. */
  predicate Shown(s: seq<Item>, n: int)
  {
    PageButton(n, false) in s || PageButton(n, true) in s
  }

  /** The whole strip for the window [start, end]. */
  function Strip(start: int, end: int, totalPages: int, current: int): seq<Item>
  {
    Head(start) + Buttons(Range(start, end + 1), current) + Tail(end, totalPages)
  }

  /** Within a window inside [0, totalPages - 1]: a page has a button exactly
    * when it is the first, the last or inside the window; the only active
    * button is the current page, when the window holds it; an ellipsis is
    * drawn exactly when pages are skipped at either end. */
  lemma StripShows(start: int, end: int, totalPages: int, current: int)
    requires 0 <= start <= end < totalPages
    ensures var s := Strip(start, end, totalPages, current);
      && (forall n :: Shown(s, n) <==> n == 0 || start <= n <= end || n == totalPages - 1)
      && (forall n :: PageButton(n, true) in s <==> n == current && start <= n <= end)
      && (Ellipsis in s <==> start > 1 || end < totalPages - 2)
  {
    var s := Strip(start, end, totalPages, current);
    var h, w, t := Head(start), Buttons(Range(start, end + 1), current), Tail(end, totalPages);
    assert s == h + w + t;
    forall n
      ensures Shown(s, n) <==> n == 0 || start <= n <= end || n == totalPages - 1
    {
      if start <= n <= end {
        assert w[n - start] == PageButton(n, n == current);
        assert PageButton(n, n == current) in s;
        assert Shown(s, n);
      } else if n == 0 {
        assert h[0] == PageButton(0, false);
        assert PageButton(0, false) in s;
      } else if n == totalPages - 1 {
        assert t[|t| - 1] == PageButton(totalPages - 1, false);
        assert PageButton(totalPages - 1, false) in s;
      } else {
        assert PageButton(n, false) !in w && PageButton(n, true) !in w;
      }
    }
    forall n
      ensures PageButton(n, true) in s <==> n == current && start <= n <= end
    {
      if n == current && start <= n <= end {
        assert w[n - start] == PageButton(n, true);
      }
    }
    assert Ellipsis !in w;
  }

}
