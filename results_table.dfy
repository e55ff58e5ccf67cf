/** The page window of the results table: how many pages the rows fill and which rows
    one page shows. The page component computes the same window for its own state. */
module ResultsTable {
  import opened Wrappers

  /** Where JavaScript's `slice` puts a bound `i` in a sequence of length `len`: a
      negative bound counts from the end, and both ends are clamped to `0..len`. */
  function SliceBound(i: int, len: nat): (r: nat)
    ensures r <= len
    ensures 0 <= i <= len ==> r == i
  {
    if i < 0 then (if len + i < 0 then 0 else len + i)
    else if i > len then len
    else i
  }

  /** JavaScript's `slice` on a sequence, both bounds placed by `SliceBound`. */
  function JsSlice<T>(s: seq<T>, start: int, end: int): seq<T> {
    var b := SliceBound(start, |s|);
    var e := SliceBound(end, |s|);
    if b <= e then s[b..e] else []
  }

  /** The page count: the quotient of the row count by the page size, rounded up. */
  function TotalPages(len: nat, itemsPerPage: int): nat
    requires itemsPerPage > 0
  {
    (len + itemsPerPage - 1) / itemsPerPage
  }

  /** The index of the first row of a page, counting pages from 1. */
  function StartIndex(page: int, itemsPerPage: int): int {
    (page - 1) * itemsPerPage
  }

  /** The rows of one page: `itemsPerPage` rows from the page's start index, clipped to
      the data. */
  function PageSlice<T>(data: seq<T>, page: int, itemsPerPage: int): seq<T> {
    var start := StartIndex(page, itemsPerPage);
    JsSlice(data, start, start + itemsPerPage)
  }

  /** The page count is the ceiling of the quotient: the pages hold every row and the last
      page is not empty. */
  lemma TotalPagesIsCeiling(len: nat, itemsPerPage: int)
    requires itemsPerPage > 0
    ensures TotalPages(len, itemsPerPage) * itemsPerPage >= len
    ensures TotalPages(len, itemsPerPage) > 0 ==> (TotalPages(len, itemsPerPage) - 1) * itemsPerPage < len
    ensures TotalPages(len, itemsPerPage) == 0 <==> len == 0
  {
    var n := len + itemsPerPage - 1;
    var t := n / itemsPerPage;
    var r := n % itemsPerPage;
    assert n == t * itemsPerPage + r && 0 <= r < itemsPerPage;
    assert t * itemsPerPage >= len;
    if t > 0 {
      assert (t - 1) * itemsPerPage == t * itemsPerPage - itemsPerPage;
    }
  }

  /** 95 rows at 10 per page fill 10 pages. */
  lemma NinetyFiveRows()
    ensures TotalPages(95, 10) == 10
  {
  }

  /** Page 3 at 10 per page shows rows 20 to 29. */
  lemma ThirdPage<T>(data: seq<T>)
    requires |data| >= 30
    ensures StartIndex(3, 10) == 20
    ensures PageSlice(data, 3, 10) == data[20..30]
  {
  }

  /** Whatever the page number, even one out of range, a page holds at most
      `itemsPerPage` rows. */
  lemma PageSliceBounded<T>(data: seq<T>, page: int, itemsPerPage: int)
    requires itemsPerPage > 0
    ensures |PageSlice(data, page, itemsPerPage)| <= itemsPerPage
  {
  }

  /** A page in range holds the rows from its start index up to the next page's start or
      the end of the data, and is not empty. */
  lemma PageInRange<T>(data: seq<T>, page: int, itemsPerPage: int)
    requires itemsPerPage > 0
    requires 1 <= page <= TotalPages(|data|, itemsPerPage)
    ensures var s := (page - 1) * itemsPerPage;
      0 <= s < |data| &&
      PageSlice(data, page, itemsPerPage) == data[s..if s + itemsPerPage <= |data| then s + itemsPerPage else |data|]
    ensures PageSlice(data, page, itemsPerPage) != []
  {
    TotalPagesIsCeiling(|data|, itemsPerPage);
    var t := TotalPages(|data|, itemsPerPage);
    assert (page - 1) * itemsPerPage <= (t - 1) * itemsPerPage;
    assert (page - 1) * itemsPerPage >= 0;
  }

  /** Pages 1 to `n`, one after the other. */
  function Pages<T>(data: seq<T>, itemsPerPage: int, n: nat): seq<T> {
    if n == 0 then [] else Pages(data, itemsPerPage, n - 1) + PageSlice(data, n, itemsPerPage)
  }

  /** A window of `k` rows from a start `s` inside the data is clipped at its end; one
      from beyond the data is empty. */
  lemma JsSliceWindow<T>(data: seq<T>, s: nat, k: nat)
    ensures s <= |data| ==> JsSlice(data, s, s + k) == data[s..if s + k <= |data| then s + k else |data|]
    ensures s > |data| ==> JsSlice(data, s, s + k) == []
  {
    if s > |data| {
      assert SliceBound(s, |data|) == |data| == SliceBound(s + k, |data|);
    }
  }

  /** A page from 1 on starts at `s = (page - 1) * itemsPerPage` and is clipped to the data. */
  lemma PageSliceForm<T>(data: seq<T>, page: int, itemsPerPage: int, s: int)
    requires itemsPerPage > 0 && page >= 1 && s == (page - 1) * itemsPerPage
    ensures s >= 0
    ensures s <= |data| ==>
      PageSlice(data, page, itemsPerPage) == data[s..if s + itemsPerPage <= |data| then s + itemsPerPage else |data|]
    ensures s > |data| ==> PageSlice(data, page, itemsPerPage) == []
  {
    var p: nat := page - 1;
    assert s == p * itemsPerPage;
    JsSliceWindow(data, s, itemsPerPage);
  }

  lemma {:induction false} PagesPrefix<T>(data: seq<T>, itemsPerPage: int, n: nat)
    requires itemsPerPage > 0
    ensures var e := if n * itemsPerPage <= |data| then n * itemsPerPage else |data|;
      Pages(data, itemsPerPage, n) == data[..e]
  {
    if n > 0 {
      PagesPrefix(data, itemsPerPage, n - 1);
      var s := (n - 1) * itemsPerPage;
      var t := n * itemsPerPage;
      assert s + itemsPerPage == t;
      PageSliceForm(data, n, itemsPerPage, s);
      var e := if t <= |data| then t else |data|;
      if s <= |data| {
        assert data[..s] + data[s..e] == data[..e];
      }
    }
  }

  /** Reading pages 1 to `totalPages` in order gives back every row exactly once. */
  lemma PagesCoverData<T>(data: seq<T>, itemsPerPage: int)
    requires itemsPerPage > 0
    ensures Pages(data, itemsPerPage, TotalPages(|data|, itemsPerPage)) == data
  {
    TotalPagesIsCeiling(|data|, itemsPerPage);
    PagesPrefix(data, itemsPerPage, TotalPages(|data|, itemsPerPage));
  }

  // ---------------------------------------------------------------- the rendered table

  /** A result row: its keys in `Object.keys` order with their values. */
  type Row<V> = seq<(string, V)>

  function Keys<V>(row: Row<V>): (ks: seq<string>)
    ensures |ks| == |row|
    ensures forall i :: 0 <= i < |row| ==> ks[i] == row[i].0
  {
    seq(|row|, i requires 0 <= i < |row| => row[i].0)
  }

  /** What the table shows: the column headers, the page count and the rows of the page. */
  datatype View<V> = View(columns: seq<string>, totalPages: nat, rows: seq<Row<V>>)

  /** `ResultsTable`: nothing for no rows, else the keys of the first row as columns and
      the rows of the current page. */
  function Render<V>(data: seq<Row<V>>, currentPage: int, itemsPerPage: int): (r: Option<View<V>>)
    requires itemsPerPage > 0
    ensures r.None? <==> data == []
    ensures r.Some? ==>
      (r.value.columns == Keys(data[0]) &&
       r.value.totalPages == TotalPages(|data|, itemsPerPage) &&
       r.value.rows == PageSlice(data, currentPage, itemsPerPage))
  {
    if |data| == 0 then None
    else Some(View(Keys(data[0]), TotalPages(|data|, itemsPerPage), PageSlice(data, currentPage, itemsPerPage)))
  }

  /** The table shows at least one row on every page from 1 to its page count. */
  lemma RenderedPageNonEmpty<V>(data: seq<Row<V>>, currentPage: int, itemsPerPage: int)
    requires itemsPerPage > 0
    requires Render(data, currentPage, itemsPerPage).Some?
    requires 1 <= currentPage <= Render(data, currentPage, itemsPerPage).value.totalPages
    ensures 0 < |Render(data, currentPage, itemsPerPage).value.rows| <= itemsPerPage
  {
    PageInRange(data, currentPage, itemsPerPage);
    PageSliceBounded(data, currentPage, itemsPerPage);
  }
}
