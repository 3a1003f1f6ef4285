/**
 * The generic table component: a header whose sortable columns toggle the
 * sort direction and report the new configuration to the page, a body that
 * shows a loading row, an empty message or the rows, and a pagination bar
 * with the shown range, previous/next buttons and one button per page.
 */
module Table {
  import opened Types
  import opened Sorting
  import opened Seqs
  import opened Paging

  const DefaultEmptyMessage: string := "Veri bulunamadı"

  /** The sort configuration a click on column `key` produces. */
  function NextSortConfig(current: Option<SortConfig<string>>, key: string): (r: SortConfig<string>)
    ensures r.key == key
    ensures r.direction == Desc <==> current == Some(SortConfig(key, Asc))
  {
    var direction :=
      if current.Some? && current.value.key == key && current.value.direction == Asc then Desc else Asc;
    SortConfig(key, direction)
  }

  /** Two clicks on the column already sorted on return it to the configuration it had. */
  lemma ClickTwiceRestores(c: SortConfig<string>)
    ensures NextSortConfig(Some(NextSortConfig(Some(c), c.key)), c.key) == c
  {
    if c.direction == Asc {
      assert NextSortConfig(Some(c), c.key) == SortConfig(c.key, Desc);
    } else {
      assert NextSortConfig(Some(c), c.key) == SortConfig(c.key, Asc);
    }
  }

  /** A click on another column, or on the first click, always sorts ascending. */
  lemma OtherColumnStartsAscending(current: Option<SortConfig<string>>, key: string)
    requires current.None? || current.value.key != key
    ensures NextSortConfig(current, key) == SortConfig(key, Asc)
  {
  }

  /** The arrow a column header shows. */
  datatype Indicator = Up | Down | Faded

  function IndicatorOf(current: Option<SortConfig<string>>, column: string): (r: Indicator)
    ensures r == Faded <==> current.None? || current.value.key != column
    ensures r == Down <==> current == Some(SortConfig(column, Desc))
  {
    if current.Some? && current.value.key == column then
      if current.value.direction == Asc then Up
      else assert current.value.direction == Desc; Down
    else Faded
  }

  /** After a click only the clicked column shows a direction, and it is the new one. */
  lemma ClickedColumnShowsDirection(current: Option<SortConfig<string>>, key: string, column: string)
    ensures var next := Some(NextSortConfig(current, key));
      && (column != key ==> IndicatorOf(next, column) == Faded)
      && (column == key ==> IndicatorOf(next, column) == (if NextSortConfig(current, key).direction == Asc then Up else Down))
  {
  }

  /** The table's own sort state.  `hasOnSort` says whether the page passed an `onSort` callback. */
  class SortHeader {
    var sortConfig: Option<SortConfig<string>>

    constructor ()
      ensures sortConfig == None
    {
      sortConfig := None;
    }

    /**
     * `handleSort`: without a callback nothing changes and nothing is
     * emitted; otherwise the new configuration is both stored and emitted.
     */
    method HandleSort(key: string, hasOnSort: bool) returns (emitted: Option<SortConfig<string>>)
      modifies this
      ensures !hasOnSort ==> emitted == None && sortConfig == old(sortConfig)
      ensures hasOnSort ==> emitted == Some(NextSortConfig(old(sortConfig), key)) && sortConfig == emitted
    {
      if !hasOnSort {
        return None;
      }
      var direction := Asc;
      if sortConfig.Some? && sortConfig.value.key == key && sortConfig.value.direction == Asc {
        direction := Desc;
      }
      var newConfig := SortConfig(key, direction);
      sortConfig := Some(newConfig);
      emitted := Some(newConfig);
    }
  }

  /** The `pagination` prop. */
  datatype Pagination = Pagination(itemsPerPage: nat, currentPage: int, totalItems: nat)

  predicate PositivePageSize(p: Option<Pagination>) {
    p.Some? ==> p.value.itemsPerPage > 0
  }

  /** `totalPages`: the least page count that holds every item, and 0 without pagination. */
  function TotalPages(p: Option<Pagination>): (r: nat)
    requires PositivePageSize(p)
    ensures p.None? ==> r == 0
    ensures p.Some? ==> r * p.value.itemsPerPage >= p.value.totalItems
    ensures p.Some? && r > 0 ==> (r - 1) * p.value.itemsPerPage < p.value.totalItems
  {
    if p.Some? then CeilDiv(p.value.totalItems, p.value.itemsPerPage) else 0
  }

  /** With pagination there are pages exactly when there are items. */
  lemma PagesIffItems(p: Pagination)
    requires p.itemsPerPage > 0
    ensures TotalPages(Some(p)) > 0 <==> p.totalItems > 0
  {
  }

  /** The bar is shown only with pagination and at least one page. */
  predicate ShowBar(p: Option<Pagination>)
    requires PositivePageSize(p)
  {
    p.Some? && TotalPages(p) > 0
  }

  lemma ShowBarIffItems(p: Option<Pagination>)
    requires PositivePageSize(p)
    ensures ShowBar(p) <==> p.Some? && p.value.totalItems > 0
  {
    if p.Some? {
      PagesIffItems(p.value);
    }
  }

  /** The first and the last position shown in the "start - end / total" line. */
  function RangeStart(p: Pagination): int {
    (p.currentPage - 1) * p.itemsPerPage + 1
  }

  function RangeEnd(p: Pagination): int {
    var last := p.currentPage * p.itemsPerPage;
    if last < p.totalItems then last else p.totalItems
  }

  /**
   * On a page that exists the shown range is non-empty, within the items,
   * and describes exactly the rows the page's slice holds.
   */
  lemma RangeOfExistingPage<T>(p: Pagination, s: seq<T>)
    requires p.itemsPerPage > 0
    requires 1 <= p.currentPage <= TotalPages(Some(p))
    requires |s| == p.totalItems
    ensures 1 <= RangeStart(p) <= RangeEnd(p) <= p.totalItems
    ensures Page(s, p.currentPage, p.itemsPerPage) == s[RangeStart(p) - 1..RangeEnd(p)]
    ensures |Page(s, p.currentPage, p.itemsPerPage)| == RangeEnd(p) - RangeStart(p) + 1
  {
    var per, page := p.itemsPerPage, p.currentPage;
    ExistingPageStartsWithinItems(per, page, p.totalItems);
    PageContents(s, page, per);
  }

  /** The first index of an existing page is an index of the items. */
  lemma ExistingPageStartsWithinItems(per: nat, page: int, total: nat)
    requires per > 0
    requires 1 <= page <= CeilDiv(total, per)
    ensures 0 <= (page - 1) * per < total
    ensures page * per == (page - 1) * per + per
  {
    var k := CeilDiv(total, per);
    MulMono(page - 1, k - 1, per);
    MulMono(0, page - 1, per);
  }

  /** The previous button is disabled on the first page, the next button on the last. */
  predicate PrevDisabled(p: Pagination) {
    p.currentPage == 1
  }

  predicate NextDisabled(p: Pagination)
    requires p.itemsPerPage > 0
  {
    p.currentPage == TotalPages(Some(p))
  }

  /** From an existing page, an enabled arrow always leads to another existing page. */
  lemma EnabledArrowsStayInRange(p: Pagination)
    requires p.itemsPerPage > 0
    requires 1 <= p.currentPage <= TotalPages(Some(p))
    ensures !PrevDisabled(p) ==> 1 <= p.currentPage - 1 <= TotalPages(Some(p))
    ensures !NextDisabled(p) ==> 1 <= p.currentPage + 1 <= TotalPages(Some(p))
    ensures PrevDisabled(p) && NextDisabled(p) <==> TotalPages(Some(p)) == 1
  {
  }

  /** `Array.from({ length: totalPages }, (_, i) => i + 1)`: the page buttons. */
  function PageButtons(totalPages: nat): (r: seq<int>)
    ensures |r| == totalPages
    ensures forall i :: 0 <= i < |r| ==> r[i] == i + 1
    ensures forall k :: k in r <==> 1 <= k <= totalPages
  {
    var r := seq(totalPages, i => i + 1);
    ButtonsAreNumbered(r, totalPages);
    r
  }

  lemma ButtonsAreNumbered(r: seq<int>, n: nat)
    requires |r| == n && forall i :: 0 <= i < n ==> r[i] == i + 1
    ensures forall k :: k in r <==> 1 <= k <= n
  {
    forall k | 1 <= k <= n ensures k in r {
      assert r[k - 1] == k;
    }
  }

  /** What the body of the table shows. */
  datatype Body<T> = LoadingRow | EmptyRow(message: string) | DataRows(rows: seq<T>)

  /** The body for `data`, the `loading` flag and the optional `emptyMessage` prop. */
  function BodyOf<T>(data: seq<T>, loading: bool, emptyMessage: Option<string>): (r: Body<T>)
    ensures loading <==> r.LoadingRow?
    ensures r.EmptyRow? <==> !loading && data == []
    ensures r.EmptyRow? ==> r.message == (if emptyMessage.Some? then emptyMessage.value else DefaultEmptyMessage)
    ensures r.DataRows? ==> r.rows == data
  {
    if loading then LoadingRow
    else if data == [] then EmptyRow(if emptyMessage.Some? then emptyMessage.value else DefaultEmptyMessage)
    else DataRows(data)
  }
}
