/**
 * The stock movement page: the entry form and its guards, the search, type
 * and date filters, the sortable movement table of ten rows per page.
 *
 * The form's type is chosen from a closed list and its date is always an
 * instant, so only the item, the quantity, the reason and the person can be
 * missing.  The date filters compare against three instants the page derives
 * from the local clock (the start of today, seven days before it and one
 * calendar month before it); they are parameters here.
 */
module Movements {
  import opened Types
  import opened Text
  import opened Seqs
  import opened Sorting
  import opened Paging
  import opened Store

  const ItemsPerPage: nat := 10

  /** The person the form is pre-filled with. */
  const DefaultPerformer := "Ahmet Yılmaz"

  /** The form after `resetForm`, dated at `now`. */
  function InitialForm(now: int): MovementDraft {
    MovementDraft("", In, 0, "", now, DefaultPerformer, Some(""))
  }

  /** What pressing save on the movement form leads to. */
  datatype MovementOutcome =
    | MissingFields
    | NonPositiveQuantity
    | ExceedsStock(available: int)
    | Accepted

  /**
   * The guards of `handleAddMovement`, in order: a required field is empty
   * (a zero quantity counts as empty); the quantity is negative; an outgoing
   * quantity is larger than the stock of the item it names.  An item id that
   * names no item passes the last guard.
   */
  function CheckMovement(form: MovementDraft, items: seq<StockItem>): (r: MovementOutcome)
    ensures r == MissingFields <==>
              form.stockItemId == "" || form.quantity == 0 || form.reason == "" || form.performedBy == ""
    ensures r == NonPositiveQuantity ==> form.quantity < 0
    ensures r.ExceedsStock? ==>
              && form.kind == Out && form.quantity > 0
              && exists k :: 0 <= k < |items| && items[k].id == form.stockItemId
                             && r.available == items[k].quantity && form.quantity > r.available
    ensures r == Accepted ==> form.quantity > 0 && form.stockItemId != "" && form.reason != "" && form.performedBy != ""
    ensures r == Accepted && form.kind == Out && FindItem(items, form.stockItemId).Some? ==>
              form.quantity <= FindItem(items, form.stockItemId).value.quantity
  {
    if form.stockItemId == "" || form.quantity == 0 || form.reason == "" || form.performedBy == "" then
      MissingFields
    else if form.quantity <= 0 then
      NonPositiveQuantity
    else
      match FindItem(items, form.stockItemId)
      case Some(selected) =>
        if form.kind == Out && form.quantity > selected.quantity then
          FindItemIsFirst(items, form.stockItemId);
          ExceedsStock(selected.quantity)
        else
          Accepted
      case None => Accepted
  }

  /**
   * A movement that passes the guards never drives a stock quantity below
   * zero: when every item's quantity is non-negative before, it still is
   * after the movement is recorded.
   */
  lemma AcceptedKeepsStockNonNegative(items: seq<StockItem>, movements: seq<StockMovement>,
                                      form: MovementDraft, id: string, now: int)
    requires UniqueIds(items, ItemId)
    requires forall k :: 0 <= k < |items| ==> items[k].quantity >= 0
    requires CheckMovement(form, items) == Accepted
    ensures var r := RecordMovement(items, movements, form, id, now);
      forall k :: 0 <= k < |r.0| ==> r.0[k].quantity >= 0
  {
    var r := RecordMovement(items, movements, form, id, now);
    forall k | 0 <= k < |r.0| ensures r.0[k].quantity >= 0 {
      if items[k].id == form.stockItemId {
        RecordMovementAdjustsQuantity(items, movements, form, id, now, k);
        FindUnique(items, k);
      }
    }
  }

  /** An outgoing movement larger than the stock is refused, never recorded with a negative result. */
  lemma OversizedOutIsRefused(items: seq<StockItem>, form: MovementDraft, k: nat)
    requires UniqueIds(items, ItemId)
    requires k < |items| && items[k].id == form.stockItemId
    requires form.kind == Out && form.quantity > items[k].quantity
    requires form.stockItemId != "" && form.reason != "" && form.performedBy != "" && form.quantity > 0
    ensures CheckMovement(form, items) == ExceedsStock(items[k].quantity)
  {
    FindUnique(items, k);
  }

  /** The type filter: every movement, or only one type. */
  datatype TypeFilter = AllTypes | OnlyType(kind: MovementType)

  /** The date filter: every movement, or those from the start of today, of the last week or of the last month on. */
  datatype DateFilter = AllDates | Today | LastWeek | LastMonth

  /** The three instants the date filter compares with. */
  datatype Thresholds = Thresholds(today: int, weekAgo: int, monthAgo: int)

  /** The search box over the item name snapshot, the reason and present notes. */
  predicate SearchMatches(m: StockMovement, search: string) {
    var q := Lower(search);
    || Contains(Lower(m.stockItemName), q)
    || Contains(Lower(m.reason), q)
    || (Truthy(m.notes) && Contains(Lower(m.notes.value), q))
  }

  predicate TypeMatches(m: StockMovement, f: TypeFilter) {
    f.AllTypes? || m.kind == f.kind
  }

  predicate DateMatches(m: StockMovement, f: DateFilter, t: Thresholds) {
    match f
    case AllDates => true
    case Today => m.date >= t.today
    case LastWeek => m.date >= t.weekAgo
    case LastMonth => m.date >= t.monthAgo
  }

  predicate MovementMatches(m: StockMovement, search: string, tf: TypeFilter, df: DateFilter, t: Thresholds) {
    SearchMatches(m, search) && TypeMatches(m, tf) && DateMatches(m, df, t)
  }

  function Matcher(search: string, tf: TypeFilter, df: DateFilter, t: Thresholds): StockMovement -> bool {
    m => MovementMatches(m, search, tf, df, t)
  }

  /** The movements that pass all three filters, in their recorded order. */
  function FilterMovements(ms: seq<StockMovement>, search: string, tf: TypeFilter, df: DateFilter, t: Thresholds)
    : (r: seq<StockMovement>)
    ensures IsSubsequence(r, ms)
    ensures forall x :: x in r <==> x in ms && MovementMatches(x, search, tf, df, t)
    ensures forall x :: MovementMatches(x, search, tf, df, t) ==> multiset(r)[x] == multiset(ms)[x]
  {
    Filter(ms, Matcher(search, tf, df, t))
  }

  /**
   * With the thresholds in time order, the date filters are nested: today's
   * movements are among the last week's, which are among the last month's,
   * which are among all, each list keeping the order of the next.
   */
  lemma DateFiltersNest(ms: seq<StockMovement>, search: string, tf: TypeFilter, t: Thresholds)
    requires t.monthAgo <= t.weekAgo <= t.today
    ensures IsSubsequence(FilterMovements(ms, search, tf, Today, t), FilterMovements(ms, search, tf, LastWeek, t))
    ensures IsSubsequence(FilterMovements(ms, search, tf, LastWeek, t), FilterMovements(ms, search, tf, LastMonth, t))
    ensures IsSubsequence(FilterMovements(ms, search, tf, LastMonth, t), FilterMovements(ms, search, tf, AllDates, t))
    ensures |FilterMovements(ms, search, tf, Today, t)| <= |FilterMovements(ms, search, tf, LastWeek, t)|
            <= |FilterMovements(ms, search, tf, LastMonth, t)| <= |FilterMovements(ms, search, tf, AllDates, t)|
  {
    FilterMonotone(ms, Matcher(search, tf, Today, t), Matcher(search, tf, LastWeek, t));
    FilterMonotone(ms, Matcher(search, tf, LastWeek, t), Matcher(search, tf, LastMonth, t));
    FilterMonotone(ms, Matcher(search, tf, LastMonth, t), Matcher(search, tf, AllDates, t));
  }

  /** For any search, the two type filters split the movements the all-types filter keeps. */
  lemma TypeFiltersPartition(ms: seq<StockMovement>, search: string, df: DateFilter, t: Thresholds)
    ensures |FilterMovements(ms, search, OnlyType(In), df, t)| + |FilterMovements(ms, search, OnlyType(Out), df, t)|
            == |FilterMovements(ms, search, AllTypes, df, t)|
  {
    var all := FilterMovements(ms, search, AllTypes, df, t);
    var isIn := (m: StockMovement) => m.kind == In;
    var isOut := (m: StockMovement) => !isIn(m);
    FilterFilter(ms, Matcher(search, AllTypes, df, t), isIn, Matcher(search, OnlyType(In), df, t));
    FilterFilter(ms, Matcher(search, AllTypes, df, t), isOut, Matcher(search, OnlyType(Out), df, t));
    FilterSplitLength(all, isIn, isOut);
  }

  /** The sortable columns of the movement table. */
  datatype MovementKey = ByDate | ByItemName | ByType | ByQuantity | ByReason | ByPerformedBy

  /** The type column compares the tags as text, so `in` comes before `out`. */
  function TypeText(k: MovementType): string {
    if k == In then "in" else "out"
  }

  /** The value the comparator reads; dates compare as instants. */
  function ColumnValue(key: MovementKey, m: StockMovement): KeyValue {
    match key
    case ByDate => Num(m.date)
    case ByItemName => Text(m.stockItemName)
    case ByType => Text(TypeText(m.kind))
    case ByQuantity => Num(m.quantity)
    case ByReason => Text(m.reason)
    case ByPerformedBy => Text(m.performedBy)
  }

  function ColumnKey(key: MovementKey): StockMovement -> KeyValue {
    m => ColumnValue(key, m)
  }

  /** Sorted newest first, each movement is at least as recent as every movement after it. */
  lemma DefaultOrderIsNewestFirst(ms: seq<StockMovement>)
    requires Sorted(ms, ColumnKey(ByDate), Desc)
    ensures forall i, j :: 0 <= i < j < |ms| ==> ms[i].date >= ms[j].date
  {
    forall i, j | 0 <= i < j < |ms| ensures ms[i].date >= ms[j].date {
      assert InOrder(ColumnKey(ByDate)(ms[i]), ColumnKey(ByDate)(ms[j]), Desc);
    }
  }

  /**
   * Filter, then sort, then slice out page `page` of ten: the page count
   * holds every filtered movement, a page has at most ten rows, a page past
   * the last is empty, and every row is a matching movement in sort order.
   */
  function MovementsView(ms: seq<StockMovement>, search: string, tf: TypeFilter, df: DateFilter, t: Thresholds,
                         config: SortConfig<MovementKey>, page: int): (v: Listing<StockMovement>)
    ensures v.totalItems == |FilterMovements(ms, search, tf, df, t)| <= |ms|
    ensures v.rows == Page(Sort(FilterMovements(ms, search, tf, df, t), ColumnKey(config.key), config.direction), page, ItemsPerPage)
    ensures v.totalPages * ItemsPerPage >= v.totalItems
    ensures v.totalPages > 0 ==> (v.totalPages - 1) * ItemsPerPage < v.totalItems
    ensures page >= 1 ==> |v.rows| <= ItemsPerPage
    ensures page > v.totalPages ==> v.rows == []
    ensures forall x :: x in v.rows ==> x in ms && MovementMatches(x, search, tf, df, t)
    ensures Sorted(v.rows, ColumnKey(config.key), config.direction)
  {
    var filtered := FilterMovements(ms, search, tf, df, t);
    var sorted := Sort(filtered, ColumnKey(config.key), config.direction);
    var totalPages := CeilDiv(|sorted|, ItemsPerPage);
    PageOfSorted(filtered, sorted, ColumnKey(config.key), config.direction, page, ItemsPerPage);
    Listing(|sorted|, totalPages, Page(sorted, page, ItemsPerPage))
  }

  class MovementPage {
    const store: AppStore
    var isModalOpen: bool
    var formData: MovementDraft
    var search: string
    var typeFilter: TypeFilter
    var dateFilter: DateFilter
    var sortConfig: SortConfig<MovementKey>
    var currentPage: int

    constructor (store: AppStore, now: int)
      ensures this.store == store
      ensures !isModalOpen && formData == InitialForm(now)
      ensures search == "" && typeFilter == AllTypes && dateFilter == AllDates
      ensures sortConfig == SortConfig(ByDate, Desc) && currentPage == 1
    {
      this.store := store;
      isModalOpen := false;
      formData := InitialForm(now);
      search := "";
      typeFilter, dateFilter := AllTypes, AllDates;
      sortConfig := SortConfig(ByDate, Desc);
      currentPage := 1;
    }

    /** The rows and page counts the table shows, against the given date thresholds. */
    function View(t: Thresholds): Listing<StockMovement>
      reads this, store
    {
      MovementsView(store.stockMovements, search, typeFilter, dateFilter, t, sortConfig, currentPage)
    }

    /**
     * `handleAddMovement`: a refused form changes nothing (the page shows an
     * alert); an accepted one is recorded by the store, the dialog closes and
     * the form is reset to a fresh one dated `now`.
     */
    method HandleAddMovement(id: string, now: int) returns (outcome: MovementOutcome)
      requires store.Valid()
      requires IdUnused(store.stockMovements, MovementId, id)
      modifies this, store
      ensures outcome == CheckMovement(old(formData), old(store.stockItems))
      ensures outcome != Accepted ==> unchanged(this) && unchanged(store)
      ensures outcome == Accepted ==>
        && (store.stockItems, store.stockMovements)
           == RecordMovement(old(store.stockItems), old(store.stockMovements), old(formData), id, now)
        && store.categories == old(store.categories) && store.units == old(store.units)
        && !isModalOpen && formData == InitialForm(now)
        && search == old(search) && typeFilter == old(typeFilter) && dateFilter == old(dateFilter)
        && sortConfig == old(sortConfig) && currentPage == old(currentPage)
      ensures store.Valid()
    {
      outcome := CheckMovement(formData, store.stockItems);
      if outcome != Accepted {
        return;
      }
      store.AddStockMovement(formData, id, now);
      isModalOpen := false;
      formData := InitialForm(now);
    }

    /** `handleSort`: the table's new sort request replaces the page's; the page number is kept. */
    method HandleSort(config: SortConfig<MovementKey>)
      modifies this
      ensures sortConfig == config
      ensures isModalOpen == old(isModalOpen) && formData == old(formData) && search == old(search)
      ensures typeFilter == old(typeFilter) && dateFilter == old(dateFilter) && currentPage == old(currentPage)
    {
      sortConfig := config;
    }
  }
}
