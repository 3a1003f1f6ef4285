/**
 * The inventory page: a search box and a category filter over the stock
 * items, a sortable table of ten rows per page, and the add, edit and delete
 * dialogs that call the store.
 */
module Inventory {
  import opened Types
  import opened Text
  import opened Seqs
  import opened Sorting
  import opened Paging
  import opened Store

  const ItemsPerPage: nat := 10

  /** The sortable columns of the inventory table. */
  datatype ItemKey = ByStockCode | ByName | ByCategory | ByUnit | ByQuantity | ByPurchasePrice | BySalePrice

  /** The value the comparator reads from a column (`item[sortConfig.key]`). */
  function ColumnValue(key: ItemKey, x: StockItem): KeyValue {
    match key
    case ByStockCode => Text(x.stockCode)
    case ByName => Text(x.name)
    case ByCategory => Text(x.category)
    case ByUnit => Text(x.unit)
    case ByQuantity => Num(x.quantity)
    case ByPurchasePrice => Num(x.purchasePrice)
    case BySalePrice => Num(x.salePrice)
  }

  /** The comparator's column reader as a function value. */
  function ColumnKey(key: ItemKey): StockItem -> KeyValue {
    x => ColumnValue(key, x)
  }

  /** The search box: the lower-cased query occurs in the name, the stock code or a present description. */
  predicate SearchMatches(x: StockItem, search: string) {
    var q := Lower(search);
    || Contains(Lower(x.name), q)
    || Contains(Lower(x.stockCode), q)
    || (Truthy(x.description) && Contains(Lower(x.description.value), q))
  }

  /** The category filter: empty keeps everything, otherwise the exact category name. */
  predicate CategoryMatches(x: StockItem, categoryFilter: string) {
    categoryFilter == "" || x.category == categoryFilter
  }

  predicate ItemMatches(x: StockItem, search: string, categoryFilter: string) {
    SearchMatches(x, search) && CategoryMatches(x, categoryFilter)
  }

  /**
   * The search filter followed by the category filter: an order-preserving
   * subsequence of the items that keeps exactly (and with every copy) the
   * items matching both.
   */
  function FilterItems(items: seq<StockItem>, search: string, categoryFilter: string): (r: seq<StockItem>)
    ensures IsSubsequence(r, items)
    ensures forall i :: 0 <= i < |r| ==> ItemMatches(r[i], search, categoryFilter)
    ensures forall x :: ItemMatches(x, search, categoryFilter) ==> multiset(r)[x] == multiset(items)[x]
    ensures forall x :: x in r <==> x in items && ItemMatches(x, search, categoryFilter)
  {
    var p := (x: StockItem) => SearchMatches(x, search);
    var q := (x: StockItem) => CategoryMatches(x, categoryFilter);
    var pq := (x: StockItem) => ItemMatches(x, search, categoryFilter);
    FilterFilter(items, p, q, pq);
    Filter(Filter(items, p), q)
  }

  /** The empty query occurs in every text, so with no category the filter keeps every item. */
  lemma EmptyFiltersKeepAll(items: seq<StockItem>)
    ensures FilterItems(items, "", "") == items
  {
    var p := (x: StockItem) => SearchMatches(x, "");
    var q := (x: StockItem) => CategoryMatches(x, "");
    var pq := (x: StockItem) => ItemMatches(x, "", "");
    FilterFilter(items, p, q, pq);
    forall i | 0 <= i < |items| ensures pq(items[i]) {
      assert IsPrefix(Lower(""), Lower(items[i].name));
    }
    FilterKeepsAll(items, pq);
  }

  /**
   * A query that occurs (case-insensitively) in an item's description alone
   * still finds the item; an item in which it occurs nowhere is not shown.
   */
  lemma DescriptionSearchFindsItem(items: seq<StockItem>, x: StockItem, search: string, i: int)
    requires x in items
    requires Truthy(x.description) && OccursAt(Lower(x.description.value), Lower(search), i)
    ensures x in FilterItems(items, search, "")
  {
    ContainsIffOccurs(Lower(x.description.value), Lower(search));
    assert ItemMatches(x, search, "");
    assert multiset(FilterItems(items, search, ""))[x] == multiset(items)[x];
  }

  /** `[...items].sort(...)` by one column: a permutation, ordered by the column in the chosen direction. */
  function SortItems(items: seq<StockItem>, config: SortConfig<ItemKey>): (r: seq<StockItem>)
    ensures multiset(r) == multiset(items)
    ensures Sorted(r, ColumnKey(config.key), config.direction)
  {
    Sort(items, ColumnKey(config.key), config.direction)
  }

  /**
   * Filter, then sort, then slice out page `page` of ten.  The page count is
   * the least number of ten-row pages that holds every filtered item; a page
   * from 1 on has at most ten rows, a page past the last is empty, and every
   * row is a matching item in sort order.
   */
  function InventoryView(items: seq<StockItem>, search: string, categoryFilter: string,
                         config: SortConfig<ItemKey>, page: int): (v: Listing<StockItem>)
    ensures v.totalItems == |FilterItems(items, search, categoryFilter)| <= |items|
    ensures v.rows == Page(SortItems(FilterItems(items, search, categoryFilter), config), page, ItemsPerPage)
    ensures v.totalPages * ItemsPerPage >= v.totalItems
    ensures v.totalPages > 0 ==> (v.totalPages - 1) * ItemsPerPage < v.totalItems
    ensures page >= 1 ==> |v.rows| <= ItemsPerPage
    ensures page > v.totalPages ==> v.rows == []
    ensures forall x :: x in v.rows ==> x in items && ItemMatches(x, search, categoryFilter)
    ensures Sorted(v.rows, ColumnKey(config.key), config.direction)
  {
    var filtered := FilterItems(items, search, categoryFilter);
    var sorted := SortItems(filtered, config);
    var totalPages := CeilDiv(|sorted|, ItemsPerPage);
    var rows := Page(sorted, page, ItemsPerPage);
    PageOfSorted(filtered, sorted, ColumnKey(config.key), config.direction, page, ItemsPerPage);
    Listing(|sorted|, totalPages, rows)
  }

  /** Both dialogs refuse to save without a name, a category, a unit and a stock code. */
  predicate RequiredFilled(form: ItemDraft) {
    form.name != "" && form.category != "" && form.unit != "" && form.stockCode != ""
  }

  /** The form after `resetForm`. */
  const EmptyForm := ItemDraft("", "", "", "", 0, 0, 0, 0, Some(""))

  /** The form `openEditModal` fills from an item. */
  function FormOf(x: StockItem): ItemDraft {
    ItemDraft(x.name, x.category, x.unit, x.stockCode, x.quantity, x.criticalLevel,
              x.purchasePrice, x.salePrice, x.description)
  }

  /** The edit form sent as a patch: every one of its fields is present. */
  function PatchOf(form: ItemDraft): ItemPatch {
    ItemPatch(Some(form.name), Some(form.category), Some(form.unit), Some(form.stockCode),
              Some(form.quantity), Some(form.criticalLevel), Some(form.purchasePrice),
              Some(form.salePrice), Some(form.description))
  }

  /** Saving an unedited edit form changes only the item's update stamp. */
  lemma EditUnchangedFormOnlyRestamps(x: StockItem, now: int)
    ensures ApplyPatch(x, PatchOf(FormOf(x)), now) == x.(updatedAt := now)
  {
  }

  /** What a dialog's save button led to: an alert, no selection, or a store call. */
  datatype FormOutcome = MissingRequired | NoSelection | Saved

  class InventoryPage {
    const store: AppStore
    var isAddModalOpen: bool
    var isEditModalOpen: bool
    var isDeleteModalOpen: bool
    var currentItem: Option<StockItem>
    var formData: ItemDraft
    var search: string
    var categoryFilter: string
    var sortConfig: SortConfig<ItemKey>
    var currentPage: int

    constructor (store: AppStore)
      ensures this.store == store
      ensures !isAddModalOpen && !isEditModalOpen && !isDeleteModalOpen && currentItem == None
      ensures formData == EmptyForm && search == "" && categoryFilter == ""
      ensures sortConfig == SortConfig(ByName, Asc) && currentPage == 1
    {
      this.store := store;
      isAddModalOpen, isEditModalOpen, isDeleteModalOpen := false, false, false;
      currentItem := None;
      formData := EmptyForm;
      search, categoryFilter := "", "";
      sortConfig := SortConfig(ByName, Asc);
      currentPage := 1;
    }

    /** The rows and page counts the table shows for the current state. */
    function View(): Listing<StockItem>
      reads this, store
    {
      InventoryView(store.stockItems, search, categoryFilter, sortConfig, currentPage)
    }

    /**
     * `handleAddItem`: without the required fields nothing changes;
     * otherwise exactly one item built from the form is added, the dialog
     * closes and the form is reset.
     */
    method HandleAddItem(id: string, now: int) returns (outcome: FormOutcome)
      requires store.Valid()
      requires IdUnused(store.stockItems, ItemId, id)
      modifies this, store
      ensures store.Valid()
      ensures outcome == (if RequiredFilled(old(formData)) then Saved else MissingRequired)
      ensures outcome == MissingRequired ==> unchanged(this) && unchanged(store)
      ensures outcome == Saved ==>
        && store.stockItems == old(store.stockItems) + [NewItem(old(formData), id, now)]
        && store.stockMovements == old(store.stockMovements)
        && store.categories == old(store.categories) && store.units == old(store.units)
        && !isAddModalOpen && formData == EmptyForm
        && isEditModalOpen == old(isEditModalOpen) && isDeleteModalOpen == old(isDeleteModalOpen)
        && currentItem == old(currentItem) && search == old(search) && categoryFilter == old(categoryFilter)
        && sortConfig == old(sortConfig) && currentPage == old(currentPage)
    {
      if !RequiredFilled(formData) {
        return MissingRequired;
      }
      store.AddStockItem(formData, id, now);
      isAddModalOpen := false;
      formData := EmptyForm;
      return Saved;
    }

    /**
     * `handleEditItem`: without a selected item, or without the required
     * fields, nothing changes; otherwise the selected item is patched with
     * every field of the form, the dialog closes and the form is reset.
     */
    method HandleEditItem(now: int) returns (outcome: FormOutcome)
      requires store.Valid()
      modifies this, store
      ensures store.Valid()
      ensures outcome == (if old(currentItem).None? then NoSelection
                          else if !RequiredFilled(old(formData)) then MissingRequired
                          else Saved)
      ensures outcome != Saved ==> unchanged(this) && unchanged(store)
      ensures outcome == Saved ==>
        && store.stockItems == UpdateItems(old(store.stockItems), old(currentItem).value.id, PatchOf(old(formData)), now)
        && store.stockMovements == old(store.stockMovements)
        && store.categories == old(store.categories) && store.units == old(store.units)
        && !isEditModalOpen && formData == EmptyForm
        && isAddModalOpen == old(isAddModalOpen) && isDeleteModalOpen == old(isDeleteModalOpen)
        && currentItem == old(currentItem) && search == old(search) && categoryFilter == old(categoryFilter)
        && sortConfig == old(sortConfig) && currentPage == old(currentPage)
    {
      if currentItem.None? {
        return NoSelection;
      }
      if !RequiredFilled(formData) {
        return MissingRequired;
      }
      store.UpdateStockItem(currentItem.value.id, PatchOf(formData), now);
      isEditModalOpen := false;
      formData := EmptyForm;
      return Saved;
    }

    /** `handleDeleteItem`: removes the selected item, closes the dialog and clears the selection. */
    method HandleDeleteItem()
      requires store.Valid()
      modifies this, store
      ensures old(currentItem).None? ==> unchanged(this) && unchanged(store)
      ensures old(currentItem).Some? ==>
        && store.stockItems == RemoveId(old(store.stockItems), ItemId, old(currentItem).value.id)
        && store.stockMovements == old(store.stockMovements)
        && store.categories == old(store.categories) && store.units == old(store.units)
        && !isDeleteModalOpen && currentItem == None
        && isAddModalOpen == old(isAddModalOpen) && isEditModalOpen == old(isEditModalOpen)
        && formData == old(formData) && search == old(search) && categoryFilter == old(categoryFilter)
        && sortConfig == old(sortConfig) && currentPage == old(currentPage)
      ensures store.Valid()
    {
      if currentItem.Some? {
        store.DeleteStockItem(currentItem.value.id);
        isDeleteModalOpen := false;
        currentItem := None;
      }
    }

    /** `openEditModal`: selects the item, copies its fields into the form and opens the dialog. */
    method OpenEditModal(x: StockItem)
      modifies this
      ensures currentItem == Some(x) && formData == FormOf(x) && isEditModalOpen
      ensures isAddModalOpen == old(isAddModalOpen) && isDeleteModalOpen == old(isDeleteModalOpen)
      ensures search == old(search) && categoryFilter == old(categoryFilter)
      ensures sortConfig == old(sortConfig) && currentPage == old(currentPage)
    {
      currentItem := Some(x);
      formData := FormOf(x);
      isEditModalOpen := true;
    }

    /** `openDeleteModal`: selects the item and opens the confirmation. */
    method OpenDeleteModal(x: StockItem)
      modifies this
      ensures currentItem == Some(x) && isDeleteModalOpen
      ensures isAddModalOpen == old(isAddModalOpen) && isEditModalOpen == old(isEditModalOpen)
      ensures formData == old(formData) && search == old(search) && categoryFilter == old(categoryFilter)
      ensures sortConfig == old(sortConfig) && currentPage == old(currentPage)
    {
      currentItem := Some(x);
      isDeleteModalOpen := true;
    }

    /** `handleSort`: the table's new sort request replaces the page's; the page number is kept. */
    method HandleSort(config: SortConfig<ItemKey>)
      modifies this
      ensures sortConfig == config
      ensures isAddModalOpen == old(isAddModalOpen) && isEditModalOpen == old(isEditModalOpen)
      ensures isDeleteModalOpen == old(isDeleteModalOpen) && currentItem == old(currentItem)
      ensures formData == old(formData) && search == old(search) && categoryFilter == old(categoryFilter)
      ensures currentPage == old(currentPage)
    {
      sortConfig := config;
    }
  }
}
