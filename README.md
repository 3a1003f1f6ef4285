# Stock tracking: a Dafny model

This project models the core of a small stock-tracking web application.
The application keeps four collections in one shared store: stock items,
stock movements (goods in and goods out), categories and units. Five pages
work on that store:

- **Inventory** adds, edits and deletes items. It filters them by a search
  text and a category, sorts them by a column and shows them ten per page.
- **Stock movements** records a movement after its guards pass. A recorded
  movement changes the item's quantity. The page filters movements by
  text, type and date, then sorts and pages them.
- **Dashboard** shows the stock value, the critical items, the five latest
  movements and the inflow and outflow of the last seven days.
- **Reports** shows the ten most valuable items, the value per category
  and the daily incoming and outgoing quantities of the last thirty days.
- **Settings** adds and deletes categories and units. It first refuses
  blank names and case-insensitive duplicates.

All these pages display their rows through a shared table component. The
table owns the sort-toggle state and the pagination bar.

The model follows the application's structure:

| file | module | what it holds |
|---|---|---|
| `types.dfy` | `Types` | the records: items, movements, categories, units, drafts and patches |
| `text.dfy` | `Text` | `toLowerCase`, `includes` and `trim` on strings |
| `seqs.dfy` | `Seqs` | `filter`, sums (`reduce`), grouping by key, taking a prefix |
| `sorting.dfy` | `Sorting` | the comparator order on column values; a stable insertion sort; "sort then take n" |
| `paging.dfy` | `Paging` | `slice` with negative indices, `Math.ceil(n / per)` and a page of a list |
| `store.dfy` | `Store` | the store as the class `AppStore`, and the pure transforms its methods assign |
| `inventory.dfy` | `Inventory` | the inventory page's view and its handlers, as the class `InventoryPage` |
| `movements.dfy` | `Movements` | the movement guards, filters and view; the handlers in class `MovementPage` |
| `dashboard.dfy` | `Dashboard` | the dashboard aggregates |
| `reports.dfy` | `Reports` | the report aggregates; the per-day `reduce` as a loop over a map |
| `table.dfy` | `Table` | the table's sort toggle (class `SortHeader`), page count, shown range and body |
| `settings.dfy` | `Settings` | the category and unit guards; the handlers in class `SettingsPage` |

Some of the application's inputs are not passed in by its callers. They
become parameters of the model:

- A new record's random id is a parameter. Each store method requires it
  to be unused.
- The current time `now` is a parameter. The date thresholds derived from
  it are parameters: today, a week ago, a month ago, seven days ago and
  thirty days ago.
- Dates are integers that stand for instants.
- The report groups movements by calendar day through a function
  `dayOf: int -> int`, which is also a parameter.
- Each `alert` appears as the outcome value a handler returns.

A handler changes the fields of its page class. A store method changes the
store's `seq` fields. Each one states its whole new state, either
explicitly or as the result of a pure function of the old state. The
store's invariant `Valid()` says ids are unique in every collection. Every
method preserves it.

## Model

| member | source | states |
|---|---|---|
| `Text.Lower` | src/pages/Inventory.tsx:148-150 | lower-casing keeps the length and maps every character on its own |
| `Text.LowerIdempotent` | src/pages/Inventory.tsx:148-150 | lower-casing twice is lower-casing once, so the search may lower-case both sides |
| `Text.ContainsIffOccurs` | src/pages/Inventory.tsx:148-150 | `includes` holds exactly when the needle occurs at some offset of the haystack |
| `Text.TrimEmptyIffBlank` | src/pages/Settings.tsx:31 | `trim()` gives the empty string exactly when every character is white space |
| `Seqs.Filter` | src/pages/Inventory.tsx:145-152 | `filter` keeps an order-preserving subsequence whose elements all pass; every passing element keeps all its copies, and an element is kept exactly when it is present and passes |
| `Seqs.FilterFilter` | src/pages/Inventory.tsx:145-152 | two chained `filter` calls keep what one filter by the conjunction keeps |
| `Seqs.FilterMonotone` | src/pages/StockMovements.tsx:119-125 | a filter by a weaker condition keeps, in the same order, everything a stronger one keeps |
| `Seqs.DistinctKeys` | src/pages/Reports.tsx:43-61 | the keys in order of first appearance have no repeats, and every element's key is among them |
| `Seqs.DistinctKeysOccur` | src/pages/Reports.tsx:43-61 | every key listed is the key of some element |
| `Seqs.GroupSumIsFilteredSum` | src/pages/Reports.tsx:22-27 | for distinct keys, the per-key sums add up to the sum over the elements whose key is listed |
| `Seqs.GroupSumOfAllKeys` | src/pages/Reports.tsx:22-27 | when every element's key is listed once, the per-key sums add up to the sum over all elements |
| `Seqs.SumOfPermutation` | src/pages/Reports.tsx:32 | reordering rows does not change their total |
| `Seqs.SumOfFilterSplit` | src/pages/Dashboard.tsx:39-49 | when two conditions split a third, their filtered sums add up to the third's |
| `Sorting.InOrderTotal` | src/pages/Inventory.tsx:154-165 | the comparator orders any two column values one way or the other |
| `Sorting.InOrderTrans` | src/pages/Inventory.tsx:154-165 | the comparator's order is transitive, so a consistent sort exists |
| `Sorting.Sort` | src/pages/Inventory.tsx:154-165 | the sorted copy is a permutation of the input and is ordered by the column in the given direction |
| `Sorting.Top` | src/pages/Dashboard.tsx:31-33 | sort then `slice(0, n)`: n rows or all of them, in order, drawn from the input; no row left out comes before the last one shown |
| `Paging.JsSlice` | src/pages/Inventory.tsx:170-173 | `slice` never returns more elements than the list has |
| `Paging.CeilDiv` | src/pages/Inventory.tsx:169 | `Math.ceil(n / per)` is the least page count whose pages hold all n items |
| `Paging.PageContents` | src/pages/Inventory.tsx:170-173 | page p (p from 1) is the items from index (p-1)*per up to p*per or the end, so at most `per` of them |
| `Paging.PageBeyondLastIsEmpty` | src/pages/Inventory.tsx:169-173 | a page number past the last page shows no rows |
| `Paging.PagesArePrefix` | src/pages/Inventory.tsx:170-173 | pages 1 to k laid end to end are the first k*per items |
| `Paging.PagesCoverAll` | src/pages/Inventory.tsx:168-173 | pages 1 to totalPages laid end to end are exactly the whole sorted list: nothing lost, nothing repeated |
| `Paging.PageOfSorted` | src/pages/Inventory.tsx:154-173 | a page of a sorted copy holds at most `per` rows, is empty past the last page, shows only input rows and stays sorted |
| `Store.AppendFreshKeepsUnique` | src/context/AppContext.tsx:40-48 | appending a record with an unused id keeps the ids unique |
| `Store.UniqueIdsSubsequence` | src/context/AppContext.tsx:60-62 | removing records never makes two remaining ones share an id |
| `Store.ApplyPatchFields` | src/context/AppContext.tsx:54 | a patched item keeps its id and creation time, takes every field the patch carries, keeps every field it does not carry, and is stamped `now` |
| `Store.UpdateItems` | src/context/AppContext.tsx:50-58 | the update keeps length and order, patches the items with the id and leaves every other item as it was |
| `Store.UpdateAbsentIsIdentity` | src/context/AppContext.tsx:50-58 | updating an id no item has changes nothing |
| `Store.UpdateIdempotent` | src/context/AppContext.tsx:50-58 | repeating an update with the same patch and instant changes nothing more |
| `Store.UpdateKeepsIds` | src/context/AppContext.tsx:50-58 | an update never changes an id |
| `Store.RemoveId` | src/context/AppContext.tsx:60-62 | deletion keeps, in order, every record with another id and no record with that id |
| `Store.RemoveAbsentIsIdentity` | src/context/AppContext.tsx:60-62 | deleting an id nobody has changes nothing |
| `Store.RemovePresentDropsOne` | src/context/AppContext.tsx:60-62 | with unique ids, deleting a record's id removes exactly that record |
| `Store.FindItem` | src/context/AppContext.tsx:65 | `find` gives nothing exactly when no item has the id; otherwise an item of the list with that id |
| `Store.FindItemIsFirst` | src/context/AppContext.tsx:65 | the item found is the first one with that id |
| `Store.FindUnique` | src/context/AppContext.tsx:65 | with unique ids, `find` gives the one item with that id |
| `Store.RecordMovement` | src/context/AppContext.tsx:64-82 | an unknown item id changes nothing; otherwise the movement is appended with the item's name, and only the named item changes, to its quantity plus or minus the movement's quantity, restamped |
| `Store.RecordMovementAdjustsQuantity` | src/context/AppContext.tsx:64-82 | with unique ids, the named item's quantity changes by exactly +q for `in` or -q for `out`, and the movement carries its name |
| `Store.RecordMovementReplacesOne` | src/context/AppContext.tsx:64-82 | with unique ids, exactly the named item is replaced and every other item stays |
| `Store.AppStore.constructor` | src/context/AppContext.tsx:35-38 | the store starts with the given collections, whose ids must be unique |
| `Store.AppStore.AddStockItem` | src/context/AppContext.tsx:40-48 | exactly one item, built from the draft with the new id and both stamps `now`, is appended; ids stay unique; nothing else changes |
| `Store.AppStore.UpdateStockItem` | src/context/AppContext.tsx:50-58 | the items become the patched map of the old items; ids stay unique; nothing else changes |
| `Store.AppStore.DeleteStockItem` | src/context/AppContext.tsx:60-62 | the items become the old items without that id; nothing else changes |
| `Store.AppStore.AddStockMovement` | src/context/AppContext.tsx:64-82 | items and movements become exactly what `RecordMovement` gives for the old ones; categories and units stay |
| `Store.AppStore.AddCategory` | src/context/AppContext.tsx:84-90 | exactly one category with the given name and new id is appended; nothing else changes |
| `Store.AppStore.DeleteCategory` | src/context/AppContext.tsx:92-94 | the categories lose exactly those with that id; nothing else changes |
| `Store.AppStore.AddUnit` | src/context/AppContext.tsx:96-103 | exactly one unit with the given name, abbreviation and new id is appended; nothing else changes |
| `Store.AppStore.DeleteUnit` | src/context/AppContext.tsx:105-107 | the units lose exactly those with that id; nothing else changes |
| `Inventory.FilterItems` | src/pages/Inventory.tsx:145-152 | the search and category filters keep, in order and with every copy, exactly the items whose name, stock code or present description contains the lower-cased query and whose category matches a non-empty filter |
| `Inventory.EmptyFiltersKeepAll` | src/pages/Inventory.tsx:145-152 | with no search text and no category every item is listed |
| `Inventory.DescriptionSearchFindsItem` | src/pages/Inventory.tsx:150 | an item whose non-empty description contains the query is listed |
| `Inventory.SortItems` | src/pages/Inventory.tsx:154-165 | the sorted copy is a permutation of the filtered items, ordered by the chosen column in the chosen direction |
| `Inventory.InventoryView` | src/pages/Inventory.tsx:145-173 | the item count is the number of matching items; the rows are exactly page `page` of the sorted matches, so `Paging.PageContents` and `Paging.PagesCoverAll` apply to them; the page count is the ceiling of the number of matches over ten; a page has at most ten rows, is empty past the last page, shows only matching items of the store and is sorted by the chosen column |
| `Inventory.EditUnchangedFormOnlyRestamps` | src/pages/Inventory.tsx:107-131 | saving an edit form that `openEditModal` filled and nobody changed only restamps the item |
| `Inventory.InventoryPage.constructor` | src/pages/Inventory.tsx:23-45 | the page starts with closed dialogs, no selection, the empty form, no filters, sorted by name ascending, on page 1 |
| `Inventory.InventoryPage.HandleAddItem` | src/pages/Inventory.tsx:78-92 | without name, category, unit or stock code nothing changes; otherwise one item built from the form is added, the dialog closes and the form is reset |
| `Inventory.InventoryPage.HandleEditItem` | src/pages/Inventory.tsx:94-110 | without a selection, or without the required fields, nothing changes; otherwise the selected item is patched with every form field, the dialog closes and the form is reset |
| `Inventory.InventoryPage.HandleDeleteItem` | src/pages/Inventory.tsx:112-117 | without a selection nothing changes; otherwise the item with the selected id is deleted, the dialog closes and the selection is cleared |
| `Inventory.InventoryPage.OpenEditModal` | src/pages/Inventory.tsx:119-133 | selects the item, copies its fields into the form and opens the edit dialog |
| `Inventory.InventoryPage.OpenDeleteModal` | src/pages/Inventory.tsx:135-138 | selects the item and opens the delete dialog |
| `Inventory.InventoryPage.HandleSort` | src/pages/Inventory.tsx:140-142 | stores the configuration the table emitted and nothing else |
| `Movements.CheckMovement` | src/pages/StockMovements.tsx:63-86 | a missing field or zero quantity is refused first; then a negative quantity; then an outgoing quantity above the named item's stock, reporting that stock; an accepted outgoing movement never exceeds the stock of the item found |
| `Movements.AcceptedKeepsStockNonNegative` | src/pages/StockMovements.tsx:63-88 | with unique ids and no negative stock, recording an accepted movement leaves no negative stock |
| `Movements.OversizedOutIsRefused` | src/pages/StockMovements.tsx:83-86 | a complete outgoing movement above the item's stock is refused with that stock |
| `Movements.FilterMovements` | src/pages/StockMovements.tsx:105-128 | the filter keeps, in order and with every copy, exactly the movements matching the text, the type and the date threshold |
| `Movements.DateFiltersNest` | src/pages/StockMovements.tsx:98-125 | today's list is part of the week's, the week's of the month's, the month's of the full list |
| `Movements.TypeFiltersPartition` | src/pages/StockMovements.tsx:105-128 | for any search text and date filter, the `in` list and the `out` list together are as long as the list of all types |
| `Movements.DefaultOrderIsNewestFirst` | src/pages/StockMovements.tsx:131-136 | sorted by date descending, no movement is older than one after it |
| `Movements.MovementsView` | src/pages/StockMovements.tsx:105-156 | the movement count is the number of matching movements; the rows are exactly page `page` of the sorted matches; the page count is the ceiling of the matches over ten; a page has at most ten rows, is empty past the last page, shows only matching movements and is sorted by the chosen column |
| `Movements.MovementPage.constructor` | src/pages/StockMovements.tsx:16-34 | the dialog is closed, the form is the initial one dated now, no filters, newest first, page 1 |
| `Movements.MovementPage.HandleAddMovement` | src/pages/StockMovements.tsx:63-91 | the outcome is the guard result; a refusal changes nothing; an accepted movement is recorded by the store, the dialog closes and the form is reset |
| `Movements.MovementPage.HandleSort` | src/pages/StockMovements.tsx:93-95 | stores the configuration the table emitted and nothing else |
| `Dashboard.TotalValueOfAdded` | src/pages/Dashboard.tsx:20-23 | adding an item adds exactly its value to the total |
| `Dashboard.TotalValueAfterDelete` | src/pages/Dashboard.tsx:20-23 | with unique ids, deleting an item removes exactly its value from the total |
| `Dashboard.TotalValueAfterMovement` | src/pages/Dashboard.tsx:20-23 | a recorded movement changes the total by the signed quantity times the item's purchase price |
| `Dashboard.TotalStockValue` | src/pages/Dashboard.tsx:20-23 | with no negative quantity or price the total stock value is not negative |
| `Dashboard.TotalProducts` | src/pages/Dashboard.tsx:17 | with unique ids, the product count is the number of distinct ids in the store |
| `Dashboard.ProductCountAfterAdd` | src/pages/Dashboard.tsx:17 | adding any item, to any store, counts one product more |
| `Dashboard.ProductCountAfterDelete` | src/pages/Dashboard.tsx:17 | with unique ids, deleting an item counts one product fewer |
| `Dashboard.CriticalStock` | src/pages/Dashboard.tsx:26-28 | the critical list keeps, in order and with every copy, exactly the items at or below their critical level |
| `Dashboard.InflowAboveLevelLeavesCritical` | src/pages/Dashboard.tsx:26-28 | a movement that takes an item above its critical level takes it off the critical list |
| `Dashboard.RecentMovements` | src/pages/Dashboard.tsx:31-33 | five movements or all of them, newest first, drawn from the store; none left out is newer than the last shown |
| `Dashboard.Window` | src/pages/Dashboard.tsx:36-49 | the window keeps, in order, exactly the movements dated at or after its start |
| `Dashboard.RecentInflow` | src/pages/Dashboard.tsx:39-43 | the inflow is the total quantity of the `in` movements of the seven-day window |
| `Dashboard.RecentOutflow` | src/pages/Dashboard.tsx:45-49 | the outflow is the total quantity of the `out` movements of the seven-day window |
| `Dashboard.FlowsSplitWindow` | src/pages/Dashboard.tsx:39-49 | inflow plus outflow is the total quantity moved in the window |
| `Dashboard.NetFlowIsStockChange` | src/pages/Dashboard.tsx:39-49 | inflow minus outflow is the net stock change the window's movements made |
| `Dashboard.WiderWindowHasAllMovements` | src/pages/Dashboard.tsx:36-49 | a window that starts earlier holds every movement of one that starts later |
| `Reports.TopValueStock` | src/pages/Reports.tsx:13-15 | ten items or all of them, highest value first, drawn from the store; none left out is worth more than the tenth |
| `Reports.TopValueItems` | src/pages/Reports.tsx:13-19 | row i is the name and value of the i-th of `Reports.TopValueStock`'s items, so the rows are ten or fewer, by falling value, and no item left out is worth more than the last row |
| `Reports.EmptyCategoryIsZero` | src/pages/Reports.tsx:22-27 | a category no item names is worth zero |
| `Reports.CategoryValue` | src/pages/Reports.tsx:23-27 | a category's value plus the value of the items of every other category is the total stock value |
| `Reports.CategoryTotals` | src/pages/Reports.tsx:22-31 | one row per category, in category order, holding the category's name and the value of exactly its items |
| `Reports.CategoryData` | src/pages/Reports.tsx:22-32 | the category rows reordered by falling value |
| `Reports.CategoryTotalsAreGroupSums` | src/pages/Reports.tsx:22-32 | the category rows add up to the grouped sum of item values by category |
| `Reports.CategoryDataCountsEachItemOnce` | src/pages/Reports.tsx:22-32 | with distinct category names, the chart adds up to the value of the items whose category is listed |
| `Reports.CategoryDataAddsUpToTotal` | src/pages/Reports.tsx:22-32 | with distinct names covering every item's category, the chart adds up to the total stock value |
| `Reports.MovementCountsSplit` | src/pages/Reports.tsx:313-316 | the `in` and `out` counts of the card add up to the thirty-day count |
| `Reports.MovementsByDate` | src/pages/Reports.tsx:43-61 | the rows are the distinct days in order of first occurrence, each holding its day's incoming and outgoing totals; no day has two rows, every movement's day has a row, and every row's day is the day of some movement |
| `Reports.DailyRowsOfDistinctDays` | src/pages/Reports.tsx:43-61 | rows of the distinct days have distinct days, cover every movement's day and include no day without a movement |
| `Reports.DailyTotals` | src/pages/Reports.tsx:43-61 | one row per listed day, in that order, holding that day's incoming and outgoing totals |
| `Reports.KeysStep` | src/pages/Reports.tsx:46-52 | one more movement adds its day to the row keys only if the day is new |
| `Reports.TotalStep` | src/pages/Reports.tsx:54-58 | one more movement changes only its own day's row, by its quantity on its side |
| `Reports.AbsentDayIsZero` | src/pages/Reports.tsx:46-52 | a day with no movement has the empty row the `reduce` creates |
| `Reports.AccumulateStep` | src/pages/Reports.tsx:43-61 | one pass of the `reduce` keeps the keys in first-appearance order and every row equal to its day's totals so far |
| `Reports.AccumulateRows` | src/pages/Reports.tsx:43-61 | the `reduce` ends with the days in first-appearance order, each with a row holding that day's totals |
| `Reports.RowsInOrder` | src/pages/Reports.tsx:43-61 | when the keys are exactly the listed days, each listed day has its own row |
| `Reports.ValuesInOrder` | src/pages/Reports.tsx:63 | `Object.values` gives the rows in key insertion order |
| `Reports.ReadOutIsDaily` | src/pages/Reports.tsx:43-63 | reading the rows out in key order gives the daily totals of those days |
| `Reports.AccumulateByDate` | src/pages/Reports.tsx:43-63 | `reduce` followed by `Object.values` gives exactly one row per day, in first-appearance order, holding that day's totals |
| `Reports.MovementData` | src/pages/Reports.tsx:63-67 | the chart holds the day rows sorted by strictly increasing day, each with its day's totals, has a row for every movement's day and no row for a day without movements |
| `Reports.Last30DaysChart` | src/pages/Reports.tsx:35-67 | the chart of the thirty-day window: days strictly increase, each row holds that day's totals over the window, every movement dated in the window has its day's row, every row's day is the day of a movement dated in the window, and the columns add up to the window's inflow and outflow |
| `Reports.SortedDayRows` | src/pages/Reports.tsx:63-67 | sorting rows with distinct days orders the days strictly |
| `Reports.ChartCoversEveryDay` | src/pages/Reports.tsx:63-67 | every movement's day has a row in the chart |
| `Reports.ChartDaysOccur` | src/pages/Reports.tsx:63-67 | every chart row's day is the day of some movement |
| `Reports.WindowDaysHaveRows` | src/pages/Reports.tsx:39-61 | the rows of the window's days are exactly the days of the store's movements dated in the window |
| `Reports.MovementDataInflow` | src/pages/Reports.tsx:43-67 | the chart's incoming totals add up to the quantity of all `in` movements |
| `Reports.MovementDataOutflow` | src/pages/Reports.tsx:43-67 | the chart's outgoing totals add up to the quantity of all `out` movements |
| `Reports.DailyFlows` | src/pages/Reports.tsx:43-61 | over all distinct days, the daily columns add up to the incoming and the outgoing quantities |
| `Reports.DailyTotalsAreGroupSums` | src/pages/Reports.tsx:43-61 | the daily rows add up to the grouped sums of incoming and outgoing quantities by day |
| `Table.NextSortConfig` | src/components/common/Table.tsx:41-46 | the new sort is on the clicked column, descending exactly when that column was the ascending one |
| `Table.ClickTwiceRestores` | src/components/common/Table.tsx:41-44 | two clicks on the sorted column restore its sort |
| `Table.OtherColumnStartsAscending` | src/components/common/Table.tsx:41-44 | the first click, or a click on another column, sorts ascending |
| `Table.IndicatorOf` | src/components/common/Table.tsx:73-83 | the arrow is faded exactly when the column is not the sorted one, and points down exactly when it is sorted descending |
| `Table.ClickedColumnShowsDirection` | src/components/common/Table.tsx:46-83 | after a click only the clicked column shows a direction, and it is the new one |
| `Table.SortHeader.constructor` | src/components/common/Table.tsx:36 | the table starts with no sort configuration |
| `Table.SortHeader.HandleSort` | src/components/common/Table.tsx:38-49 | without a callback nothing changes and nothing is emitted; otherwise the new configuration is stored and that same configuration is emitted |
| `Table.TotalPages` | src/components/common/Table.tsx:51-53 | 0 without pagination; otherwise the least page count that holds every item |
| `Table.PagesIffItems` | src/components/common/Table.tsx:51-53 | with pagination there are pages exactly when there are items |
| `Table.ShowBarIffItems` | src/components/common/Table.tsx:120 | the bar is shown exactly when there is pagination and at least one item |
| `Table.ExistingPageStartsWithinItems` | src/components/common/Table.tsx:125 | the first index of an existing page is an index of the items |
| `Table.RangeOfExistingPage` | src/components/common/Table.tsx:125-128 | on an existing page, 1 <= start <= end <= total, and start..end is exactly the slice the page shows |
| `Table.EnabledArrowsStayInRange` | src/components/common/Table.tsx:136-160 | from an existing page an enabled arrow leads to an existing page, and both arrows are disabled exactly when there is one page |
| `Table.PageButtons` | src/components/common/Table.tsx:145-157 | the buttons are 1..totalPages in order, and a number has a button exactly when it is a page |
| `Table.BodyOf` | src/components/common/Table.tsx:92-116 | the loading row while loading; otherwise the empty message (the default one unless given) exactly when there is no data; otherwise the rows |
| `Settings.BlankIffWhitespace` | src/pages/Settings.tsx:31 | a name is blank exactly when all its characters are white space |
| `Settings.CheckCategory` | src/pages/Settings.tsx:30-39 | a name of white space only is refused; a name equal to an existing one after lower-casing is refused; any other name is accepted |
| `Settings.CheckUnit` | src/pages/Settings.tsx:60-69 | a blank name or abbreviation is refused; a duplicate name after lower-casing is refused; otherwise accepted, whatever the abbreviation |
| `Settings.AddedCategoryKeepsNamesDistinct` | src/pages/Settings.tsx:36-41 | an accepted category keeps the names distinct after lower-casing |
| `Settings.AddedUnitKeepsNamesDistinct` | src/pages/Settings.tsx:66-71 | an accepted unit keeps the unit names distinct after lower-casing |
| `Settings.DeleteKeepsNamesDistinct` | src/context/AppContext.tsx:92-94 | deleting by id keeps the remaining names distinct after lower-casing |
| `Settings.RepeatedAbbreviationIsAccepted` | src/pages/Settings.tsx:66-71 | a new unit that reuses an existing abbreviation is still accepted |
| `Settings.SettingsPage.constructor` | src/pages/Settings.tsx:16-27 | closed dialogs, nothing chosen for deletion, empty inputs |
| `Settings.SettingsPage.HandleAddCategory` | src/pages/Settings.tsx:30-44 | the outcome is the guard result; a refusal changes nothing; otherwise the untrimmed name is added once, the input is cleared and the dialog closes; case-distinct names stay case-distinct |
| `Settings.SettingsPage.OpenDeleteCategoryModal` | src/pages/Settings.tsx:46-49 | chooses the category and opens the delete dialog |
| `Settings.SettingsPage.HandleDeleteCategory` | src/pages/Settings.tsx:51-57 | without a chosen category nothing changes; otherwise that id is deleted, the dialog closes and the choice is cleared |
| `Settings.SettingsPage.HandleAddUnit` | src/pages/Settings.tsx:60-75 | the outcome is the guard result; a refusal changes nothing; otherwise the unit is added once as typed, both inputs are cleared and the dialog closes |
| `Settings.SettingsPage.OpenDeleteUnitModal` | src/pages/Settings.tsx:77-80 | chooses the unit and opens the delete dialog |
| `Settings.SettingsPage.HandleDeleteUnit` | src/pages/Settings.tsx:82-88 | without a chosen unit nothing changes; otherwise that id is deleted, the dialog closes and the choice is cleared |

## Left out

- Rendering: the JSX markup, styles, icons, modals, routing, layout, the Badge, Button, Card and Input components, and the charts. Only the values the pages compute and hand to the table or chart are modelled.
- Form input parsing: `handleInputChange`, `parseFloat`, `parseInt`, `NaN` and an emptied numeric field typed as `''`. Every form field holds a value of its declared type.
- Floating point: quantities and prices are integers, and the model has no rounding, `NaN` or infinities. Number and date formatting (`toLocaleString`, `toLocaleDateString`) is not modelled.
- The `!type` and `!date` guards of `handleAddMovement`: in the model a movement type and a date are always present, so those two checks cannot fail.
- Random ids and the clock: both are parameters. Each store method requires its id to be unused. In the application a collision is only unlikely, so it is not ruled out.
- Calendar arithmetic: local midnight, `setDate(-7)` and `setMonth(-1)` across daylight-saving changes, and the `tr-TR` day strings. The thresholds and the day function `dayOf` are parameters. The chart's sort on the parsed day string is modelled as a sort on the day number.
- Reports.AccumulateByDate: the model keys rows by the day number. The application keys them by the formatted day string, and two instants get the same key exactly when they fall on the same local day.
- React state batching and stale closures: `addStockMovement` reads the item before both state updates. The model applies the movement and the quantity change to one consistent state, which is what the code computes when nothing else runs in between.
- The `useAppContext` error thrown outside the provider, and the initial mock data: the store is built from its collections, and src/data/mockData is not part of this model.
- Text.Lower: lower-cases ASCII letters only. Full Unicode case mapping, for example the Turkish dotted and dotless i, is not modelled.
- Sorting.TextLe: orders strings by Unicode scalar values. JavaScript compares UTF-16 code units, and the two orders differ only for characters outside the Basic Multilingual Plane.
- Sorting.Sort: states that the result is a permutation and is ordered, but not that it is stable. ES2019 requires `sort` to be stable, and the model's insertion sort is stable, but no lemma states it.
- Inventory.InventoryView: a comparator over mixed types (`undefined` against a string) is not modelled. Every sortable column holds a value of one type.
- Inventory.PatchOf, Store.ApplyPatchFields: a patch from the edit form never carries `id`, `createdAt` or `updatedAt`. The form has none of those fields, so `updateStockItem` can never receive them.
- Table.TotalPages: requires `itemsPerPage > 0`. Every page passes 10, and the division by zero that 0 would cause is not modelled.
- The table's page-change callbacks and the pages' `setSearch`, `setCategoryFilter`, `setTypeFilter`, `setDateFilter`, `setCurrentPage` and settings-tab setters: each one only assigns its field, and the views take those fields as inputs.
- The sort button's visibility (`column.sortable && onSort`) and row keys (`keyExtractor`): these are rendering only.
- Reports.CategoryDataAddsUpToTotal: requires distinct category names. Two categories with the same name would each count that name's items, so the chart would count them twice.
- The report's `reportType` tab state: it only chooses which chart is drawn.
