/**
 * The reports page: the ten items of highest stock value, the stock value
 * per category, the incoming and outgoing quantities per day over the last
 * thirty days, and the summary counts.
 *
 * The calendar day of an instant (the page groups by its local date text)
 * is the parameter `dayOf`, a day number that grows with the date; the
 * instant thirty days back is a parameter as well.
 */
module Reports {
  import opened Types
  import opened Seqs
  import opened Sorting
  import opened Dashboard

  const TopCount: nat := 10

  /** A chart row: a label and a value. */
  datatype NamedValue = NamedValue(name: string, value: int)

  function ItemValueKey(x: StockItem): KeyValue { Num(x.Value()) }

  /**
   * The items sorted by stock value, highest first, cut to ten.  An item is
   * left out only when ten are shown, and none left out is worth more than
   * the tenth.
   */
  function TopValueStock(items: seq<StockItem>): (r: seq<StockItem>)
    ensures |r| == Min(TopCount, |items|)
    ensures forall i, j :: 0 <= i < j < |r| ==> r[i].Value() >= r[j].Value()
    ensures multiset(r) <= multiset(items)
    ensures forall x :: x in multiset(items) - multiset(r) ==> |r| == TopCount && x.Value() <= r[TopCount - 1].Value()
  {
    var r := Top(items, ItemValueKey, Desc, TopCount);
    ValuesFall(r);
    r
  }

  lemma ValuesFall(r: seq<StockItem>)
    requires Sorted(r, ItemValueKey, Desc)
    ensures forall i, j :: 0 <= i < j < |r| ==> r[i].Value() >= r[j].Value()
  {
    forall i, j | 0 <= i < j < |r| ensures r[i].Value() >= r[j].Value() {
      assert InOrder(ItemValueKey(r[i]), ItemValueKey(r[j]), Desc);
    }
  }

  /** The bar chart rows of the top items: each an item's name and value, in falling value. */
  function TopValueItems(items: seq<StockItem>): (r: seq<NamedValue>)
    ensures |r| == |TopValueStock(items)| == Min(TopCount, |items|)
    ensures forall i :: 0 <= i < |r| ==> r[i] == NamedValue(TopValueStock(items)[i].name, TopValueStock(items)[i].Value())
    ensures forall i, j :: 0 <= i < j < |r| ==> r[i].value >= r[j].value
    ensures forall i :: 0 <= i < |r| ==> exists x :: x in items && r[i] == NamedValue(x.name, x.Value())
  {
    var t := TopValueStock(items);
    var r := NamedRows(t);
    TopValueMembers(items, t);
    assert forall i :: 0 <= i < |r| ==> t[i] in items && r[i] == NamedValue(t[i].name, t[i].Value());
    r
  }

  /** `.map((item) => ({ name: item.name, value: item.quantity * item.purchasePrice }))`. */
  function NamedRows(t: seq<StockItem>): (r: seq<NamedValue>)
    ensures |r| == |t|
    ensures forall i :: 0 <= i < |t| ==> r[i] == NamedValue(t[i].name, t[i].Value())
  {
    seq(|t|, i requires 0 <= i < |t| => NamedValue(t[i].name, t[i].Value()))
  }

  lemma TopValueMembers(items: seq<StockItem>, t: seq<StockItem>)
    requires multiset(t) <= multiset(items)
    ensures forall i :: 0 <= i < |t| ==> t[i] in items
  {
    forall i | 0 <= i < |t| ensures t[i] in items {
      assert t[i] in multiset(t);
    }
  }

  function CategoryOf(x: StockItem): string { x.category }

  /** The items of every category but `name`. */
  function OtherCategory(name: string): StockItem -> bool {
    (x: StockItem) => x.category != name
  }

  function AnyItem(x: StockItem): bool { true }

  /**
   * The stock value of the items whose category is exactly `name`: with the
   * value of all other items it makes up the total stock value.
   */
  function CategoryValue(items: seq<StockItem>, name: string): (r: int)
    ensures r + SumOf(Filter(items, OtherCategory(name)), ValueOf) == TotalStockValue(items)
  {
    forall x ensures AnyItem(x) == (KeyIs(CategoryOf, name)(x) || OtherCategory(name)(x)) {
      assert KeyIs(CategoryOf, name)(x) == (CategoryOf(x) == name);
    }
    SumOfFilterSplit(items, ValueOf, KeyIs(CategoryOf, name), OtherCategory(name), AnyItem);
    FilterKeepsAll(items, AnyItem);
    SumOf(Filter(items, KeyIs(CategoryOf, name)), ValueOf)
  }

  /** A category that no item names is worth zero. */
  lemma EmptyCategoryIsZero(items: seq<StockItem>, name: string)
    requires forall i :: 0 <= i < |items| ==> items[i].category != name
    ensures CategoryValue(items, name) == 0
  {
    FilterKeepsNone(items, KeyIs(CategoryOf, name));
  }

  function CategoryNames(cats: seq<Category>): (r: seq<string>)
    ensures |r| == |cats|
    ensures forall i :: 0 <= i < |cats| ==> r[i] == cats[i].name
  {
    if cats == [] then [] else CategoryNames(cats[..|cats| - 1]) + [cats[|cats| - 1].name]
  }

  /** One row per category, in category order, before sorting. */
  function CategoryTotals(items: seq<StockItem>, cats: seq<Category>): (r: seq<NamedValue>)
    ensures |r| == |cats|
    ensures forall i :: 0 <= i < |cats| ==> r[i] == NamedValue(cats[i].name, CategoryValue(items, cats[i].name))
  {
    if cats == [] then []
    else
      var c := cats[|cats| - 1];
      CategoryTotals(items, cats[..|cats| - 1]) + [NamedValue(c.name, CategoryValue(items, c.name))]
  }

  function ChartValue(v: NamedValue): int { v.value }

  function ChartKey(v: NamedValue): KeyValue { Num(v.value) }

  /** The category rows sorted by value, highest first. */
  function CategoryData(items: seq<StockItem>, cats: seq<Category>): (r: seq<NamedValue>)
    ensures |r| == |cats|
    ensures multiset(r) == multiset(CategoryTotals(items, cats))
    ensures forall i, j :: 0 <= i < j < |r| ==> r[i].value >= r[j].value
  {
    var r := Sort(CategoryTotals(items, cats), ChartKey, Desc);
    ChartValuesFall(r);
    r
  }

  lemma ChartValuesFall(r: seq<NamedValue>)
    requires Sorted(r, ChartKey, Desc)
    ensures forall i, j :: 0 <= i < j < |r| ==> r[i].value >= r[j].value
  {
    forall i, j | 0 <= i < j < |r| ensures r[i].value >= r[j].value {
      assert InOrder(ChartKey(r[i]), ChartKey(r[j]), Desc);
    }
  }

  lemma {:induction false} CategoryTotalsAreGroupSums(items: seq<StockItem>, cats: seq<Category>)
    ensures SumOf(CategoryTotals(items, cats), ChartValue) == GroupSum(items, ValueOf, CategoryOf, CategoryNames(cats))
  {
    if cats != [] {
      var init := cats[..|cats| - 1];
      CategoryTotalsAreGroupSums(items, init);
      var t := CategoryTotals(items, init);
      var c := cats[|cats| - 1];
      assert (t + [NamedValue(c.name, CategoryValue(items, c.name))])[..|t|] == t;
      var ns := CategoryNames(init);
      assert (ns + [c.name])[..|ns|] == ns;
    }
  }

  /**
   * With distinct category names, the category rows add up to the value of
   * the items whose category is one of them: each such item is counted once
   * and an item of an unknown category not at all.
   */
  lemma CategoryDataCountsEachItemOnce(items: seq<StockItem>, cats: seq<Category>)
    requires Distinct(CategoryNames(cats))
    ensures SumOf(CategoryData(items, cats), ChartValue)
            == SumOf(Filter(items, KeyIn(CategoryOf, CategoryNames(cats))), ValueOf)
  {
    SumOfPermutation(CategoryData(items, cats), CategoryTotals(items, cats), ChartValue);
    CategoryTotalsAreGroupSums(items, cats);
    GroupSumIsFilteredSum(items, ValueOf, CategoryOf, CategoryNames(cats));
  }

  /** When moreover every item's category is listed, the category rows add up to the total stock value. */
  lemma CategoryDataAddsUpToTotal(items: seq<StockItem>, cats: seq<Category>)
    requires Distinct(CategoryNames(cats))
    requires forall i :: 0 <= i < |items| ==> items[i].category in CategoryNames(cats)
    ensures SumOf(CategoryData(items, cats), ChartValue) == TotalStockValue(items)
  {
    CategoryDataCountsEachItemOnce(items, cats);
    FilterKeepsAll(items, KeyIn(CategoryOf, CategoryNames(cats)));
  }

  /** The summary card's incoming and outgoing counts add up to the thirty-day count. */
  lemma MovementCountsSplit(ms: seq<StockMovement>, thirtyDaysAgo: int)
    ensures |Filter(Window(ms, thirtyDaysAgo), IsInKind)| + |Filter(Window(ms, thirtyDaysAgo), IsOutKind)|
            == |Window(ms, thirtyDaysAgo)|
  {
    FilterSplitLength(Window(ms, thirtyDaysAgo), IsInKind, IsOutKind);
  }

  /** One chart row: a day and the incoming and outgoing quantities of that day. */
  datatype DayTotal = DayTotal(day: int, inQty: int, outQty: int)

  /** The quantity a movement adds to its day's incoming total. */
  function InQuantity(m: StockMovement): int { if m.kind == In then m.quantity else 0 }

  /** The quantity a movement adds to its day's outgoing total (every movement that is not `in`). */
  function OutQuantity(m: StockMovement): int { if m.kind == In then 0 else m.quantity }

  function DayKey(dayOf: int -> int): StockMovement -> int {
    (m: StockMovement) => dayOf(m.date)
  }

  /** The totals of the movements of day `d`. */
  function DayTotalOf(ms: seq<StockMovement>, dayOf: int -> int, d: int): DayTotal {
    var on := Filter(ms, KeyIs(DayKey(dayOf), d));
    DayTotal(d, SumOf(on, InQuantity), SumOf(on, OutQuantity))
  }

  /** The rows of the days `ks`, in that order. */
  function DailyTotals(ms: seq<StockMovement>, dayOf: int -> int, ks: seq<int>): (r: seq<DayTotal>)
    ensures |r| == |ks|
    ensures forall i :: 0 <= i < |ks| ==> r[i] == DayTotalOf(ms, dayOf, ks[i])
  {
    if ks == [] then [] else DailyTotals(ms, dayOf, ks[..|ks| - 1]) + [DayTotalOf(ms, dayOf, ks[|ks| - 1])]
  }

  /** Some row of `r` is the row of day `d`. */
  ghost predicate HasRow(r: seq<DayTotal>, d: int) {
    exists k :: 0 <= k < |r| && r[k].day == d
  }

  /** Some movement of `ms` falls on day `d`. */
  ghost predicate IsMovementDay(ms: seq<StockMovement>, dayOf: int -> int, d: int) {
    exists i :: 0 <= i < |ms| && dayOf(ms[i].date) == d
  }

  /** The accumulated object's values: one row per day that has a movement, in order of first occurrence. */
  function MovementsByDate(ms: seq<StockMovement>, dayOf: int -> int): (r: seq<DayTotal>)
    ensures forall i :: 0 <= i < |r| ==> r[i] == DayTotalOf(ms, dayOf, r[i].day)
    ensures forall i, j :: 0 <= i < j < |r| ==> r[i].day != r[j].day
    ensures forall i :: 0 <= i < |ms| ==> HasRow(r, dayOf(ms[i].date))
    ensures forall k :: 0 <= k < |r| ==> IsMovementDay(ms, dayOf, r[k].day)
    ensures |r| == |DistinctKeys(ms, DayKey(dayOf))|
    ensures forall k :: 0 <= k < |r| ==> r[k].day == DistinctKeys(ms, DayKey(dayOf))[k]
  {
    var ks := DistinctKeys(ms, DayKey(dayOf));
    var r := DailyTotals(ms, dayOf, ks);
    DailyRowsOfDistinctDays(ms, dayOf, ks, r);
    r
  }

  /** The rows of the distinct days, in order: one per day that has a movement, and none for another day. */
  lemma DailyRowsOfDistinctDays(ms: seq<StockMovement>, dayOf: int -> int, ks: seq<int>, r: seq<DayTotal>)
    requires ks == DistinctKeys(ms, DayKey(dayOf))
    requires |r| == |ks| && forall i :: 0 <= i < |ks| ==> r[i] == DayTotalOf(ms, dayOf, ks[i])
    ensures forall i, j :: 0 <= i < j < |r| ==> r[i].day != r[j].day
    ensures forall i :: 0 <= i < |ms| ==> HasRow(r, dayOf(ms[i].date))
    ensures forall k :: 0 <= k < |r| ==> IsMovementDay(ms, dayOf, r[k].day)
  {
    forall k | 0 <= k < |r| ensures IsMovementDay(ms, dayOf, r[k].day) {
      DistinctKeysOccur(ms, DayKey(dayOf), ks[k]);
      var i :| 0 <= i < |ms| && DayKey(dayOf)(ms[i]) == ks[k];
      assert dayOf(ms[i].date) == r[k].day;
    }
    forall i, j | 0 <= i < j < |r| ensures r[i].day != r[j].day {
      assert r[i].day == ks[i] && r[j].day == ks[j];
    }
    forall i | 0 <= i < |ms| ensures HasRow(r, dayOf(ms[i].date)) {
      assert DayKey(dayOf)(ms[i]) in ks;
      var k :| 0 <= k < |ks| && ks[k] == dayOf(ms[i].date);
      assert r[k].day == ks[k];
    }
  }

  /** A day's row after one more movement of that day. */
  function AddMovement(t: DayTotal, m: StockMovement): DayTotal {
    if m.kind == In then t.(inQty := t.inQty + m.quantity) else t.(outQty := t.outQty + m.quantity)
  }

  /** One more movement adds its day to the keys if the day is new. */
  lemma KeysStep(p: seq<StockMovement>, m: StockMovement, dayOf: int -> int)
    ensures DistinctKeys(p + [m], DayKey(dayOf))
            == if dayOf(m.date) in DistinctKeys(p, DayKey(dayOf)) then DistinctKeys(p, DayKey(dayOf))
               else DistinctKeys(p, DayKey(dayOf)) + [dayOf(m.date)]
  {
    assert (p + [m])[..|p|] == p;
  }

  /** One more movement changes only the row of its own day, by its quantity. */
  lemma TotalStep(p: seq<StockMovement>, m: StockMovement, dayOf: int -> int, e: int)
    ensures DayTotalOf(p + [m], dayOf, e)
            == if dayOf(m.date) == e then AddMovement(DayTotalOf(p, dayOf, e), m) else DayTotalOf(p, dayOf, e)
  {
    var onDay := KeyIs(DayKey(dayOf), e);
    FilterSnoc(p, m, onDay);
    if dayOf(m.date) == e {
      DayRowGrows(Filter(p, onDay), m, e);
    }
  }

  /** The totals of a day's movements after one more movement of the day. */
  lemma DayRowGrows(on: seq<StockMovement>, m: StockMovement, e: int)
    ensures DayTotal(e, SumOf(on + [m], InQuantity), SumOf(on + [m], OutQuantity))
            == AddMovement(DayTotal(e, SumOf(on, InQuantity), SumOf(on, OutQuantity)), m)
  {
    SumOfSnoc(on, m, InQuantity);
    SumOfSnoc(on, m, OutQuantity);
  }

  /** A day without movements has an empty row. */
  lemma AbsentDayIsZero(p: seq<StockMovement>, dayOf: int -> int, d: int)
    requires d !in DistinctKeys(p, DayKey(dayOf))
    ensures DayTotalOf(p, dayOf, d) == DayTotal(d, 0, 0)
  {
    FilterKeepsNone(p, KeyIs(DayKey(dayOf), d));
  }

  /** Every row of the accumulator holds the totals of its day. */
  ghost predicate RowsOf(acc: map<int, DayTotal>, p: seq<StockMovement>, dayOf: int -> int) {
    forall d :: d in acc ==> acc[d] == DayTotalOf(p, dayOf, d)
  }

  /** One step of the accumulation keeps the keys and the rows in step with the movements read so far. */
  lemma AccumulateStep(acc0: map<int, DayTotal>, order0: seq<int>, acc: map<int, DayTotal>, order: seq<int>,
                       row: DayTotal, ms: seq<StockMovement>, i: nat, dayOf: int -> int)
    requires i < |ms|
    requires order0 == DistinctKeys(ms[..i], DayKey(dayOf))
    requires forall d :: d in acc0 <==> d in order0
    requires RowsOf(acc0, ms[..i], dayOf)
    requires var d := dayOf(ms[i].date);
      && order == (if d in acc0 then order0 else order0 + [d])
      && row == AddMovement(if d in acc0 then acc0[d] else DayTotal(d, 0, 0), ms[i])
      && acc == acc0[d := row]
    ensures order == DistinctKeys(ms[..i + 1], DayKey(dayOf))
    ensures forall d :: d in acc <==> d in order
    ensures RowsOf(acc, ms[..i + 1], dayOf)
  {
    var p, m := ms[..i], ms[i];
    assert ms[..i + 1] == p + [m];
    var d := dayOf(m.date);
    KeysStep(p, m, dayOf);
    if d !in acc0 {
      AbsentDayIsZero(p, dayOf, d);
    }
    forall e | e in acc ensures acc[e] == DayTotalOf(p + [m], dayOf, e) {
      TotalStep(p, m, dayOf, e);
    }
  }

  /**
   * The page's `reduce`: one pass over the movements that creates a day's
   * row on its first movement and adds each quantity to the incoming or the
   * outgoing total of its day, then reads the rows out in insertion order.
   */
  method AccumulateByDate(ms: seq<StockMovement>, dayOf: int -> int) returns (totals: seq<DayTotal>)
    ensures totals == MovementsByDate(ms, dayOf)
  {
    var acc, order := AccumulateRows(ms, dayOf);
    totals := ValuesInOrder(acc, order);
    ReadOutIsDaily(acc, order, totals, ms, dayOf);
  }

  /** Reading the rows out in key order gives the rows of those days. */
  lemma ReadOutIsDaily(acc: map<int, DayTotal>, order: seq<int>, values: seq<DayTotal>,
                       ms: seq<StockMovement>, dayOf: int -> int)
    requires forall j :: 0 <= j < |order| ==> order[j] in acc && acc[order[j]] == DayTotalOf(ms, dayOf, order[j])
    requires |values| == |order|
    requires forall j :: 0 <= j < |order| ==> values[j] == acc[order[j]]
    ensures values == DailyTotals(ms, dayOf, order)
  {
  }

  /** The `reduce` itself: the object of day rows and the order in which its keys were created. */
  method AccumulateRows(ms: seq<StockMovement>, dayOf: int -> int) returns (acc: map<int, DayTotal>, order: seq<int>)
    ensures order == DistinctKeys(ms, DayKey(dayOf))
    ensures forall j :: 0 <= j < |order| ==> order[j] in acc && acc[order[j]] == DayTotalOf(ms, dayOf, order[j])
  {
    acc, order := map[], [];
    var i := 0;
    while i < |ms|
      invariant 0 <= i <= |ms|
      invariant order == DistinctKeys(ms[..i], DayKey(dayOf))
      invariant forall d :: d in acc <==> d in order
      invariant RowsOf(acc, ms[..i], dayOf)
    {
      var m := ms[i];
      var d := dayOf(m.date);
      ghost var acc0, order0 := acc, order;
      var row := if d in acc then acc[d] else DayTotal(d, 0, 0);
      if d !in acc {
        order := order + [d];
      }
      if m.kind == In {
        row := row.(inQty := row.inQty + m.quantity);
      } else {
        row := row.(outQty := row.outQty + m.quantity);
      }
      acc := acc[d := row];
      AccumulateStep(acc0, order0, acc, order, row, ms, i, dayOf);
      i := i + 1;
    }
    assert ms[..|ms|] == ms;
    RowsInOrder(acc, order, ms, dayOf);
  }

  /** When the keys are exactly the days listed, each listed day has its own row. */
  lemma RowsInOrder(acc: map<int, DayTotal>, order: seq<int>, ms: seq<StockMovement>, dayOf: int -> int)
    requires forall d :: d in acc <==> d in order
    requires RowsOf(acc, ms, dayOf)
    ensures forall j :: 0 <= j < |order| ==> order[j] in acc && acc[order[j]] == DayTotalOf(ms, dayOf, order[j])
  {
    forall j | 0 <= j < |order|
      ensures order[j] in acc && acc[order[j]] == DayTotalOf(ms, dayOf, order[j])
    {
      var d := order[j];
      assert d in order;
    }
  }

  /** `Object.values` of an object whose keys were inserted in the order `order`. */
  method ValuesInOrder(acc: map<int, DayTotal>, order: seq<int>) returns (values: seq<DayTotal>)
    requires forall j :: 0 <= j < |order| ==> order[j] in acc
    ensures |values| == |order|
    ensures forall j :: 0 <= j < |order| ==> values[j] == acc[order[j]]
  {
    values := [];
    var j := 0;
    while j < |order|
      invariant 0 <= j <= |order|
      invariant |values| == j
      invariant forall k :: 0 <= k < j ==> values[k] == acc[order[k]]
    {
      values := values + [acc[order[j]]];
      j := j + 1;
    }
  }

  function DayOrderKey(t: DayTotal): KeyValue { Num(t.day) }

  /**
   * The movement chart: the day rows sorted by date.  The days strictly
   * increase (one row per day), every movement's day has a row, and each
   * row holds exactly its day's totals.
   */
  function MovementData(ms: seq<StockMovement>, dayOf: int -> int): (r: seq<DayTotal>)
    ensures multiset(r) == multiset(MovementsByDate(ms, dayOf))
    ensures forall i, j :: 0 <= i < j < |r| ==> r[i].day < r[j].day
    ensures forall k :: 0 <= k < |r| ==> r[k] == DayTotalOf(ms, dayOf, r[k].day)
    ensures forall i :: 0 <= i < |ms| ==> HasRow(r, dayOf(ms[i].date))
    ensures forall k :: 0 <= k < |r| ==> IsMovementDay(ms, dayOf, r[k].day)
  {
    var base := MovementsByDate(ms, dayOf);
    var r := Sort(base, DayOrderKey, Asc);
    SortedDayRows(base, r, DayRow(ms, dayOf));
    ChartCoversEveryDay(ms, dayOf, r);
    ChartDaysOccur(ms, dayOf, r);
    r
  }

  /** Every chart row is the day of some movement: the chart has no row for a day without movements. */
  lemma ChartDaysOccur(ms: seq<StockMovement>, dayOf: int -> int, r: seq<DayTotal>)
    requires multiset(r) == multiset(MovementsByDate(ms, dayOf))
    ensures forall k :: 0 <= k < |r| ==> IsMovementDay(ms, dayOf, r[k].day)
  {
    var base := MovementsByDate(ms, dayOf);
    forall k | 0 <= k < |r| ensures IsMovementDay(ms, dayOf, r[k].day) {
      assert r[k] in multiset(base);
      var n :| 0 <= n < |base| && base[n] == r[k];
    }
  }

  /** The row of a day, as a function of the day. */
  function DayRow(ms: seq<StockMovement>, dayOf: int -> int): int -> DayTotal {
    d => DayTotalOf(ms, dayOf, d)
  }

  /** Sorting rows that are determined by their distinct days orders the days strictly. */
  lemma SortedDayRows(base: seq<DayTotal>, r: seq<DayTotal>, f: int -> DayTotal)
    requires forall i :: 0 <= i < |base| ==> base[i] == f(base[i].day)
    requires forall i, j :: 0 <= i < j < |base| ==> base[i].day != base[j].day
    requires multiset(r) == multiset(base)
    requires Sorted(r, DayOrderKey, Asc)
    ensures forall k :: 0 <= k < |r| ==> r[k] == f(r[k].day)
    ensures forall i, j :: 0 <= i < j < |r| ==> r[i].day < r[j].day
  {
    forall k | 0 <= k < |r| ensures r[k] == f(r[k].day) {
      assert r[k] in multiset(base);
    }
    assert Distinct(base);
    DistinctPermutation(base, r);
    forall i, j | 0 <= i < j < |r| ensures r[i].day < r[j].day {
      assert InOrder(DayOrderKey(r[i]), DayOrderKey(r[j]), Asc);
    }
  }

  /** Every movement's day has a row in the chart. */
  lemma ChartCoversEveryDay(ms: seq<StockMovement>, dayOf: int -> int, r: seq<DayTotal>)
    requires multiset(r) == multiset(MovementsByDate(ms, dayOf))
    ensures forall i :: 0 <= i < |ms| ==> HasRow(r, dayOf(ms[i].date))
  {
    var base := MovementsByDate(ms, dayOf);
    forall i | 0 <= i < |ms| ensures HasRow(r, dayOf(ms[i].date)) {
      var n :| 0 <= n < |base| && base[n].day == dayOf(ms[i].date);
      assert base[n] in multiset(r);
      var k :| 0 <= k < |r| && r[k] == base[n];
    }
  }

  function DayIn(t: DayTotal): int { t.inQty }

  function DayOut(t: DayTotal): int { t.outQty }

  /** Summed over the chart, the daily incoming totals give the quantity of all `in` movements. */
  lemma MovementDataInflow(ms: seq<StockMovement>, dayOf: int -> int)
    ensures SumOf(MovementData(ms, dayOf), DayIn) == SumOf(Filter(ms, IsInKind), Quantity)
  {
    SumOfPermutation(MovementData(ms, dayOf), MovementsByDate(ms, dayOf), DayIn);
    DailyFlows(ms, dayOf, DistinctKeys(ms, DayKey(dayOf)));
  }

  /** Summed over the chart, the daily outgoing totals give the quantity of all other movements. */
  lemma MovementDataOutflow(ms: seq<StockMovement>, dayOf: int -> int)
    ensures SumOf(MovementData(ms, dayOf), DayOut) == SumOf(Filter(ms, IsOutKind), Quantity)
  {
    SumOfPermutation(MovementData(ms, dayOf), MovementsByDate(ms, dayOf), DayOut);
    DailyFlows(ms, dayOf, DistinctKeys(ms, DayKey(dayOf)));
  }

  /** Over all distinct days, the daily columns add up to the incoming and the outgoing quantities. */
  lemma DailyFlows(ms: seq<StockMovement>, dayOf: int -> int, ks: seq<int>)
    requires ks == DistinctKeys(ms, DayKey(dayOf))
    ensures SumOf(DailyTotals(ms, dayOf, ks), DayIn) == SumOf(Filter(ms, IsInKind), Quantity)
    ensures SumOf(DailyTotals(ms, dayOf, ks), DayOut) == SumOf(Filter(ms, IsOutKind), Quantity)
  {
    DailyTotalsAreGroupSums(ms, dayOf, ks);
    GroupSumOfAllKeys(ms, InQuantity, DayKey(dayOf), ks);
    GroupSumOfAllKeys(ms, OutQuantity, DayKey(dayOf), ks);
    SumOfMasked(ms, Quantity, InQuantity, IsInKind);
    SumOfMasked(ms, Quantity, OutQuantity, IsOutKind);
  }

  lemma {:induction false} DailyTotalsAreGroupSums(ms: seq<StockMovement>, dayOf: int -> int, ks: seq<int>)
    ensures SumOf(DailyTotals(ms, dayOf, ks), DayIn) == GroupSum(ms, InQuantity, DayKey(dayOf), ks)
    ensures SumOf(DailyTotals(ms, dayOf, ks), DayOut) == GroupSum(ms, OutQuantity, DayKey(dayOf), ks)
  {
    if ks != [] {
      var init := ks[..|ks| - 1];
      DailyTotalsAreGroupSums(ms, dayOf, init);
      var t := DailyTotals(ms, dayOf, init);
      assert (t + [DayTotalOf(ms, dayOf, ks[|ks| - 1])])[..|t|] == t;
    }
  }

  /**
   * The chart of the last thirty days: the movement chart of the window that
   * starts `thirtyDaysAgo`.  Every movement of the window has its day's row,
   * every row is the day of a movement of the window, and the two columns add up to the window's incoming and outgoing totals.
   */
  function Last30DaysChart(ms: seq<StockMovement>, thirtyDaysAgo: int, dayOf: int -> int): (r: seq<DayTotal>)
    ensures forall i, j :: 0 <= i < j < |r| ==> r[i].day < r[j].day
    ensures forall k :: 0 <= k < |r| ==> r[k] == DayTotalOf(Window(ms, thirtyDaysAgo), dayOf, r[k].day)
    ensures forall m :: m in ms && m.date >= thirtyDaysAgo ==> HasRow(r, dayOf(m.date))
    ensures forall k :: 0 <= k < |r| ==> exists m :: m in ms && m.date >= thirtyDaysAgo && dayOf(m.date) == r[k].day
    ensures SumOf(r, DayIn) == RecentInflow(ms, thirtyDaysAgo)
    ensures SumOf(r, DayOut) == RecentOutflow(ms, thirtyDaysAgo)
  {
    var w := Window(ms, thirtyDaysAgo);
    var r := MovementData(w, dayOf);
    WindowDaysHaveRows(ms, thirtyDaysAgo, w, dayOf, r);
    MovementDataInflow(w, dayOf);
    MovementDataOutflow(w, dayOf);
    r
  }

  /**
   * When the rows' days are exactly the days of the window's movements, they
   * are exactly the days of the store's movements dated in the window.
   */
  lemma WindowDaysHaveRows(ms: seq<StockMovement>, since: int, w: seq<StockMovement>, dayOf: int -> int, r: seq<DayTotal>)
    requires w == Window(ms, since)
    requires forall i :: 0 <= i < |w| ==> HasRow(r, dayOf(w[i].date))
    requires forall k :: 0 <= k < |r| ==> IsMovementDay(w, dayOf, r[k].day)
    ensures forall m :: m in ms && m.date >= since ==> HasRow(r, dayOf(m.date))
    ensures forall k :: 0 <= k < |r| ==> exists m :: m in ms && m.date >= since && dayOf(m.date) == r[k].day
  {
    forall k | 0 <= k < |r| ensures exists m :: m in ms && m.date >= since && dayOf(m.date) == r[k].day {
      var i :| 0 <= i < |w| && dayOf(w[i].date) == r[k].day;
      assert w[i] in w;
    }
    forall m | m in ms && m.date >= since ensures HasRow(r, dayOf(m.date)) {
      assert m in w;
      var i :| 0 <= i < |w| && w[i] == m;
    }
  }
}
