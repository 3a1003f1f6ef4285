/**
 * The dashboard's aggregates over the store: the stock value at purchase
 * price, the items at or below their critical level, the five most recent
 * movements, and the incoming and outgoing quantities of the last seven days.
 * The instant seven days back is derived from the clock and is a parameter.
 */
module Dashboard {
  import opened Types
  import opened Seqs
  import opened Sorting
  import opened Store

  const RecentCount: nat := 5

  function ValueOf(x: StockItem): int { x.Value() }

  /** The ids of the items in the store. */
  ghost function IdsOf(items: seq<StockItem>): set<string> {
    set x | x in items :: x.id
  }

  /** The number of products: with unique ids, the number of distinct ids in the store. */
  function TotalProducts(items: seq<StockItem>): (r: nat)
    ensures UniqueIds(items, ItemId) ==> r == |IdsOf(items)|
  {
    CountOfUniqueIds(items);
    |items|
  }

  lemma {:induction false} CountOfUniqueIds(items: seq<StockItem>)
    ensures UniqueIds(items, ItemId) ==> |IdsOf(items)| == |items|
  {
    if items != [] && UniqueIds(items, ItemId) {
      var init, last := items[..|items| - 1], items[|items| - 1];
      assert forall i :: 0 <= i < |init| ==> init[i] == items[i];
      CountOfUniqueIds(init);
      IdsOfSnoc(items, init, last);
    }
  }

  /** The ids of a store whose last item has a new id: the earlier ids and one more. */
  lemma IdsOfSnoc(items: seq<StockItem>, init: seq<StockItem>, last: StockItem)
    requires items == init + [last]
    requires UniqueIds(items, ItemId)
    ensures IdsOf(items) == IdsOf(init) + {last.id}
    ensures last.id !in IdsOf(init)
  {
    forall x | x in init ensures x.id != last.id {
      var i :| 0 <= i < |init| && init[i] == x;
      assert ItemId(items[i]) != ItemId(items[|items| - 1]);
    }
  }

  /** Adding an item counts one product more. */
  lemma ProductCountAfterAdd(items: seq<StockItem>, x: StockItem)
    ensures TotalProducts(items + [x]) == TotalProducts(items) + 1
  {
  }

  /** With unique ids, deleting an item counts one product fewer. */
  lemma ProductCountAfterDelete(items: seq<StockItem>, k: nat)
    requires k < |items|
    requires UniqueIds(items, ItemId)
    ensures TotalProducts(RemoveId(items, ItemId, items[k].id)) == TotalProducts(items) - 1
  {
    RemovePresentDropsOne(items, ItemId, k);
  }

  /**
   * The total stock value: the sum of quantity times purchase price.  With no
   * negative quantity or price it is not negative.
   */
  function TotalStockValue(items: seq<StockItem>): (r: int)
    ensures (forall i :: 0 <= i < |items| ==> items[i].quantity >= 0 && items[i].purchasePrice >= 0) ==> r >= 0
  {
    SumOfNonNegative(items, ValueOf);
    SumOf(items, ValueOf)
  }

  /** Adding an item adds exactly its value. */
  lemma TotalValueOfAdded(items: seq<StockItem>, x: StockItem)
    ensures TotalStockValue(items + [x]) == TotalStockValue(items) + x.Value()
  {
    assert (items + [x])[..|items|] == items;
  }

  /** With unique ids, deleting an item removes exactly its value. */
  lemma TotalValueAfterDelete(items: seq<StockItem>, k: nat)
    requires k < |items|
    requires UniqueIds(items, ItemId)
    ensures TotalStockValue(RemoveId(items, ItemId, items[k].id)) == TotalStockValue(items) - items[k].Value()
  {
    RemovePresentDropsOne(items, ItemId, k);
    SumOfRemoved(items, k, ValueOf);
  }

  /** A recorded movement changes the stock value by the signed quantity times the item's purchase price. */
  lemma TotalValueAfterMovement(items: seq<StockItem>, movements: seq<StockMovement>, d: MovementDraft,
                                id: string, now: int, k: nat)
    requires UniqueIds(items, ItemId)
    requires k < |items| && items[k].id == d.stockItemId
    ensures TotalStockValue(RecordMovement(items, movements, d, id, now).0)
            == TotalStockValue(items) + Delta(d) * items[k].purchasePrice
  {
    var r := RecordMovement(items, movements, d, id, now).0;
    RecordMovementReplacesOne(items, movements, d, id, now, k);
    SumOfReplaced(items, r, k, ValueOf);
    ValueAfterQuantityChange(items[k], Delta(d), now);
  }

  lemma ValueAfterQuantityChange(x: StockItem, delta: int, now: int)
    ensures x.(quantity := x.quantity + delta, updatedAt := now).Value() == x.Value() + delta * x.purchasePrice
  {
    assert (x.quantity + delta) * x.purchasePrice == x.quantity * x.purchasePrice + delta * x.purchasePrice;
  }

  function IsCriticalItem(x: StockItem): bool { x.IsCritical() }

  /** The items at or below their critical level, in store order. */
  function CriticalStock(items: seq<StockItem>): (r: seq<StockItem>)
    ensures IsSubsequence(r, items)
    ensures forall x :: x in r <==> x in items && x.quantity <= x.criticalLevel
    ensures forall x: StockItem :: x.quantity <= x.criticalLevel ==> multiset(r)[x] == multiset(items)[x]
  {
    Filter(items, IsCriticalItem)
  }

  /** An incoming movement that takes an item above its critical level takes it off the critical list. */
  lemma InflowAboveLevelLeavesCritical(items: seq<StockItem>, movements: seq<StockMovement>, d: MovementDraft,
                                       id: string, now: int, k: nat)
    requires UniqueIds(items, ItemId)
    requires k < |items| && items[k].id == d.stockItemId
    requires items[k].quantity + Delta(d) > items[k].criticalLevel
    ensures RecordMovement(items, movements, d, id, now).0[k] !in CriticalStock(RecordMovement(items, movements, d, id, now).0)
  {
    RecordMovementAdjustsQuantity(items, movements, d, id, now, k);
  }

  function DateKey(m: StockMovement): KeyValue { Num(m.date) }

  /**
   * The five most recent movements, newest first.  Fewer are shown only when
   * there are fewer, and no movement left out is more recent than the last
   * one shown.
   */
  function RecentMovements(ms: seq<StockMovement>): (r: seq<StockMovement>)
    ensures |r| == Min(RecentCount, |ms|)
    ensures forall i, j :: 0 <= i < j < |r| ==> r[i].date >= r[j].date
    ensures multiset(r) <= multiset(ms)
    ensures forall x :: x in multiset(ms) - multiset(r) ==> |r| == RecentCount && x.date <= r[RecentCount - 1].date
  {
    var r := Top(ms, DateKey, Desc, RecentCount);
    assert forall i, j :: 0 <= i < j < |r| ==> InOrder(DateKey(r[i]), DateKey(r[j]), Desc);
    r
  }

  /** The movements dated at or after `since`. */
  function Since(since: int): StockMovement -> bool {
    (m: StockMovement) => m.date >= since
  }

  function InSince(since: int): StockMovement -> bool {
    (m: StockMovement) => m.kind == In && m.date >= since
  }

  function OutSince(since: int): StockMovement -> bool {
    (m: StockMovement) => m.kind == Out && m.date >= since
  }

  function Quantity(m: StockMovement): int { m.quantity }

  /** The movement's effect on stock: `+q` for `in`, `-q` for `out`. */
  function SignedQuantity(m: StockMovement): int {
    if m.kind == In then m.quantity else -m.quantity
  }

  /** The movements of the window that starts at `since`, in recorded order. */
  function Window(ms: seq<StockMovement>, since: int): (r: seq<StockMovement>)
    ensures IsSubsequence(r, ms)
    ensures forall x :: x in r <==> x in ms && x.date >= since
  {
    Filter(ms, Since(since))
  }

  function IsInKind(m: StockMovement): bool { m.kind == In }

  function IsOutKind(m: StockMovement): bool { m.kind == Out }

  /** The incoming quantity of the window: the quantities of its `in` movements. */
  function RecentInflow(ms: seq<StockMovement>, since: int): (r: int)
    ensures r == SumOf(Filter(Window(ms, since), IsInKind), Quantity)
  {
    FilterFilter(ms, Since(since), IsInKind, InSince(since));
    SumOf(Filter(ms, InSince(since)), Quantity)
  }

  /** The outgoing quantity of the window: the quantities of its `out` movements. */
  function RecentOutflow(ms: seq<StockMovement>, since: int): (r: int)
    ensures r == SumOf(Filter(Window(ms, since), IsOutKind), Quantity)
  {
    FilterFilter(ms, Since(since), IsOutKind, OutSince(since));
    SumOf(Filter(ms, OutSince(since)), Quantity)
  }

  /** Every movement of the window is counted in exactly one of the two flows. */
  lemma FlowsSplitWindow(ms: seq<StockMovement>, since: int)
    ensures RecentInflow(ms, since) + RecentOutflow(ms, since) == SumOf(Window(ms, since), Quantity)
  {
    SumOfFilterSplit(ms, Quantity, InSince(since), OutSince(since), Since(since));
  }

  /** Inflow minus outflow is the net change the window's movements made to the stock. */
  lemma NetFlowIsStockChange(ms: seq<StockMovement>, since: int)
    ensures RecentInflow(ms, since) - RecentOutflow(ms, since) == SumOf(Window(ms, since), SignedQuantity)
  {
    var inPart := (m: StockMovement) => if InSince(since)(m) then Quantity(m) else 0;
    var outPart := (m: StockMovement) => if OutSince(since)(m) then Quantity(m) else 0;
    var net := (m: StockMovement) => if Since(since)(m) then SignedQuantity(m) else 0;
    SumOfMasked(ms, Quantity, inPart, InSince(since));
    SumOfMasked(ms, Quantity, outPart, OutSince(since));
    SumOfMasked(ms, SignedQuantity, net, Since(since));
    SumOfDifference(ms, inPart, outPart, net);
  }

  /** A window that starts earlier holds every movement of one that starts later, in the same order. */
  lemma WiderWindowHasAllMovements(ms: seq<StockMovement>, early: int, late: int)
    requires early <= late
    ensures IsSubsequence(Window(ms, late), Window(ms, early))
    ensures |Window(ms, late)| <= |Window(ms, early)|
  {
    FilterMonotone(ms, Since(late), Since(early));
  }
}
