/**
 * The application's state container: four collections (stock items, stock
 * movements, categories, units) that every page reads and that only the
 * store's mutators replace.  Each mutator computes its replacement with an
 * append, a `map` or a `filter`; those computations are the functions of this
 * module, and the methods of `AppStore` assign their results.
 *
 * Generated ids and the clock are parameters: a mutator that creates a
 * record receives its id, which must not be in use, and the current instant.
 */
module Store {
  import opened Types
  import opened Seqs

  function ItemId(x: StockItem): string { x.id }
  function MovementId(x: StockMovement): string { x.id }
  function CategoryId(x: Category): string { x.id }
  function UnitId(x: Unit): string { x.id }

  /** No two records of `s` share an id. */
  ghost predicate UniqueIds<T>(s: seq<T>, id: T -> string) {
    forall i, j :: 0 <= i < j < |s| ==> id(s[i]) != id(s[j])
  }

  /** No record of `s` has the id `id`. */
  ghost predicate IdUnused<T>(s: seq<T>, id: T -> string, x: string) {
    forall i :: 0 <= i < |s| ==> id(s[i]) != x
  }

  lemma {:induction false} SubsequenceMembers<T>(r: seq<T>, s: seq<T>)
    requires IsSubsequence(r, s)
    ensures forall i :: 0 <= i < |r| ==> r[i] in s
    decreases |s|
  {
    if s != [] {
      var s' := s[..|s| - 1];
      if r != [] && r[|r| - 1] == s[|s| - 1] && IsSubsequence(r[..|r| - 1], s') {
        SubsequenceMembers(r[..|r| - 1], s');
        forall i | 0 <= i < |r| ensures r[i] in s {
          if i < |r| - 1 {
            assert r[i] == r[..|r| - 1][i];
            assert r[i] in s';
          }
        }
      } else {
        SubsequenceMembers(r, s');
      }
    }
  }

  /** Deleting records never makes two of the remaining ones share an id. */
  lemma {:induction false} UniqueIdsSubsequence<T>(r: seq<T>, s: seq<T>, id: T -> string)
    requires IsSubsequence(r, s)
    requires UniqueIds(s, id)
    ensures UniqueIds(r, id)
    decreases |s|
  {
    if s != [] {
      var s' := s[..|s| - 1];
      assert UniqueIds(s', id);
      if r != [] && r[|r| - 1] == s[|s| - 1] && IsSubsequence(r[..|r| - 1], s') {
        var r' := r[..|r| - 1];
        UniqueIdsSubsequence(r', s', id);
        SubsequenceMembers(r', s');
        forall i, j | 0 <= i < j < |r| ensures id(r[i]) != id(r[j]) {
          assert r[i] == r'[i];
          if j == |r| - 1 {
            var k :| 0 <= k < |s'| && s'[k] == r[i];
            assert s[k] == r[i];
          } else {
            assert r[j] == r'[j];
          }
        }
      } else {
        UniqueIdsSubsequence(r, s', id);
      }
    }
  }

  /** Appending a record whose id is unused keeps the ids unique. */
  lemma AppendFreshKeepsUnique<T>(s: seq<T>, x: T, id: T -> string)
    requires UniqueIds(s, id)
    requires IdUnused(s, id, id(x))
    ensures UniqueIds(s + [x], id)
  {
    var r := s + [x];
    forall i, j | 0 <= i < j < |r| ensures id(r[i]) != id(r[j]) {
      assert r[i] == s[i];
    }
  }

  /** The item `addStockItem` appends: the draft's fields, the given id, and both timestamps `now`. */
  function NewItem(d: ItemDraft, id: string, now: int): StockItem {
    StockItem(id, d.name, d.category, d.unit, d.stockCode, d.quantity, d.criticalLevel,
              d.purchasePrice, d.salePrice, d.description, now, now)
  }

  function Patched<T>(current: T, p: Option<T>): T {
    if p.Some? then p.value else current
  }

  /** `{ ...item, ...patch, updatedAt: now }`. */
  function ApplyPatch(item: StockItem, p: ItemPatch, now: int): StockItem {
    item.(name := Patched(item.name, p.name),
          category := Patched(item.category, p.category),
          unit := Patched(item.unit, p.unit),
          stockCode := Patched(item.stockCode, p.stockCode),
          quantity := Patched(item.quantity, p.quantity),
          criticalLevel := Patched(item.criticalLevel, p.criticalLevel),
          purchasePrice := Patched(item.purchasePrice, p.purchasePrice),
          salePrice := Patched(item.salePrice, p.salePrice),
          description := Patched(item.description, p.description),
          updatedAt := now)
  }

  /**
   * A patched item keeps its id and creation time, takes every field the
   * patch carries, keeps every field it does not carry, and is stamped `now`.
   */
  lemma ApplyPatchFields(item: StockItem, p: ItemPatch, now: int)
    ensures var r := ApplyPatch(item, p, now);
      && r.id == item.id && r.createdAt == item.createdAt && r.updatedAt == now
      && (p.name.Some? ==> r.name == p.name.value) && (p.name.None? ==> r.name == item.name)
      && (p.category.Some? ==> r.category == p.category.value) && (p.category.None? ==> r.category == item.category)
      && (p.unit.Some? ==> r.unit == p.unit.value) && (p.unit.None? ==> r.unit == item.unit)
      && (p.stockCode.Some? ==> r.stockCode == p.stockCode.value) && (p.stockCode.None? ==> r.stockCode == item.stockCode)
      && (p.quantity.Some? ==> r.quantity == p.quantity.value) && (p.quantity.None? ==> r.quantity == item.quantity)
      && (p.criticalLevel.Some? ==> r.criticalLevel == p.criticalLevel.value)
      && (p.criticalLevel.None? ==> r.criticalLevel == item.criticalLevel)
      && (p.purchasePrice.Some? ==> r.purchasePrice == p.purchasePrice.value)
      && (p.purchasePrice.None? ==> r.purchasePrice == item.purchasePrice)
      && (p.salePrice.Some? ==> r.salePrice == p.salePrice.value) && (p.salePrice.None? ==> r.salePrice == item.salePrice)
      && (p.description.Some? ==> r.description == p.description.value)
      && (p.description.None? ==> r.description == item.description)
  {
  }

  /**
   * `items.map(x => x.id === id ? { ...x, ...patch, updatedAt: now } : x)`:
   * same length and order, every item with another id untouched.
   */
  function UpdateItems(items: seq<StockItem>, id: string, p: ItemPatch, now: int): (r: seq<StockItem>)
    ensures |r| == |items|
    ensures forall k :: 0 <= k < |items| && items[k].id != id ==> r[k] == items[k]
    ensures forall k :: 0 <= k < |items| && items[k].id == id ==> r[k] == ApplyPatch(items[k], p, now)
  {
    if items == [] then []
    else
      var init, last := items[..|items| - 1], items[|items| - 1];
      UpdateItems(init, id, p, now) + [if last.id == id then ApplyPatch(last, p, now) else last]
  }

  /** Updating an id that no item has leaves the collection as it was. */
  lemma UpdateAbsentIsIdentity(items: seq<StockItem>, id: string, p: ItemPatch, now: int)
    requires IdUnused(items, ItemId, id)
    ensures UpdateItems(items, id, p, now) == items
  {
  }

  /** Repeating an update with the same patch and instant changes nothing more. */
  lemma UpdateIdempotent(items: seq<StockItem>, id: string, p: ItemPatch, now: int)
    ensures var once := UpdateItems(items, id, p, now);
            UpdateItems(once, id, p, now) == once
  {
  }

  /** An update keeps every item's id where it was. */
  lemma UpdateKeepsIds(items: seq<StockItem>, id: string, p: ItemPatch, now: int)
    ensures forall k :: 0 <= k < |items| ==> UpdateItems(items, id, p, now)[k].id == items[k].id
  {
  }

  function IdIsNot<T>(id: T -> string, x: string): T -> bool {
    y => id(y) != x
  }

  /** `s.filter(x => x.id !== id)`: every record with that id goes, every other stays, in order. */
  function RemoveId<T(!new)>(s: seq<T>, id: T -> string, x: string): (r: seq<T>)
    ensures IsSubsequence(r, s)
    ensures forall i :: 0 <= i < |r| ==> id(r[i]) != x
    ensures forall y :: id(y) != x ==> multiset(r)[y] == multiset(s)[y]
  {
    Filter(s, IdIsNot(id, x))
  }

  /** Removing an id that no record has leaves the collection as it was. */
  lemma RemoveAbsentIsIdentity<T(!new)>(s: seq<T>, id: T -> string, x: string)
    requires IdUnused(s, id, x)
    ensures RemoveId(s, id, x) == s
  {
    FilterKeepsAll(s, IdIsNot(id, x));
  }

  /** With unique ids, removing a present id removes exactly one record. */
  lemma RemovePresentDropsOne<T(!new)>(s: seq<T>, id: T -> string, k: nat)
    requires k < |s|
    requires UniqueIds(s, id)
    ensures RemoveId(s, id, id(s[k])) == s[..k] + s[k + 1..]
  {
    var x := id(s[k]);
    var p := IdIsNot(id, x);
    var a, b := s[..k], s[k + 1..];
    assert s == a + [s[k]] + b;
    forall i | 0 <= i < |a| ensures p(a[i]) {
      assert a[i] == s[i];
    }
    forall i | 0 <= i < |b| ensures p(b[i]) {
      assert b[i] == s[k + 1 + i];
    }
    FilterKeepsAll(a, p);
    FilterKeepsAll(b, p);
    calc {
      Filter(s, p);
      Filter((a + [s[k]]) + b, p);
      { FilterConcat(a + [s[k]], b, p); }
      Filter(a + [s[k]], p) + Filter(b, p);
      { FilterSnoc(a, s[k], p); }
      a + b;
    }
  }

  /** `items.find(x => x.id === id)`: an item with that id, if there is one. */
  function FindItem(items: seq<StockItem>, id: string): (r: Option<StockItem>)
    ensures r.None? <==> IdUnused(items, ItemId, id)
    ensures r.Some? ==> r.value in items && r.value.id == id
  {
    if items == [] then None
    else if items[0].id == id then Some(items[0])
    else
      assert forall i :: 1 <= i < |items| ==> items[i] == items[1..][i - 1];
      FindItem(items[1..], id)
  }

  /** The item found is the first one with that id. */
  lemma {:induction false} FindItemIsFirst(items: seq<StockItem>, id: string)
    requires FindItem(items, id).Some?
    ensures exists k :: 0 <= k < |items| && items[k] == FindItem(items, id).value
                        && IdUnused(items[..k], ItemId, id)
  {
    if items[0].id == id {
      assert IdUnused(items[..0], ItemId, id);
    } else {
      FindItemIsFirst(items[1..], id);
      var k :| 0 <= k < |items[1..]| && items[1..][k] == FindItem(items[1..], id).value
               && IdUnused(items[1..][..k], ItemId, id);
      assert items[k + 1] == FindItem(items, id).value;
      var pre := items[..k + 1];
      forall i | 0 <= i < k + 1 ensures ItemId(pre[i]) != id {
        if i > 0 { assert pre[i] == items[1..][..k][i - 1]; }
      }
    }
  }

  /** With unique ids, the item found is the one at the index that has the id. */
  lemma FindUnique(items: seq<StockItem>, k: nat)
    requires k < |items|
    requires UniqueIds(items, ItemId)
    ensures FindItem(items, items[k].id) == Some(items[k])
  {
    var r := FindItem(items, items[k].id);
    var j :| 0 <= j < |items| && items[j] == r.value;
    assert ItemId(items[j]) == ItemId(items[k]);
  }

  /** The signed quantity change of a movement: `+q` for `in`, `-q` for `out`. */
  function Delta(d: MovementDraft): int {
    if d.kind == In then d.quantity else -d.quantity
  }

  /** The movement record: the draft's fields, the given id and a snapshot of the item's name. */
  function NewMovement(d: MovementDraft, id: string, itemName: string): StockMovement {
    StockMovement(id, d.stockItemId, itemName, d.kind, d.quantity, d.reason, d.date, d.performedBy, d.notes)
  }

  /**
   * `addStockMovement` as one step on the items and the movements.  For an
   * unknown item nothing changes.  Otherwise one movement carrying the found
   * item's current name is appended, and every item with that id gets the
   * found item's quantity plus the signed change (no lower bound) and the
   * stamp `now`, all its other fields kept; every other item is untouched.
   */
  function RecordMovement(items: seq<StockItem>, movements: seq<StockMovement>, d: MovementDraft,
                          id: string, now: int): (r: (seq<StockItem>, seq<StockMovement>))
    ensures FindItem(items, d.stockItemId).None? ==> r == (items, movements)
    ensures FindItem(items, d.stockItemId).Some? ==>
      var found := FindItem(items, d.stockItemId).value;
      && r.1 == movements + [NewMovement(d, id, found.name)]
      && |r.0| == |items|
      && (forall k :: 0 <= k < |items| && items[k].id != d.stockItemId ==> r.0[k] == items[k])
      && (forall k :: 0 <= k < |items| && items[k].id == d.stockItemId ==>
            r.0[k] == items[k].(quantity := found.quantity + Delta(d), updatedAt := now))
  {
    match FindItem(items, d.stockItemId)
    case None => (items, movements)
    case Some(found) =>
      (UpdateItems(items, d.stockItemId, QuantityPatch(found.quantity + Delta(d)), now),
       movements + [NewMovement(d, id, found.name)])
  }

  /** With unique ids, the movement changes the quantity of exactly the item it names, by `+q` or `-q`. */
  lemma RecordMovementAdjustsQuantity(items: seq<StockItem>, movements: seq<StockMovement>,
                                      d: MovementDraft, id: string, now: int, k: nat)
    requires UniqueIds(items, ItemId)
    requires k < |items| && items[k].id == d.stockItemId
    ensures var r := RecordMovement(items, movements, d, id, now);
      && r.0[k].quantity == items[k].quantity + Delta(d)
      && r.0[k].name == items[k].name
      && r.1[|movements|].stockItemName == items[k].name
  {
    FindUnique(items, k);
  }

  /** With unique ids, the movement replaces exactly the item it names and leaves the others in place. */
  lemma RecordMovementReplacesOne(items: seq<StockItem>, movements: seq<StockMovement>,
                                  d: MovementDraft, id: string, now: int, k: nat)
    requires UniqueIds(items, ItemId)
    requires k < |items| && items[k].id == d.stockItemId
    ensures var r := RecordMovement(items, movements, d, id, now).0;
      && |r| == |items|
      && r[k] == items[k].(quantity := items[k].quantity + Delta(d), updatedAt := now)
      && forall i :: 0 <= i < |items| && i != k ==> r[i] == items[i]
  {
    FindUnique(items, k);
    forall i | 0 <= i < |items| && i != k ensures items[i].id != d.stockItemId {
      assert ItemId(items[i]) != ItemId(items[k]);
    }
  }

  function NewCategory(name: string, id: string): Category { Category(id, name) }

  function NewUnit(name: string, abbreviation: string, id: string): Unit { Unit(id, name, abbreviation) }

  class AppStore {
    var stockItems: seq<StockItem>
    var stockMovements: seq<StockMovement>
    var categories: seq<Category>
    var units: seq<Unit>

    /** Every collection's ids are unique (generated ids never collide). */
    ghost predicate Valid()
      reads this
    {
      && UniqueIds(stockItems, ItemId)
      && UniqueIds(stockMovements, MovementId)
      && UniqueIds(categories, CategoryId)
      && UniqueIds(units, UnitId)
    }

    /** The store starts from the given initial data. */
    constructor (items: seq<StockItem>, movements: seq<StockMovement>, cats: seq<Category>, us: seq<Unit>)
      requires UniqueIds(items, ItemId) && UniqueIds(movements, MovementId)
      requires UniqueIds(cats, CategoryId) && UniqueIds(us, UnitId)
      ensures Valid()
      ensures stockItems == items && stockMovements == movements && categories == cats && units == us
    {
      stockItems, stockMovements, categories, units := items, movements, cats, us;
    }

    method AddStockItem(d: ItemDraft, id: string, now: int)
      requires Valid()
      requires IdUnused(stockItems, ItemId, id)
      modifies this
      ensures Valid()
      ensures stockItems == old(stockItems) + [NewItem(d, id, now)]
      ensures stockMovements == old(stockMovements) && categories == old(categories) && units == old(units)
    {
      AppendFreshKeepsUnique(stockItems, NewItem(d, id, now), ItemId);
      stockItems := stockItems + [NewItem(d, id, now)];
    }

    method UpdateStockItem(id: string, p: ItemPatch, now: int)
      requires Valid()
      modifies this
      ensures Valid()
      ensures stockItems == UpdateItems(old(stockItems), id, p, now)
      ensures stockMovements == old(stockMovements) && categories == old(categories) && units == old(units)
    {
      var r := UpdateItems(stockItems, id, p, now);
      UpdateKeepsIds(stockItems, id, p, now);
      assert forall k :: 0 <= k < |r| ==> ItemId(r[k]) == ItemId(stockItems[k]);
      stockItems := r;
    }

    method DeleteStockItem(id: string)
      requires Valid()
      modifies this
      ensures Valid()
      ensures stockItems == RemoveId(old(stockItems), ItemId, id)
      ensures stockMovements == old(stockMovements) && categories == old(categories) && units == old(units)
    {
      var r := RemoveId(stockItems, ItemId, id);
      UniqueIdsSubsequence(r, stockItems, ItemId);
      stockItems := r;
    }

    method AddStockMovement(d: MovementDraft, id: string, now: int)
      requires Valid()
      requires IdUnused(stockMovements, MovementId, id)
      modifies this
      ensures Valid()
      ensures (stockItems, stockMovements) == RecordMovement(old(stockItems), old(stockMovements), d, id, now)
      ensures categories == old(categories) && units == old(units)
    {
      var found := FindItem(stockItems, d.stockItemId);
      if found.None? {
        return;
      }
      var item := found.value;
      AppendFreshKeepsUnique(stockMovements, NewMovement(d, id, item.name), MovementId);
      stockMovements := stockMovements + [NewMovement(d, id, item.name)];
      UpdateStockItem(d.stockItemId, QuantityPatch(item.quantity + Delta(d)), now);
    }

    method AddCategory(name: string, id: string)
      requires Valid()
      requires IdUnused(categories, CategoryId, id)
      modifies this
      ensures Valid()
      ensures categories == old(categories) + [NewCategory(name, id)]
      ensures stockItems == old(stockItems) && stockMovements == old(stockMovements) && units == old(units)
    {
      AppendFreshKeepsUnique(categories, NewCategory(name, id), CategoryId);
      categories := categories + [NewCategory(name, id)];
    }

    method DeleteCategory(id: string)
      requires Valid()
      modifies this
      ensures Valid()
      ensures categories == RemoveId(old(categories), CategoryId, id)
      ensures stockItems == old(stockItems) && stockMovements == old(stockMovements) && units == old(units)
    {
      var r := RemoveId(categories, CategoryId, id);
      UniqueIdsSubsequence(r, categories, CategoryId);
      categories := r;
    }

    method AddUnit(name: string, abbreviation: string, id: string)
      requires Valid()
      requires IdUnused(units, UnitId, id)
      modifies this
      ensures Valid()
      ensures units == old(units) + [NewUnit(name, abbreviation, id)]
      ensures stockItems == old(stockItems) && stockMovements == old(stockMovements) && categories == old(categories)
    {
      AppendFreshKeepsUnique(units, NewUnit(name, abbreviation, id), UnitId);
      units := units + [NewUnit(name, abbreviation, id)];
    }

    method DeleteUnit(id: string)
      requires Valid()
      modifies this
      ensures Valid()
      ensures units == RemoveId(old(units), UnitId, id)
      ensures stockItems == old(stockItems) && stockMovements == old(stockMovements) && categories == old(categories)
    {
      var r := RemoveId(units, UnitId, id);
      UniqueIdsSubsequence(r, units, UnitId);
      units := r;
    }
  }
}
