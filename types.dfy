/**
 * The records of the inventory application: stock items, stock movements,
 * categories and units, together with the drafts and patches the store's
 * mutators receive.  Identifiers and text are strings, instants are `int`
 * timestamps, and quantities and prices are integers.
 */
module Types {

  datatype Option<+T> = None | Some(value: T)

  /** A present, non-empty text (JavaScript truthiness of an optional string). */
  predicate Truthy(s: Option<string>) {
    s.Some? && s.value != ""
  }

  /** The closed two-valued movement tag ('in' | 'out'). */
  datatype MovementType = In | Out

  /** A trackable product.  `category` and `unit` refer to reference data by name. */
  datatype StockItem = StockItem(
    id: string,
    name: string,
    category: string,
    unit: string,
    stockCode: string,
    quantity: int,
    criticalLevel: int,
    purchasePrice: int,
    salePrice: int,
    description: Option<string>,
    createdAt: int,
    updatedAt: int)
  {
    /** The stock value of the item at its purchase price. */
    function Value(): int {
      quantity * purchasePrice
    }

    /** The low-stock flag: quantity at or below the critical level. */
    predicate IsCritical() {
      quantity <= criticalLevel
    }
  }

  /** A stock item without the generated id and timestamps (what `addStockItem` receives). */
  datatype ItemDraft = ItemDraft(
    name: string,
    category: string,
    unit: string,
    stockCode: string,
    quantity: int,
    criticalLevel: int,
    purchasePrice: int,
    salePrice: int,
    description: Option<string>)

  /**
   * A partial stock item (what `updateStockItem` receives).  `None` is a field
   * the patch does not carry.  Because an object spread copies a property that
   * is present with the value `undefined`, the description of a patch is an
   * `Option<Option<string>>`: `Some(None)` clears the description.
   */
  datatype ItemPatch = ItemPatch(
    name: Option<string>,
    category: Option<string>,
    unit: Option<string>,
    stockCode: Option<string>,
    quantity: Option<int>,
    criticalLevel: Option<int>,
    purchasePrice: Option<int>,
    salePrice: Option<int>,
    description: Option<Option<string>>)

  /** A patch that only sets the quantity, as the store sends after a movement. */
  function QuantityPatch(q: int): ItemPatch {
    ItemPatch(None, None, None, None, Some(q), None, None, None, None)
  }

  /** A recorded change to an item's quantity; `kind` is the source's `type` field. */
  datatype StockMovement = StockMovement(
    id: string,
    stockItemId: string,
    stockItemName: string,
    kind: MovementType,
    quantity: int,
    reason: string,
    date: int,
    performedBy: string,
    notes: Option<string>)

  /** A movement without its id and without the item name snapshot (what `addStockMovement` receives). */
  datatype MovementDraft = MovementDraft(
    stockItemId: string,
    kind: MovementType,
    quantity: int,
    reason: string,
    date: int,
    performedBy: string,
    notes: Option<string>)

  datatype Category = Category(id: string, name: string)

  datatype Unit = Unit(id: string, name: string, abbreviation: string)
}
