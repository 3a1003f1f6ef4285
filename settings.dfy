/**
 * The settings page: adding and deleting categories and units.  Before
 * the store is called, a new name is refused when it is blank after
 * trimming, or when it equals an existing name once both are lower-cased.
 * The alert a refusal shows is returned as the outcome.
 */
module Settings {
  import opened Types
  import opened Text
  import opened Store

  /** Why an addition was refused, or that it went through. */
  datatype AddOutcome = BlankField | DuplicateName | Added

  /** `!s.trim()`. */
  predicate Blank(s: string) {
    Trim(s) == []
  }

  lemma BlankIffWhitespace(s: string)
    ensures Blank(s) <==> forall i :: 0 <= i < |s| ==> IsWhitespace(s[i])
  {
    TrimEmptyIffBlank(s);
  }

  function CategoryKey(c: Category): string { Lower(c.name) }

  function UnitKey(u: Unit): string { Lower(u.name) }

  /** The `some` that looks for a case-insensitive duplicate: true when an existing record's key is `key`. */
  predicate KeyTaken<T>(s: seq<T>, key: T -> string, k: string) {
    exists i :: 0 <= i < |s| && key(s[i]) == k
  }

  /** The checks of `handleAddCategory`, in their order. */
  function CheckCategory(categories: seq<Category>, name: string): (r: AddOutcome)
    ensures r == BlankField <==> forall i :: 0 <= i < |name| ==> IsWhitespace(name[i])
    ensures r == DuplicateName ==> exists i :: 0 <= i < |categories| && Lower(categories[i].name) == Lower(name)
    ensures r == Added <==> !Blank(name) && IdUnused(categories, CategoryKey, Lower(name))
  {
    BlankIffWhitespace(name);
    if Blank(name) then BlankField
    else if KeyTaken(categories, CategoryKey, Lower(name)) then DuplicateName
    else Added
  }

  /** The checks of `handleAddUnit`: the abbreviation must not be blank, but it may repeat. */
  function CheckUnit(units: seq<Unit>, name: string, abbreviation: string): (r: AddOutcome)
    ensures r == BlankField <==> Blank(name) || Blank(abbreviation)
    ensures r == DuplicateName ==> exists i :: 0 <= i < |units| && Lower(units[i].name) == Lower(name)
    ensures r == Added <==> !Blank(name) && !Blank(abbreviation) && IdUnused(units, UnitKey, Lower(name))
  {
    if Blank(name) || Blank(abbreviation) then BlankField
    else if KeyTaken(units, UnitKey, Lower(name)) then DuplicateName
    else Added
  }

  /** Names that differ even when lower-cased. */
  ghost predicate CaseDistinct<T>(s: seq<T>, key: T -> string) {
    UniqueIds(s, key)
  }

  /** A category that passes the checks keeps the names case-insensitively distinct. */
  lemma AddedCategoryKeepsNamesDistinct(categories: seq<Category>, name: string, id: string)
    requires CaseDistinct(categories, CategoryKey)
    requires CheckCategory(categories, name) == Added
    ensures CaseDistinct(categories + [NewCategory(name, id)], CategoryKey)
  {
    AppendFreshKeepsUnique(categories, NewCategory(name, id), CategoryKey);
  }

  lemma AddedUnitKeepsNamesDistinct(units: seq<Unit>, name: string, abbreviation: string, id: string)
    requires CaseDistinct(units, UnitKey)
    requires CheckUnit(units, name, abbreviation) == Added
    ensures CaseDistinct(units + [NewUnit(name, abbreviation, id)], UnitKey)
  {
    AppendFreshKeepsUnique(units, NewUnit(name, abbreviation, id), UnitKey);
  }

  /** Deleting a record keeps the remaining names distinct. */
  lemma DeleteKeepsNamesDistinct<T(!new)>(s: seq<T>, id: T -> string, key: T -> string, x: string)
    requires CaseDistinct(s, key)
    ensures CaseDistinct(RemoveId(s, id, x), key)
  {
    UniqueIdsSubsequence(RemoveId(s, id, x), s, key);
  }

  /** Only the name is compared: a unit whose abbreviation is already in use is still accepted. */
  lemma RepeatedAbbreviationIsAccepted(units: seq<Unit>, k: nat, name: string)
    requires k < |units| && !Blank(units[k].abbreviation)
    requires !Blank(name) && IdUnused(units, UnitKey, Lower(name))
    ensures CheckUnit(units, name, units[k].abbreviation) == Added
  {
  }

  /** The page's state: the two dialogs of each tab, the record chosen for deletion and the inputs. */
  class SettingsPage {
    const store: AppStore
    var isAddCategoryModalOpen: bool
    var isDeleteCategoryModalOpen: bool
    var categoryToDelete: Option<Category>
    var newCategoryName: string
    var isAddUnitModalOpen: bool
    var isDeleteUnitModalOpen: bool
    var unitToDelete: Option<Unit>
    var newUnitName: string
    var newUnitAbbreviation: string

    constructor (store: AppStore)
      ensures this.store == store
      ensures !isAddCategoryModalOpen && !isDeleteCategoryModalOpen && categoryToDelete == None && newCategoryName == ""
      ensures !isAddUnitModalOpen && !isDeleteUnitModalOpen && unitToDelete == None
      ensures newUnitName == "" && newUnitAbbreviation == ""
    {
      this.store := store;
      isAddCategoryModalOpen, isDeleteCategoryModalOpen := false, false;
      categoryToDelete := None;
      newCategoryName := "";
      isAddUnitModalOpen, isDeleteUnitModalOpen := false, false;
      unitToDelete := None;
      newUnitName, newUnitAbbreviation := "", "";
    }

    /**
     * `handleAddCategory`: a refused name changes nothing; an accepted one
     * is added once, as typed, and the input is cleared and the dialog closed.
     */
    method HandleAddCategory(id: string) returns (outcome: AddOutcome)
      requires store.Valid()
      requires IdUnused(store.categories, CategoryId, id)
      modifies this, store
      ensures outcome == CheckCategory(old(store.categories), old(newCategoryName))
      ensures outcome != Added ==> unchanged(this) && unchanged(store)
      ensures outcome == Added ==>
        && store.categories == old(store.categories) + [NewCategory(old(newCategoryName), id)]
        && store.stockItems == old(store.stockItems) && store.stockMovements == old(store.stockMovements)
        && store.units == old(store.units)
        && newCategoryName == "" && !isAddCategoryModalOpen
        && isDeleteCategoryModalOpen == old(isDeleteCategoryModalOpen) && categoryToDelete == old(categoryToDelete)
        && isAddUnitModalOpen == old(isAddUnitModalOpen) && isDeleteUnitModalOpen == old(isDeleteUnitModalOpen)
        && unitToDelete == old(unitToDelete)
        && newUnitName == old(newUnitName) && newUnitAbbreviation == old(newUnitAbbreviation)
      ensures CaseDistinct(old(store.categories), CategoryKey) ==> CaseDistinct(store.categories, CategoryKey)
      ensures store.Valid()
    {
      outcome := CheckCategory(store.categories, newCategoryName);
      if outcome != Added {
        return;
      }
      if CaseDistinct(store.categories, CategoryKey) {
        AddedCategoryKeepsNamesDistinct(store.categories, newCategoryName, id);
      }
      store.AddCategory(newCategoryName, id);
      newCategoryName := "";
      isAddCategoryModalOpen := false;
    }

    /** `openDeleteCategoryModal`. */
    method OpenDeleteCategoryModal(c: Category)
      modifies this
      ensures categoryToDelete == Some(c) && isDeleteCategoryModalOpen
      ensures isAddCategoryModalOpen == old(isAddCategoryModalOpen) && newCategoryName == old(newCategoryName)
      ensures isAddUnitModalOpen == old(isAddUnitModalOpen) && isDeleteUnitModalOpen == old(isDeleteUnitModalOpen)
      ensures unitToDelete == old(unitToDelete)
      ensures newUnitName == old(newUnitName) && newUnitAbbreviation == old(newUnitAbbreviation)
    {
      categoryToDelete := Some(c);
      isDeleteCategoryModalOpen := true;
    }

    /** `handleDeleteCategory`: without a chosen category nothing happens. */
    method HandleDeleteCategory()
      requires store.Valid()
      modifies this, store
      ensures old(categoryToDelete).None? ==> unchanged(this) && unchanged(store)
      ensures old(categoryToDelete).Some? ==>
        && store.categories == RemoveId(old(store.categories), CategoryId, old(categoryToDelete).value.id)
        && store.stockItems == old(store.stockItems) && store.stockMovements == old(store.stockMovements)
        && store.units == old(store.units)
        && !isDeleteCategoryModalOpen && categoryToDelete == None
        && isAddCategoryModalOpen == old(isAddCategoryModalOpen) && newCategoryName == old(newCategoryName)
        && isAddUnitModalOpen == old(isAddUnitModalOpen) && isDeleteUnitModalOpen == old(isDeleteUnitModalOpen)
        && unitToDelete == old(unitToDelete)
        && newUnitName == old(newUnitName) && newUnitAbbreviation == old(newUnitAbbreviation)
      ensures CaseDistinct(old(store.categories), CategoryKey) ==> CaseDistinct(store.categories, CategoryKey)
      ensures store.Valid()
    {
      if categoryToDelete.Some? {
        var id := categoryToDelete.value.id;
        if CaseDistinct(store.categories, CategoryKey) {
          DeleteKeepsNamesDistinct(store.categories, CategoryId, CategoryKey, id);
        }
        store.DeleteCategory(id);
        isDeleteCategoryModalOpen := false;
        categoryToDelete := None;
      }
    }

    /**
     * `handleAddUnit`: a refused unit changes nothing; an accepted one is
     * added once, as typed, and both inputs are cleared and the dialog closed.
     */
    method HandleAddUnit(id: string) returns (outcome: AddOutcome)
      requires store.Valid()
      requires IdUnused(store.units, UnitId, id)
      modifies this, store
      ensures outcome == CheckUnit(old(store.units), old(newUnitName), old(newUnitAbbreviation))
      ensures outcome != Added ==> unchanged(this) && unchanged(store)
      ensures outcome == Added ==>
        && store.units == old(store.units) + [NewUnit(old(newUnitName), old(newUnitAbbreviation), id)]
        && store.stockItems == old(store.stockItems) && store.stockMovements == old(store.stockMovements)
        && store.categories == old(store.categories)
        && newUnitName == "" && newUnitAbbreviation == "" && !isAddUnitModalOpen
        && isDeleteUnitModalOpen == old(isDeleteUnitModalOpen) && unitToDelete == old(unitToDelete)
        && isAddCategoryModalOpen == old(isAddCategoryModalOpen)
        && isDeleteCategoryModalOpen == old(isDeleteCategoryModalOpen)
        && categoryToDelete == old(categoryToDelete) && newCategoryName == old(newCategoryName)
      ensures CaseDistinct(old(store.units), UnitKey) ==> CaseDistinct(store.units, UnitKey)
      ensures store.Valid()
    {
      outcome := CheckUnit(store.units, newUnitName, newUnitAbbreviation);
      if outcome != Added {
        return;
      }
      if CaseDistinct(store.units, UnitKey) {
        AddedUnitKeepsNamesDistinct(store.units, newUnitName, newUnitAbbreviation, id);
      }
      store.AddUnit(newUnitName, newUnitAbbreviation, id);
      newUnitName, newUnitAbbreviation := "", "";
      isAddUnitModalOpen := false;
    }

    /** `openDeleteUnitModal`. */
    method OpenDeleteUnitModal(u: Unit)
      modifies this
      ensures unitToDelete == Some(u) && isDeleteUnitModalOpen
      ensures isAddUnitModalOpen == old(isAddUnitModalOpen)
      ensures newUnitName == old(newUnitName) && newUnitAbbreviation == old(newUnitAbbreviation)
      ensures isAddCategoryModalOpen == old(isAddCategoryModalOpen)
      ensures isDeleteCategoryModalOpen == old(isDeleteCategoryModalOpen)
      ensures categoryToDelete == old(categoryToDelete) && newCategoryName == old(newCategoryName)
    {
      unitToDelete := Some(u);
      isDeleteUnitModalOpen := true;
    }

    /** `handleDeleteUnit`: without a chosen unit nothing happens. */
    method HandleDeleteUnit()
      requires store.Valid()
      modifies this, store
      ensures old(unitToDelete).None? ==> unchanged(this) && unchanged(store)
      ensures old(unitToDelete).Some? ==>
        && store.units == RemoveId(old(store.units), UnitId, old(unitToDelete).value.id)
        && store.stockItems == old(store.stockItems) && store.stockMovements == old(store.stockMovements)
        && store.categories == old(store.categories)
        && !isDeleteUnitModalOpen && unitToDelete == None
        && isAddUnitModalOpen == old(isAddUnitModalOpen)
        && newUnitName == old(newUnitName) && newUnitAbbreviation == old(newUnitAbbreviation)
        && isAddCategoryModalOpen == old(isAddCategoryModalOpen)
        && isDeleteCategoryModalOpen == old(isDeleteCategoryModalOpen)
        && categoryToDelete == old(categoryToDelete) && newCategoryName == old(newCategoryName)
      ensures CaseDistinct(old(store.units), UnitKey) ==> CaseDistinct(store.units, UnitKey)
      ensures store.Valid()
    {
      if unitToDelete.Some? {
        var id := unitToDelete.value.id;
        if CaseDistinct(store.units, UnitKey) {
          DeleteKeepsNamesDistinct(store.units, UnitId, UnitKey, id);
        }
        store.DeleteUnit(id);
        isDeleteUnitModalOpen := false;
        unitToDelete := None;
      }
    }
  }
}
