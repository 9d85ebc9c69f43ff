/**
 * The observer that creates or updates the product's inventory: guard on the
 * SKU, build the stock key from the last entity id, derive the stock status
 * from the loaded quantity, map the stock item columns, and persist the
 * status and then the item.
 */
module ProductInventoryObserver {

  import opened Values
  import opened Collaborators
  import ColumnKeys
  import MemberNames
  import BackendTypeKeys

  /** The website id used when the row names none. */
  const DEFAULT_WEBSITE_ID: Value := Int(0)

  /** The default stock every record is written to. */
  const DEFAULT_STOCK_ID: Value := Int(1)

  const OUT_OF_STOCK: Value := Int(0)
  const IN_STOCK: Value := Int(1)

  /** The loader mapping for the stock status: the row's qty column, coerced to float. */
  function QtyMapping(): Mapping
  {
    map[MemberNames.QTY := ColumnSpec(ColumnKeys.QTY, BackendTypeKeys.BACKEND_TYPE_FLOAT)]
  }

  /**
   * The key shared by the stock status and the stock item: the product the
   * product observer persisted last, the row's website and the default stock.
   */
  function PrepareAttributes(s: Subject, row: Row): (base: Entity)
    ensures base.Keys == {MemberNames.PRODUCT_ID, MemberNames.WEBSITE_ID, MemberNames.STOCK_ID}
    ensures base[MemberNames.PRODUCT_ID] == s.lastEntityId
    ensures IsSet(row, ColumnKeys.WEBSITE_ID) ==> base[MemberNames.WEBSITE_ID] == row[ColumnKeys.WEBSITE_ID]
    ensures !IsSet(row, ColumnKeys.WEBSITE_ID) ==> base[MemberNames.WEBSITE_ID] == DEFAULT_WEBSITE_ID
    ensures base[MemberNames.STOCK_ID] == DEFAULT_STOCK_ID
  {
    map[
      MemberNames.PRODUCT_ID := s.lastEntityId,
      MemberNames.WEBSITE_ID := GetValue(row, ColumnKeys.WEBSITE_ID, DEFAULT_WEBSITE_ID),
      MemberNames.STOCK_ID := DEFAULT_STOCK_ID
    ]
  }

  /** The in-stock rule on a record: its quantity is set and strictly positive. */
  predicate InStock(record: Entity)
  {
    IsSet(record, MemberNames.QTY) && Positive(record[MemberNames.QTY])
  }

  /**
   * The stock status record: the key, overridden by an out-of-stock default,
   * overridden by the loaded quantity fields; then marked in stock when the
   * quantity is set and positive.
   */
  function PrepareStockStatusAttributes(base: Entity, loaded: Entity): (status: Entity)
    ensures status.Keys == base.Keys + loaded.Keys + {MemberNames.STOCK_STATUS}
    ensures forall k :: k in loaded && k != MemberNames.STOCK_STATUS ==> status[k] == loaded[k]
    ensures forall k :: k in base && k !in loaded && k != MemberNames.STOCK_STATUS ==> status[k] == base[k]
    ensures InStock(Merge(base, loaded)) ==> status[MemberNames.STOCK_STATUS] == IN_STOCK
    ensures !InStock(Merge(base, loaded)) && MemberNames.STOCK_STATUS in loaded ==>
      status[MemberNames.STOCK_STATUS] == loaded[MemberNames.STOCK_STATUS]
    ensures !InStock(Merge(base, loaded)) && MemberNames.STOCK_STATUS !in loaded ==>
      status[MemberNames.STOCK_STATUS] == OUT_OF_STOCK
  {
    var stockStatus := Merge(Merge(base, map[MemberNames.STOCK_STATUS := OUT_OF_STOCK]), loaded);
    if InStock(stockStatus) then stockStatus[MemberNames.STOCK_STATUS := IN_STOCK] else stockStatus
  }

  /** A hook for subclasses; here it hands the stock status on unchanged. */
  function InitializeStockStatus(attr: Entity): (status: Entity)
    ensures status == attr
  {
    attr
  }

  /** The stock item record: the key overridden by the loaded stock columns, nothing derived. */
  function PrepareStockItemAttributes(base: Entity, loaded: Entity): (item: Entity)
    ensures item.Keys == base.Keys + loaded.Keys
    ensures forall k :: k in loaded ==> item[k] == loaded[k]
    ensures forall k :: k in base && k !in loaded ==> item[k] == base[k]
  {
    Merge(base, loaded)
  }

  /** A hook for subclasses; here it hands the stock item on unchanged. */
  function InitializeStockItem(attr: Entity): (item: Entity)
    ensures item == attr
  {
    attr
  }

  /** The stock status this observer persists for a row. */
  function StockStatusOf(env: Env, s: Subject, row: Row): Entity
  {
    InitializeStockStatus(PrepareStockStatusAttributes(PrepareAttributes(s, row), env.loadAttributes(row, QtyMapping())))
  }

  /** The stock item this observer persists for a row. */
  function StockItemOf(env: Env, s: Subject, row: Row): Entity
  {
    InitializeStockItem(PrepareStockItemAttributes(PrepareAttributes(s, row), env.loadAttributes(row, env.headerStockMappings)))
  }

  /**
   * One row through the inventory observer.  A processed SKU changes nothing;
   * otherwise exactly one stock status and then one stock item are persisted,
   * and the subject itself is left as it was.
   */
  function Process(env: Env, s: Subject, row: Row): (s': Subject)
    ensures s'.processed == s.processed && s'.lastEntityId == s.lastEntityId
    ensures HasBeenProcessed(s, Sku(row)) ==> s' == s
    ensures !HasBeenProcessed(s, Sku(row)) ==>
      s'.log == s.log + [PersistStockStatus(StockStatusOf(env, s, row)), PersistStockItem(StockItemOf(env, s, row))]
  {
    if HasBeenProcessed(s, Sku(row)) then s
    else
      var status := InitializeStockStatus(PrepareStockStatusAttributes(PrepareAttributes(s, row), env.loadAttributes(row, QtyMapping())));
      var log := s.log + [PersistStockStatus(status)];
      var item := InitializeStockItem(PrepareStockItemAttributes(PrepareAttributes(s, row), env.loadAttributes(row, env.headerStockMappings)));
      s.(log := log + [PersistStockItem(item)])
  }

  /**
   * The stock status rule: when the loader yields only the fields it was asked
   * for, the persisted status is 1 exactly when the row's quantity is set and
   * positive, and 0 otherwise (quantity absent, null, zero or negative).
   */
  lemma StockStatusRule(env: Env, s: Subject, row: Row)
    requires env.loadAttributes(row, QtyMapping()).Keys <= QtyMapping().Keys
    ensures var loaded := env.loadAttributes(row, QtyMapping());
      var status := StockStatusOf(env, s, row);
      && MemberNames.STOCK_STATUS in status
      && (status[MemberNames.STOCK_STATUS] == IN_STOCK <==> IsSet(loaded, MemberNames.QTY) && Positive(loaded[MemberNames.QTY]))
      && (status[MemberNames.STOCK_STATUS] == OUT_OF_STOCK <==> !(IsSet(loaded, MemberNames.QTY) && Positive(loaded[MemberNames.QTY])))
  {
  }
}
