/**
 * What the two observers share: the subject (row coordinator) state they read
 * and write, the log of calls they make on the product bunch processor, and
 * the collaborators whose code lies outside the observers.
 */
module Collaborators {

  import opened Wrappers
  import opened Values
  import ColumnKeys

  /** One call made on the product bunch processor, with what it returned. */
  datatype Call =
    | LoadProduct(sku: Value, result: Option<Entity>)
    | PersistProduct(product: Entity, id: Value)
    | PersistStockStatus(status: Entity)
    | PersistStockItem(item: Entity)

  /** A source column and the backend type its value is coerced to. */
  datatype ColumnSpec = ColumnSpec(column: string, backendType: string)

  /** Attribute loader mapping: target field name to source column and backend type. */
  type Mapping = map<string, ColumnSpec>

  /**
   * The subject's mutable state as the observers see it: the SKUs already
   * processed in this batch, the id of the product persisted last, and every
   * processor call made so far.
   */
  datatype Subject = Subject(processed: set<Value>, lastEntityId: Value, log: seq<Call>)

  /**
   * Collaborators outside the observers.  The processor's functions receive
   * the log of earlier calls, so what they load or the id they return may
   * depend on everything persisted before.
   */
  datatype Env = Env(
    now: string,                                   // the wall-clock default 'Y-m-d H:i:s'
    formatDate: Value -> Value,                    // the parent class's date formatter
    attributeSet: Entity,                          // the subject's current attribute set
    headerStockMappings: Mapping,                  // configured stock item columns
    loadAttributes: (Row, Mapping) -> Entity,      // the dynamic attribute loader
    loadProduct: (seq<Call>, Value) -> Option<Entity>,
    persistProduct: (seq<Call>, Entity) -> Value)

  /** The row's SKU, read without a default. */
  function Sku(row: Row): Value
  {
    GetValue(row, ColumnKeys.SKU, Null)
  }

  /** The subject's batch guard: has a row with this SKU been processed already? */
  predicate HasBeenProcessed(s: Subject, sku: Value)
  {
    sku in s.processed
  }
}
