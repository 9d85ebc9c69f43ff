/**
 * PHP values and associative arrays as the observers see them: a row of the
 * import file and every entity handed to the persistence layer are maps from
 * field names to values.
 */
module Values {

  /** The scalar values that occur in a row or an entity; `Float` is a PHP float taken as an exact real. */
  datatype Value = Null | Int(i: int) | Float(f: real) | Str(s: string)

  /** One record: a product, a stock status or a stock item. */
  type Entity = map<string, Value>

  /** One parsed line of the import file, keyed by column name. */
  type Row = map<string, Value>

  /**
   * PHP `array_merge(base, over)` on string keys: every key of either map,
   * the value of `over` winning wherever both have one.
   */
  function Merge(base: Entity, over: Entity): (r: Entity)
    ensures r.Keys == base.Keys + over.Keys
    ensures forall k :: k in over ==> r[k] == over[k]
    ensures forall k :: k in base && k !in over ==> r[k] == base[k]
  {
    base + over
  }

  /** PHP `isset($record[key])`: the key exists and its value is not null. */
  predicate IsSet(record: Entity, key: string)
  {
    key in record && record[key] != Null
  }

  /** PHP `$v > 0` for the numeric values a coerced quantity can take. */
  predicate Positive(v: Value)
  {
    match v
    case Int(i) => i > 0
    case Float(f) => f > 0.0
    case Null => false
    case Str(_) => false
  }

  /** The row subject's `getValue(column, default)`: the row's value when the column holds one, else the default. */
  function GetValue(row: Row, column: string, default: Value): (v: Value)
    ensures IsSet(row, column) ==> v == row[column]
    ensures !IsSet(row, column) ==> v == default
  {
    if IsSet(row, column) then row[column] else default
  }
}
