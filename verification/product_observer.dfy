/**
 * The observer that creates or updates the product itself: guard on the SKU,
 * prepare the static attributes, merge them into any stored product, persist
 * the result and publish its id as the subject's last entity id.
 */
module ProductObserver {

  import opened Wrappers
  import opened Values
  import opened Collaborators
  import ColumnKeys
  import MemberNames

  /** The fields every prepared product carries. */
  function ProductKeys(): set<string>
  {
    {MemberNames.SKU, MemberNames.CREATED_AT, MemberNames.UPDATED_AT, MemberNames.HAS_OPTIONS,
     MemberNames.REQUIRED_OPTIONS, MemberNames.TYPE_ID, MemberNames.ATTRIBUTE_SET_ID}
  }

  /** A created/updated timestamp: the formatted row value if the column holds one, else the current time. */
  function DateValue(env: Env, row: Row, column: string): (v: Value)
    ensures IsSet(row, column) ==> v == env.formatDate(row[column])
    ensures !IsSet(row, column) ==> v == Str(env.now)
  {
    if IsSet(row, column) then env.formatDate(row[column]) else Str(env.now)
  }

  /** `$attributeSet['attribute_set_id']`; PHP yields null for a missing index. */
  function AttributeSetId(env: Env): Value
  {
    if MemberNames.ATTRIBUTE_SET_ID in env.attributeSet then env.attributeSet[MemberNames.ATTRIBUTE_SET_ID] else Null
  }

  /**
   * The static product attributes of a row.  The parent's `initializeEntity`
   * is taken to be the identity.
   */
  function PrepareAttributes(env: Env, row: Row): (attr: Entity)
    ensures attr.Keys == ProductKeys()
    ensures attr[MemberNames.SKU] == Sku(row)
    ensures attr[MemberNames.TYPE_ID] == GetValue(row, ColumnKeys.PRODUCT_TYPE, Null)
    ensures attr[MemberNames.HAS_OPTIONS] == Int(0) && attr[MemberNames.REQUIRED_OPTIONS] == Int(0)
    ensures attr[MemberNames.ATTRIBUTE_SET_ID] == AttributeSetId(env)
    ensures attr[MemberNames.CREATED_AT] == DateValue(env, row, ColumnKeys.CREATED_AT)
    ensures attr[MemberNames.UPDATED_AT] == DateValue(env, row, ColumnKeys.UPDATED_AT)
  {
    map[
      MemberNames.SKU := Sku(row),
      MemberNames.CREATED_AT := DateValue(env, row, ColumnKeys.CREATED_AT),
      MemberNames.UPDATED_AT := DateValue(env, row, ColumnKeys.UPDATED_AT),
      MemberNames.HAS_OPTIONS := Int(0),
      MemberNames.REQUIRED_OPTIONS := Int(0),
      MemberNames.TYPE_ID := GetValue(row, ColumnKeys.PRODUCT_TYPE, Null),
      MemberNames.ATTRIBUTE_SET_ID := AttributeSetId(env)
    ]
  }

  /** PHP truthiness of the loaded product: nothing and an empty array both count as not found. */
  predicate Found(loaded: Option<Entity>)
  {
    loaded.Some? && loaded.value != map[]
  }

  /**
   * The product to persist, given what the processor loaded for the SKU: the
   * stored product with every prepared attribute overriding it, or the
   * prepared attributes alone.
   */
  function InitializeProduct(attr: Entity, loaded: Option<Entity>): (product: Entity)
    ensures Found(loaded) ==> product.Keys == loaded.value.Keys + attr.Keys
    ensures Found(loaded) ==> forall k :: k in loaded.value && k !in attr ==> product[k] == loaded.value[k]
    ensures forall k :: k in attr ==> k in product && product[k] == attr[k]
    ensures !Found(loaded) ==> product == attr
  {
    if Found(loaded) then Merge(loaded.value, attr) else attr
  }

  /**
   * One row through the product observer.  A processed SKU changes nothing;
   * otherwise exactly one load and then one persist are logged, the persisted
   * product carries the row's static attributes over anything stored, and
   * the returned id becomes the last entity id.
   */
  function Process(env: Env, s: Subject, row: Row): (s': Subject)
    ensures s'.processed == s.processed
    ensures HasBeenProcessed(s, Sku(row)) ==> s' == s
    ensures !HasBeenProcessed(s, Sku(row)) ==>
      var n := |s.log|;
      && |s'.log| == n + 2
      && s'.log[..n] == s.log
      && s'.log[n] == LoadProduct(Sku(row), env.loadProduct(s.log, Sku(row)))
      && s'.log[n + 1].PersistProduct?
      && s'.lastEntityId == s'.log[n + 1].id == env.persistProduct(s'.log[..n + 1], s'.log[n + 1].product)
    ensures !HasBeenProcessed(s, Sku(row)) ==>
      var product := s'.log[|s.log| + 1].product;
      var loaded := env.loadProduct(s.log, Sku(row));
      && (Found(loaded) ==> product.Keys == loaded.value.Keys + ProductKeys())
      && (!Found(loaded) ==> product.Keys == ProductKeys())
      && product[MemberNames.SKU] == Sku(row)
      && product[MemberNames.TYPE_ID] == GetValue(row, ColumnKeys.PRODUCT_TYPE, Null)
      && product[MemberNames.HAS_OPTIONS] == Int(0)
      && product[MemberNames.REQUIRED_OPTIONS] == Int(0)
      && product[MemberNames.ATTRIBUTE_SET_ID] == AttributeSetId(env)
      && product[MemberNames.CREATED_AT] == DateValue(env, row, ColumnKeys.CREATED_AT)
      && product[MemberNames.UPDATED_AT] == DateValue(env, row, ColumnKeys.UPDATED_AT)
      && (Found(loaded) ==> forall k :: k in loaded.value && k !in ProductKeys() ==> product[k] == loaded.value[k])
  {
    if HasBeenProcessed(s, Sku(row)) then s
    else
      var attr := PrepareAttributes(env, row);
      var sku := attr[MemberNames.SKU];
      var loaded := env.loadProduct(s.log, sku);
      var log := s.log + [LoadProduct(sku, loaded)];
      var product := InitializeProduct(attr, loaded);
      var id := env.persistProduct(log, product);
      s.(lastEntityId := id, log := log + [PersistProduct(product, id)])
  }

  /**
   * Importing the same prepared attributes over the product a previous import
   * produced leaves it unchanged: the upsert is a fixpoint once applied.
   */
  lemma ReimportIsStable(attr: Entity, loaded: Option<Entity>)
    requires attr != map[]
    ensures InitializeProduct(attr, Some(InitializeProduct(attr, loaded))) == InitializeProduct(attr, loaded)
  {
  }
}
