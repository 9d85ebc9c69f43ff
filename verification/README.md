# Product import observers: per-row product and inventory upsert

A Dafny model of the two row observers of the product import
(`ProductObserver` and `ProductInventoryObserver`) that together upsert one
catalogue item per row of the import file:

1. the **product step** checks whether the row's SKU has already been
   processed in this batch; if not, it prepares the product's static
   attributes, loads any stored product with that SKU, lets the prepared
   attributes override it, persists the result and publishes the returned id
   as the subject's *last entity id*;
2. the **inventory step** applies the same guard, builds the stock key
   `{product_id = last entity id, website_id = row value or 0, stock_id = 1}`,
   derives a stock status record (status 1 exactly when the loaded `qty` is
   set and positive) and a stock item record from the configured stock
   columns, and persists the status and then the item.

PHP arrays are `map<string, Value>`; PHP `array_merge` on string keys is map
union with the later map winning (`Values.Merge`). Everything the observers
call but do not define is a field of `Collaborators.Env`: the attribute loader,
the processor's `loadProduct`/`persistProduct` (both given the log of earlier
calls, so results may depend on history), the date formatter, the current
time and the subject's attribute set and stock column mapping. The subject's
state is `Collaborators.Subject`: the set of processed SKUs, the last entity id
and an append-only log of every processor call with what it returned. Each
observer's `process()` is a pure function from subject to subject.

Modules: `Wrappers` (Option), `ColumnKeys`/`MemberNames`/`BackendTypeKeys`
(field name constants), `Values` (values, records, merge, row lookup),
`Collaborators` (state, call log, environment, SKU guard), `ProductObserver`,
`ProductInventoryObserver`, and `RowImport` (the two steps in order on one row,
and folded over a batch).

Behaviour of the code worth noting:
- A row without a SKU is not rejected: the guard is asked about a null SKU and,
  if that is not marked processed, the row is imported with a null SKU.
- The stock status is persisted before the stock item
  (src/Observers/ProductInventoryObserver.php:94-95).

Assumptions about code outside the two observer files:
- `mergeEntity(entity, attr)` is `array_merge(entity, attr)`, so prepared
  attributes win.
- `initializeEntity` is the identity.
- `getValue(column, default)` returns the row's value when the column holds a
  non-null value, else the default; with a formatter, the formatter is applied
  to a present value. An empty-string cell (`Str("")`) counts as a value here,
  so an empty `website_id` cell stays `""` and is not replaced by 0; only a
  missing column or a null value falls back to the default.
- The constant names `ColumnKeys::…`/`MemberNames::…` stand for the lower-case
  strings used here, which only need to be distinct.

## Model

| member | source | states |
|---|---|---|
| `Values.Merge` | src/Observers/ProductObserver.php:132 | the merged record has every key of both inputs; the second (newer) record wins on shared keys and the first keeps the rest |
| `Values.GetValue` | src/Observers/ProductInventoryObserver.php:110 | a row lookup yields the row's value when the column is set, otherwise the supplied default |
| `ProductObserver.DateValue` | src/Observers/ProductObserver.php:95-96 | created/updated timestamps are the formatted row value when present, otherwise the supplied current time |
| `ProductObserver.PrepareAttributes` | src/Observers/ProductObserver.php:91-118 | the prepared product has exactly the seven static fields: the row's SKU and type, has_options = required_options = 0, the subject's attribute set id, and the two timestamps |
| `ProductObserver.InitializeProduct` | src/Observers/ProductObserver.php:127-137 | a found (non-empty) stored product is kept on every key the prepared attributes lack and overridden on every key they carry; a missing or empty result yields exactly the prepared attributes |
| `ProductObserver.Process` | src/Observers/ProductObserver.php:71-84 | a processed SKU leaves the subject unchanged (no load, no persist, no id write); otherwise exactly one load by the row's SKU then one persist are logged, the persisted product carries the row's static fields over anything stored, and the last entity id becomes the id that persist returned |
| `ProductObserver.ReimportIsStable` | src/Observers/ProductObserver.php:131-132 | loading back the product an upsert produced and applying the same prepared attributes again yields the same product |
| `ProductInventoryObserver.PrepareAttributes` | src/Observers/ProductInventoryObserver.php:103-120 | the stock key is exactly product_id = last entity id, website_id = the row's value or 0, stock_id = 1 |
| `ProductInventoryObserver.PrepareStockStatusAttributes` | src/Observers/ProductInventoryObserver.php:127-144 | loaded fields override the default status, which overrides the key; the status is then 1 when the merged quantity is set and positive, otherwise whatever the merge left (0 unless the loader supplied a status) |
| `ProductInventoryObserver.StockStatusRule` | src/Observers/ProductInventoryObserver.php:137-140 | with a loader that yields only the qty field, the persisted status is 1 if and only if qty is set and strictly positive, and 0 if and only if it is absent, null, zero or negative |
| `ProductInventoryObserver.InitializeStockStatus` | src/Observers/ProductInventoryObserver.php:153-156 | the stock status hook passes its record through unchanged |
| `ProductInventoryObserver.PrepareStockItemAttributes` | src/Observers/ProductInventoryObserver.php:163-166 | the stock item has exactly the key's and the loaded columns' fields, loaded values winning, nothing derived |
| `ProductInventoryObserver.InitializeStockItem` | src/Observers/ProductInventoryObserver.php:175-178 | the stock item hook passes its record through unchanged |
| `ProductInventoryObserver.Process` | src/Observers/ProductInventoryObserver.php:85-96 | a processed SKU leaves the subject unchanged; otherwise exactly one stock status persist and then one stock item persist are appended, and the last entity id is only read |
| `RowImport.ProcessRow` | src/Observers/ProductObserver.php:74-83 | on one row, product step then inventory step: a processed SKU changes nothing in either step; a new SKU appends exactly load, product persist, status persist, item persist, and leaves the persisted id as last entity id |
| `RowImport.HandOff` | src/Observers/ProductInventoryObserver.php:107-118 | on a new row, both stock records carry as product_id the id the product persist of that same row returned, and the product persisted carries the SKU that was loaded |
| `RowImport.RowKeepsBlocks` | src/Observers/ProductInventoryObserver.php:88-95 | for a loader that yields no product_id, one row extends a log of whole row blocks by nothing or by exactly one well-formed block |
| `RowImport.ProcessRows` | src/Observers/ProductObserver.php:74-77 | a batch only appends to the log and never changes the processed set; a batch whose SKUs are all processed changes nothing |
| `RowImport.BatchHandOff` | src/Observers/ProductObserver.php:83 | for loaders that yield no product_id, over a whole batch every stock record persisted carries the id of its own row's product persist, never a stale id from an earlier row |

## Left out

- The product bunch processor's storage and upsert semantics: its calls are
  abstract functions of the call log and their effect is only the log.
- How SKUs enter the processed set: nothing in the two observers adds one, so
  the set is part of the given state and never changes. As a consequence a SKU
  that occurs twice in one batch (and was not processed before it) is imported
  twice by the model.
- The attribute loader's type coercion (`BACKEND_TYPE_FLOAT` and the others)
  and the stock column mapping configuration: the loader is an arbitrary
  function from row and mapping to a record.
- The wall-clock default `date('Y-m-d H:i:s')`: the current time is a parameter.
  The source reads the clock twice (created_at, then updated_at); the model
  collapses both reads into one `now`, so the two defaults are always equal.
- `formatDate`, `hasBeenProcessed`, `getValue`, `initializeEntity` and
  `mergeEntity` live in parent classes that are not part of this model; they
  are modelled by the assumptions listed above.
- PHP floats are exact reals, and a quantity that reaches the `> 0` test as a
  string counts as not positive (the loader coerces qty to float first, so
  PHP's loose string comparison is not modelled).
- PHP's `array_merge` renumbers integer keys; all keys here are field names,
  so that case is not modelled.
- Observer registration, dispatch and batch orchestration: the order is fixed
  as product step then inventory step, and a batch is a plain fold over rows.
- Failures of the processor or loader (exceptions) are not modelled; the
  observers add no handling of their own.
- ProductInventoryObserver.StockStatusRule: assumes the loader yields only the
  fields it was asked for; an arbitrary loader may also supply a stock_status,
  which the source keeps when qty is not positive.
- RowImport.HandOff: assumes the loader yields no product_id of its own; the
  source lets loaded fields override the stock key.
- RowImport.RowKeepsBlocks: assumes the loader yields no product_id for the
  row, for the same reason as RowImport.HandOff.
- RowImport.BatchHandOff: assumes the loader yields no product_id for any row
  of the batch, for the same reason as RowImport.HandOff.
