/**
 * The two observers run on one row in their fixed order, product first, and
 * the same composition folded over a sequence of rows.  The product observer
 * publishes the id of the product it persisted; the inventory observer is
 * the only reader, so each stock record must carry the id of its own row.
 */
module RowImport {

  import opened Values
  import opened Collaborators
  import MemberNames
  import ProductObserver
  import ProductInventoryObserver

  /** One row through the product observer and then the inventory observer. */
  function ProcessRow(env: Env, s: Subject, row: Row): (s': Subject)
    ensures s'.processed == s.processed
    ensures HasBeenProcessed(s, Sku(row)) ==> s' == s
    ensures !HasBeenProcessed(s, Sku(row)) ==>
      && |s'.log| == |s.log| + 4
      && s'.log[..|s.log|] == s.log
      && s'.log[|s.log|] == LoadProduct(Sku(row), env.loadProduct(s.log, Sku(row)))
      && s'.log[|s.log| + 1].PersistProduct?
      && s'.log[|s.log| + 2].PersistStockStatus?
      && s'.log[|s.log| + 3].PersistStockItem?
      && s'.lastEntityId == s'.log[|s.log| + 1].id
  {
    ProductInventoryObserver.Process(env, ProductObserver.Process(env, s, row), row)
  }

  /** The loader yields no product id of its own for this row, so the stock key's id is not overridden. */
  predicate KeepsProductId(env: Env, row: Row)
  {
    && MemberNames.PRODUCT_ID !in env.loadAttributes(row, ProductInventoryObserver.QtyMapping())
    && MemberNames.PRODUCT_ID !in env.loadAttributes(row, env.headerStockMappings)
  }

  /**
   * The four calls one new row makes: a load by the row's SKU, the product
   * persist, and a stock status and stock item that both carry the id that
   * persist returned.
   */
  predicate RowBlock(b: seq<Call>)
  {
    && |b| == 4
    && b[0].LoadProduct? && b[1].PersistProduct? && b[2].PersistStockStatus? && b[3].PersistStockItem?
    && MemberNames.SKU in b[1].product && b[1].product[MemberNames.SKU] == b[0].sku
    && MemberNames.PRODUCT_ID in b[2].status && b[2].status[MemberNames.PRODUCT_ID] == b[1].id
    && MemberNames.PRODUCT_ID in b[3].item && b[3].item[MemberNames.PRODUCT_ID] == b[1].id
  }

  /** A log made of whole row blocks, one after another. */
  predicate RowBlocks(log: seq<Call>)
    decreases |log|
  {
    |log| == 0 || (|log| >= 4 && RowBlock(log[..4]) && RowBlocks(log[4..]))
  }

  /**
   * The id hand-off on one new row: both stock records the inventory observer
   * persists carry the id that the product observer's persist returned for
   * this same row, and the load was for the product's own SKU.
   */
  lemma HandOff(env: Env, s: Subject, row: Row)
    requires !HasBeenProcessed(s, Sku(row))
    requires KeepsProductId(env, row)
    ensures RowBlock(ProcessRow(env, s, row).log[|s.log|..])
  {
  }

  /** Row blocks compose: two well-formed logs concatenate into one. */
  lemma {:induction false} RowBlocksAppend(a: seq<Call>, b: seq<Call>)
    requires RowBlocks(a) && RowBlocks(b)
    ensures RowBlocks(a + b)
    decreases |a|
  {
    if |a| == 0 {
      assert a + b == b;
    } else {
      assert (a + b)[..4] == a[..4];
      assert (a + b)[4..] == a[4..] + b;
      RowBlocksAppend(a[4..], b);
    }
  }

  /** A batch of rows, each through both observers in order. */
  function ProcessRows(env: Env, s: Subject, rows: seq<Row>): (s': Subject)
    ensures s'.processed == s.processed
    ensures |s.log| <= |s'.log| && s'.log[..|s.log|] == s.log
    ensures (forall i :: 0 <= i < |rows| ==> HasBeenProcessed(s, Sku(rows[i]))) ==> s' == s
    decreases |rows|
  {
    if |rows| == 0 then s else ProcessRows(env, ProcessRow(env, s, rows[0]), rows[1..])
  }

  /** One row keeps a log of whole row blocks whole. */
  lemma RowKeepsBlocks(env: Env, s: Subject, row: Row)
    requires RowBlocks(s.log)
    requires KeepsProductId(env, row)
    ensures RowBlocks(ProcessRow(env, s, row).log)
  {
    if !HasBeenProcessed(s, Sku(row)) {
      var s1 := ProcessRow(env, s, row);
      HandOff(env, s, row);
      var block := s1.log[|s.log|..];
      assert RowBlocks(block[4..]);
      assert block[..4] == block;
      RowBlocksAppend(s.log, block);
      assert s1.log == s.log + block;
    }
  }

  /**
   * No stale id leaks into a batch: starting from a log of whole row blocks,
   * every row either adds nothing (its SKU was processed) or a block whose
   * stock records carry that row's own product id.
   */
  lemma {:induction false} BatchHandOff(env: Env, s: Subject, rows: seq<Row>)
    requires RowBlocks(s.log)
    requires forall i :: 0 <= i < |rows| ==> KeepsProductId(env, rows[i])
    ensures RowBlocks(ProcessRows(env, s, rows).log)
    decreases |rows|
  {
    if |rows| > 0 {
      RowKeepsBlocks(env, s, rows[0]);
      BatchHandOff(env, ProcessRow(env, s, rows[0]), rows[1..]);
    }
  }
}
