/** Column names of the import file that the two observers read. */
module ColumnKeys {

  const SKU: string := "sku"
  const CREATED_AT: string := "created_at"
  const UPDATED_AT: string := "updated_at"
  const PRODUCT_TYPE: string := "product_type"
  const WEBSITE_ID: string := "website_id"
  const QTY: string := "qty"
}

/** Field names of the product, stock status and stock item records. */
module MemberNames {

  const SKU: string := "sku"
  const CREATED_AT: string := "created_at"
  const UPDATED_AT: string := "updated_at"
  const HAS_OPTIONS: string := "has_options"
  const REQUIRED_OPTIONS: string := "required_options"
  const TYPE_ID: string := "type_id"
  const ATTRIBUTE_SET_ID: string := "attribute_set_id"
  const PRODUCT_ID: string := "product_id"
  const WEBSITE_ID: string := "website_id"
  const STOCK_ID: string := "stock_id"
  const STOCK_STATUS: string := "stock_status"
  const QTY: string := "qty"
}

/** Backend type tags handed to the attribute loader. */
module BackendTypeKeys {

  const BACKEND_TYPE_FLOAT: string := "float"
}
