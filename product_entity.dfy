/** The `products` table row of src/products/product.entity.ts. */
module ProductEntity {
  import opened Identity

  type ProductId = nat

  /** The `title` column is `varchar(120)`. */
  const MaxTitleLength: nat := 120

  type Title = s: string | |s| <= MaxTitleLength

  datatype Currency = BRL | USD | SATS

  datatype Condition = New | Used

  /**
   * A product. `price` is in minor units of `currency` (the column is a float);
   * `stockQuantity` is an `int` column and nothing in the services keeps it non-negative.
   * Timestamps are left out.
   */
  datatype Product = Product(
    id: ProductId,
    title: Title,
    description: string,
    price: int,
    currency: Currency,
    stockQuantity: int,
    condition: Condition,
    active: bool,
    sellerId: UserId)
}
