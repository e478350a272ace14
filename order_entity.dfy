/** The `orders` and `order_items` rows of src/orders/order.entity.ts. */
module OrderEntity {
  import opened Wrappers
  import opened Identity
  import opened ProductEntity

  type OrderId = nat

  /** `createdAt`, an abstract totally ordered instant supplied by the store. */
  type Timestamp = nat

  datatype OrderStatus = Pending | Paid | Processing | Shipped | Delivered | Cancelled | Refunded

  /**
   * An order header. `shippingAddress`, `zipCode`, `paymentId` and `notes` are nullable columns.
   * `updatedAt` is left out.
   */
  datatype Order = Order(
    id: OrderId,
    buyerId: UserId,
    status: OrderStatus,
    totalAmount: int,
    currency: Currency,
    shippingAddress: Option<string>,
    zipCode: Option<string>,
    paymentId: Option<string>,
    notes: Option<string>,
    createdAt: Timestamp)

  /** One line of an order: the quantity bought and the unit price and currency at purchase time. */
  datatype OrderItem = OrderItem(
    orderId: OrderId,
    productId: ProductId,
    quantity: int,
    price: int,
    currency: Currency)
}
