/** The order record passed between the handlers, the service and the store. */
module OrderEntity {
  import opened Wrappers

  /** One line of an order; the core never looks inside it. */
  datatype LineItem = LineItem(productId: int, quantity: int)

  type Items = seq<LineItem>

  /** An order status. The set of statuses is open: the core only needs the
      initial one and never checks a transition. */
  datatype OrderStatus = OrderStatus(name: string)

  const RECEIVED: OrderStatus := OrderStatus("received")

  /** A persisted order. `total` is a monetary amount the core copies but never
      computes with. `paymentMethod` is read by the create handler when it
      builds the payment request; the service never sets it. */
  datatype Order = Order(
    id: int,
    items: Items,
    total: int,
    status: OrderStatus,
    userId: Option<int>,
    paymentMethod: Option<string>)
}
