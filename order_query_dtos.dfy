/** The projection DTOs of the order query repository, as plain records that copy
    their constructor arguments. */
module OrderQueryDtos {
  import opened Domain

  /** One row of the single join query: an order's summary fields next to one of its line items. */
  datatype OrderFlatDto = OrderFlatDto(
    orderId: int, name: string, orderDate: LocalDateTime, orderStatus: OrderStatus,
    address: Address, itemName: string, orderPrice: int, count: int)

  /** The grouping key: the summary fields of an `OrderQueryDto`, built without its item list. */
  datatype OrderKey = OrderKey(
    orderId: int, name: string, orderDate: LocalDateTime, orderStatus: OrderStatus, address: Address)

  /** One line item of an order. */
  datatype OrderItemQueryDto = OrderItemQueryDto(
    orderId: int, itemName: string, orderPrice: int, count: int)

  /** An order summary with its line items attached. */
  datatype OrderQueryDto = OrderQueryDto(
    orderId: int, name: string, orderDate: LocalDateTime, orderStatus: OrderStatus,
    address: Address, orderItems: seq<OrderItemQueryDto>)

  /** The classifier of the grouping: the summary part of a flat row, every field
      copied unchanged. */
  function KeyOf(o: OrderFlatDto): (k: OrderKey)
    ensures k.orderId == o.orderId && k.name == o.name && k.orderDate == o.orderDate
    ensures k.orderStatus == o.orderStatus && k.address == o.address
  {
    OrderKey(o.orderId, o.name, o.orderDate, o.orderStatus, o.address)
  }

  /** The downstream mapper of the grouping: the line-item part of a flat row, every
      field copied unchanged. */
  function ItemOf(o: OrderFlatDto): (item: OrderItemQueryDto)
    ensures item.orderId == o.orderId && item.itemName == o.itemName
    ensures item.orderPrice == o.orderPrice && item.count == o.count
  {
    OrderItemQueryDto(o.orderId, o.itemName, o.orderPrice, o.count)
  }

  /** The row the join query delivers for an order and one of its line items
      (the join condition: the item belongs to that order). Splitting the row
      gives back exactly the key and the item. */
  function JoinRow(k: OrderKey, item: OrderItemQueryDto): (o: OrderFlatDto)
    requires item.orderId == k.orderId
    ensures KeyOf(o) == k && ItemOf(o) == item
  {
    OrderFlatDto(k.orderId, k.name, k.orderDate, k.orderStatus, k.address,
                 item.itemName, item.orderPrice, item.count)
  }

  /** Splitting a flat row into key and item loses nothing: joining them rebuilds the row. */
  lemma RowSplitLossless(o: OrderFlatDto)
    ensures KeyOf(o).orderId == ItemOf(o).orderId
    ensures JoinRow(KeyOf(o), ItemOf(o)) == o
  {
  }

  /** The summary emitted for one entry of the grouping: the key's fields with the items attached. */
  function Summary(k: OrderKey, items: seq<OrderItemQueryDto>): (d: OrderQueryDto)
    ensures SummaryKey(d) == k && d.orderItems == items
  {
    OrderQueryDto(k.orderId, k.name, k.orderDate, k.orderStatus, k.address, items)
  }

  /** The summary fields of an `OrderQueryDto`, as the key they were copied from. */
  function SummaryKey(d: OrderQueryDto): OrderKey
  {
    OrderKey(d.orderId, d.name, d.orderDate, d.orderStatus, d.address)
  }
}
