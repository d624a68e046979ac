/** The shapes of the requests and catalog entries the core reads. */
module Dto {
  import opened Common

  /** One (catalog item id, quantity) pair of a request: the common shape of
      OrderItemCreateDto and OrderItemUpdateDto. */
  datatype ItemQuantity = ItemQuantity(itemId: int, quantity: int)

  /** How the line items of an update request are meant. */
  datatype ItemAddedType = APPEND | REPLACE | UPDATE | NOT_UPDATED

  /** A partial order update. The list to add is the one the validator reads
      as orderItemsToAdd and the normaliser as itemsToAdd; likewise for the
      list to update. Absent user id and status leave the order's own. */
  datatype OrderUpdate = OrderUpdate(
    id: int,
    userId: Option<int>,
    status: Option<OrderStatus>,
    addedType: ItemAddedType,
    idsToRemove: Option<seq<int>>,
    itemsToUpdate: Option<seq<ItemQuantity>>,
    itemsToAdd: Option<seq<ItemQuantity>>)

  datatype OrderStatus = PAID | UNPAID | CREATED | PROCESSING | COMPLETED | CANCELED

  /** The outcome a payment event reports. */
  datatype PaymentStatus = SUCCESS | FAILED

  /** A request to create an order. */
  datatype OrderCreate = OrderCreate(userId: int, status: OrderStatus, orderItems: seq<ItemQuantity>)

  /** A catalog entry, stored under its id. */
  datatype Item = Item(name: string, price: real)

  function ItemIds(items: seq<ItemQuantity>): (ids: seq<int>)
    ensures |ids| == |items| && forall i :: 0 <= i < |items| ==> ids[i] == items[i].itemId
  {
    seq(|items|, i requires 0 <= i < |items| => items[i].itemId)
  }

  function Quantities(items: seq<ItemQuantity>): (qs: seq<int>)
    ensures |qs| == |items| && forall i :: 0 <= i < |items| ==> qs[i] == items[i].quantity
  {
    seq(|items|, i requires 0 <= i < |items| => items[i].quantity)
  }
}
