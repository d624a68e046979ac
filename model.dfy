/** The order entity: the fields the core reads and writes. */
module Model {
  import opened Dto
  import opened LineItems

  class Order {
    const id: int
    var userId: int
    var status: OrderStatus
    /** The order's line items, in insertion order. */
    var items: seq<Line>
    /** The stored order total. */
    var total: real

    /** An order has at most one line per catalog item. */
    ghost predicate Valid()
      reads this
    {
      UniqueIds(items)
    }

    constructor (id: int, userId: int, status: OrderStatus)
      ensures this.id == id && this.userId == userId && this.status == status
      ensures items == [] && total == 0.0
      ensures Valid()
    {
      this.id := id;
      this.userId := userId;
      this.status := status;
      items := [];
      total := 0.0;
    }
  }
}
