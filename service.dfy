/** The order service's state-changing operations
    (service/order/OrderServiceImpl.java): creating an order, reconciling an
    order's line items with an update request, recomputing the total, and
    recording a payment outcome. Repositories are maps from id to entity; the
    catalog gives each item's price. */
module OrderService {
  import opened Common
  import opened Operations
  import opened Dto
  import opened LineItems
  import opened Reconciliation
  import opened Model
  import Normalizer
  import OrderValidator

  /** The price of an item as the catalog stores it; the totals read it
      only for items in the catalog. */
  function PriceOf(catalog: map<int, Item>): int -> real
  {
    k => if k in catalog then catalog[k].price else 0.0
  }

  /** The order a request names, as the frame of the operation on it. */
  function Target(orders: map<int, Order>, id: int): set<Order>
  {
    if id in orders then {orders[id]} else {}
  }

  /** The line items a create request asks for, in request order
      (OrderItemMapper.toEntityList). */
  function ToLines(items: seq<ItemQuantity>): (lines: seq<Line>)
    ensures |lines| == |items|
    ensures forall i :: 0 <= i < |items| ==> lines[i] == Line(items[i].itemId, items[i].quantity)
  {
    seq(|items|, i requires 0 <= i < |items| => Line(items[i].itemId, items[i].quantity))
  }

  /** The lookup from catalog id to the order's line (`Collectors.toMap`). */
  function Index(lines: seq<Line>): (m: map<int, Line>)
    ensures forall k :: k in m <==> QuantityOf(lines, k).Some?
    ensures Tracks(m, lines)
  {
    if lines == [] then map[] else
    var l := lines[|lines| - 1];
    Index(lines[..|lines| - 1])[l.catalogId := l]
  }

  /** The lookup agrees with every line of the order. Entries for ids the
      order no longer has are allowed: removal deletes from the list only. */
  ghost predicate Tracks(existing: map<int, Line>, lines: seq<Line>)
  {
    forall k :: QuantityOf(lines, k).Some? ==> k in existing && existing[k] == Line(k, QuantityOf(lines, k).value)
  }

  /** Update or Add on one id. An id the lookup knows gets its new quantity
      on the line the lookup points to (for a line already removed from the
      list that changes no line); any other id gets a new line at the end,
      which the lookup then records. */
  method HandleModifying(order: Order, existing: map<int, Line>, itemId: int, op: Operation)
      returns (updated: map<int, Line>)
    requires order.Valid() && WellFormed(op) && op.kind != REMOVE
    requires Tracks(existing, order.items)
    modifies order
    ensures itemId in existing ==>
      order.items == WithQuantity(old(order.items), itemId, NewQuantity(existing[itemId].quantity, op)) &&
      updated == existing[itemId := Line(itemId, NewQuantity(existing[itemId].quantity, op))]
    ensures itemId !in existing ==>
      order.items == old(order.items) + [Line(itemId, op.quantity.value)] &&
      updated == existing[itemId := Line(itemId, op.quantity.value)]
    ensures (itemId in existing ==> QuantityOf(old(order.items), itemId).Some?) ==>
      order.items == Modified(old(order.items), itemId, op) && order.Valid() && Tracks(updated, order.items)
    ensures order.userId == old(order.userId) && order.status == old(order.status) && order.total == old(order.total)
  {
    ghost var before := order.items;
    if itemId in existing {
      var oi := existing[itemId];
      var q := op.quantity.value;
      if op.kind == ADD {
        q := q + oi.quantity;
      }
      // The lookup's line and the list's line are one object.
      order.items := WithQuantity(order.items, itemId, q);
      updated := existing[itemId := Line(itemId, q)];
      if QuantityOf(before, itemId).Some? {
        WithQuantityUnique(before, itemId, q);
        forall k ensures QuantityOf(order.items, k) == if k == itemId then Some(q) else QuantityOf(before, k) {
          QuantityOfWithQuantity(before, itemId, q, k);
        }
      }
    } else {
      var line := Line(itemId, op.quantity.value);
      order.items := order.items + [line];
      updated := existing[itemId := line];
      assert order.items[..|before|] == before;
    }
  }

  /** Sum of price times quantity over the lines, reading each line's item
      from the catalog. A line whose item is not there fails, at the first
      such line, as the lazy item reference does when its price is read. */
  method CalculateNewTotal(lines: seq<Line>, catalog: map<int, Item>) returns (r: Result<real>)
    ensures r.Ok? <==> forall i :: 0 <= i < |lines| ==> lines[i].catalogId in catalog
    ensures r.Ok? ==> r.value == Total(lines, PriceOf(catalog))
    ensures r.Err? ==> exists i :: 0 <= i < |lines| && lines[i].catalogId !in catalog && r.error == EntityNotFound(lines[i].catalogId)
  {
    var total := 0.0;
    for i := 0 to |lines|
      invariant forall j :: 0 <= j < i ==> lines[j].catalogId in catalog
      invariant total == Total(lines[..i], PriceOf(catalog))
    {
      assert lines[..i + 1][..i] == lines[..i];
      if lines[i].catalogId !in catalog {
        return Err(EntityNotFound(lines[i].catalogId));
      }
      var price := catalog[lines[i].catalogId].price;
      total := total + price * (lines[i].quantity as real);
    }
    assert lines[..|lines|] == lines;
    return Ok(total);
  }

  /** The lookup agrees with the order's lines, and every id it holds
      that the order has lost has already been visited. */
  ghost predicate InSync(existing: map<int, Line>, lines: seq<Line>, visited: seq<int>)
  {
    Tracks(existing, lines) && forall k | k in existing && QuantityOf(lines, k).None? :: k in visited
  }

  /** One entry of the reconciliation loop (the switch on the operation
      type): Remove drops every line of the id, Update and Add go through
      HandleModifying. The lookup stays in sync with the lines. */
  method ApplyEntry(order: Order, existing: map<int, Line>, itemId: int, op: Operation, ghost visited: seq<int>)
      returns (updated: map<int, Line>)
    requires order.Valid() && WellFormed(op) && itemId !in visited
    requires InSync(existing, order.items, visited)
    modifies order
    ensures order.items == ApplyOp(old(order.items), itemId, op)
    ensures order.Valid() && InSync(updated, order.items, visited + [itemId])
    ensures order.userId == old(order.userId) && order.status == old(order.status) && order.total == old(order.total)
  {
    ghost var before := order.items;
    ApplyOpEffect(before, itemId, op, itemId);
    if op.kind == REMOVE {
      order.items := Without(order.items, itemId);
      updated := existing;
      forall k ensures QuantityOf(order.items, k) == if k == itemId then None else QuantityOf(before, k) {
        QuantityOfDropping(before, {itemId}, k);
      }
    } else {
      updated := HandleModifying(order, existing, itemId, op);
      forall k ensures QuantityOf(order.items, k) == if k == itemId then Resolve(QuantityOf(before, itemId), op) else QuantityOf(before, k) {
        ApplyOpEffect(before, itemId, op, k);
      }
    }
  }

  /** The reconciliation loop: build the lookup from the order's lines, then
      apply each entry of the operation map once, in the map's own iteration
      order, returned as visited. */
  method ApplyOperations(order: Order, ops: map<int, Operation>) returns (ghost visited: seq<int>)
    requires order.Valid() && WellFormedOps(ops)
    modifies order
    ensures Enumerates(visited, ops.Keys)
    ensures order.items == Reconciled(old(order.items), ops, visited)
    ensures order.Valid()
    ensures forall k :: QuantityOf(order.items, k) == Expected(old(order.items), ops, k)
    ensures Dropping(order.items, ops.Keys) == Dropping(old(order.items), ops.Keys)
    ensures order.userId == old(order.userId) && order.status == old(order.status) && order.total == old(order.total)
  {
    ghost var start := order.items;
    var existing := Index(order.items);
    var remaining := ops.Keys;
    visited := [];
    while remaining != {}
      invariant remaining <= ops.Keys
      invariant forall k | k in ops :: k in remaining <==> k !in visited
      invariant Distinct(visited) && forall i :: 0 <= i < |visited| ==> visited[i] in ops
      invariant order.items == Reconciled(start, ops, visited)
      invariant order.Valid() && InSync(existing, order.items, visited)
      invariant order.userId == old(order.userId) && order.status == old(order.status) && order.total == old(order.total)
      decreases |remaining|
    {
      NonEmptyHasMember(remaining);
      var itemId :| itemId in remaining;
      assert (visited + [itemId])[..|visited|] == visited;
      DistinctSnoc(visited, itemId);
      existing := ApplyEntry(order, existing, itemId, ops[itemId], visited);
      remaining := remaining - {itemId};
      visited := visited + [itemId];
    }
    ReconciledIsExpected(start, ops, visited);
    ReconciledKeepsUntouched(start, ops, visited);
  }

  /** The operation map of a request: one well-formed entry per id the
      request mentions. */
  function OpsOf(dto: OrderUpdate): (ops: map<int, Operation>)
    ensures WellFormedOps(ops)
    ensures ops.Keys == Normalizer.ReferencedIds(OrEmpty(dto.idsToRemove), OrEmpty(dto.itemsToUpdate), OrEmpty(dto.itemsToAdd))
  {
    Normalizer.NormalizedKeys(OrEmpty(dto.idsToRemove), OrEmpty(dto.itemsToUpdate), OrEmpty(dto.itemsToAdd));
    Normalizer.Normalized(OrEmpty(dto.idsToRemove), OrEmpty(dto.itemsToUpdate), OrEmpty(dto.itemsToAdd))
  }

  /** Every item the reconciled order would still hold is in the catalog:
      the condition under which the new total can be priced. */
  ghost predicate KeptItemsPriced(lines: seq<Line>, ops: map<int, Operation>, catalog: map<int, Item>)
    requires WellFormedOps(ops)
  {
    forall k :: Expected(lines, ops, k).Some? ==> k in catalog
  }

  /** Lines that agree with the expected quantities and are all in the
      catalog leave no kept item unpriced. */
  lemma PricedLinesPriceKeptItems(lines: seq<Line>, ops: map<int, Operation>, start: seq<Line>, catalog: map<int, Item>)
    requires WellFormedOps(ops)
    requires forall k :: QuantityOf(lines, k) == Expected(start, ops, k)
    requires forall i :: 0 <= i < |lines| ==> lines[i].catalogId in catalog
    ensures KeptItemsPriced(start, ops, catalog)
  {
    forall k | Expected(start, ops, k).Some?
      ensures k in catalog
    {
      QuantityOfIsALine(lines, k);
    }
  }

  /** A line outside the catalog, among lines with unique ids that agree with
      the expected quantities, names a kept item that cannot be priced. */
  lemma UnpricedLineIsKept(lines: seq<Line>, ops: map<int, Operation>, start: seq<Line>, catalog: map<int, Item>, i: int)
    requires WellFormedOps(ops) && UniqueIds(lines)
    requires forall k :: QuantityOf(lines, k) == Expected(start, ops, k)
    requires 0 <= i < |lines| && lines[i].catalogId !in catalog
    ensures Expected(start, ops, lines[i].catalogId).Some?
    ensures !KeptItemsPriced(start, ops, catalog)
  {
    QuantityOfLine(lines, i);
  }

  /** The mapper step of an update: a given user id or status replaces the
      order's own. */
  method TakeOver(order: Order, dto: OrderUpdate)
    modifies order
    ensures order.userId == (if dto.userId.Some? then dto.userId.value else old(order.userId))
    ensures order.status == (if dto.status.Some? then dto.status.value else old(order.status))
    ensures order.items == old(order.items) && order.total == old(order.total)
  {
    if dto.userId.Some? {
      order.userId := dto.userId.value;
    }
    if dto.status.Some? {
      order.status := dto.status.value;
    }
  }

  /** The body of an update after validation and lookup: take over the given
      user id and status, apply each entry of the operation map once, in the
      map's own iteration order (returned as visited), and store the
      recomputed total. Pricing a new line whose item is not in the catalog
      fails, and the transaction then rolls the order back. */
  method ModifyOrder(order: Order, dto: OrderUpdate, catalog: map<int, Item>)
      returns (r: Outcome, ghost visited: seq<int>)
    requires order.Valid()
    modifies order
    ensures r.Pass? <==> KeptItemsPriced(old(order.items), OpsOf(dto), catalog)
    ensures r.Fail? ==>
      r.error.EntityNotFound? && r.error.id !in catalog &&
      Expected(old(order.items), OpsOf(dto), r.error.id).Some?
    ensures r.Fail? ==>
      order.userId == old(order.userId) && order.status == old(order.status) &&
      order.items == old(order.items) && order.total == old(order.total)
    ensures r.Pass? ==>
      Enumerates(visited, OpsOf(dto).Keys) &&
      order.items == Reconciled(old(order.items), OpsOf(dto), visited) &&
      order.total == Total(order.items, PriceOf(catalog)) &&
      order.userId == (if dto.userId.Some? then dto.userId.value else old(order.userId)) &&
      order.status == (if dto.status.Some? then dto.status.value else old(order.status))
    ensures r.Pass? ==>
      order.Valid() &&
      (forall k :: QuantityOf(order.items, k) == Expected(old(order.items), OpsOf(dto), k)) &&
      Dropping(order.items, OpsOf(dto).Keys) == Dropping(old(order.items), OpsOf(dto).Keys)
  {
    var savedUserId, savedStatus, savedItems := order.userId, order.status, order.items;
    TakeOver(order, dto);
    var ops := Normalizer.Normalize(dto);
    visited := ApplyOperations(order, ops);
    var total := CalculateNewTotal(order.items, catalog);
    if total.Err? {
      ghost var i :| 0 <= i < |order.items| && order.items[i].catalogId !in catalog && total.error == EntityNotFound(order.items[i].catalogId);
      UnpricedLineIsKept(order.items, ops, savedItems, catalog, i);
      order.userId, order.status, order.items := savedUserId, savedStatus, savedItems;
      return Fail(total.error), visited;
    }
    PricedLinesPriceKeptItems(order.items, ops, savedItems, catalog);
    if total.value != order.total {
      order.total := total.value;
    }
    r := Pass;
  }

  /** Validate, find the order, then modify it as ModifyOrder does. */
  method UpdateOrder(orders: map<int, Order>, dto: OrderUpdate, users: set<int>, catalog: map<int, Item>)
      returns (r: Outcome, ghost visited: seq<int>)
    requires dto.id in orders ==> orders[dto.id].Valid()
    modifies Target(orders, dto.id)
    ensures r.Pass? <==>
      OrderValidator.ValidateUpdateDto(dto, users, catalog).Pass? && dto.id in orders &&
      KeptItemsPriced(old(orders[dto.id].items), OpsOf(dto), catalog)
    ensures OrderValidator.ValidateUpdateDto(dto, users, catalog).Fail? ==> r == OrderValidator.ValidateUpdateDto(dto, users, catalog)
    ensures OrderValidator.ValidateUpdateDto(dto, users, catalog).Pass? && dto.id !in orders ==> r == Fail(OrderNotFound(dto.id))
    ensures (OrderValidator.ValidateUpdateDto(dto, users, catalog).Pass? && dto.id in orders &&
             !KeptItemsPriced(old(orders[dto.id].items), OpsOf(dto), catalog)) ==>
      r.Fail? && r.error.EntityNotFound? && r.error.id !in catalog &&
      Expected(old(orders[dto.id].items), OpsOf(dto), r.error.id).Some?
    ensures r.Fail? && dto.id in orders ==>
      var order := orders[dto.id];
      order.userId == old(order.userId) && order.status == old(order.status) &&
      order.items == old(order.items) && order.total == old(order.total)
    ensures r.Pass? ==>
      var order := orders[dto.id];
      Enumerates(visited, OpsOf(dto).Keys) &&
      order.items == Reconciled(old(order.items), OpsOf(dto), visited) &&
      order.total == Total(order.items, PriceOf(catalog)) &&
      order.userId == (if dto.userId.Some? then dto.userId.value else old(order.userId)) &&
      order.status == (if dto.status.Some? then dto.status.value else old(order.status))
    ensures r.Pass? ==>
      var order := orders[dto.id];
      order.Valid() &&
      (forall k :: QuantityOf(order.items, k) == Expected(old(order.items), OpsOf(dto), k)) &&
      Dropping(order.items, OpsOf(dto).Keys) == Dropping(old(order.items), OpsOf(dto).Keys)
  {
    var v := OrderValidator.ValidateUpdateDto(dto, users, catalog);
    if v.Fail? {
      return v, [];
    }
    if dto.id !in orders {
      return Fail(OrderNotFound(dto.id)), [];
    }
    r, visited := ModifyOrder(orders[dto.id], dto, catalog);
  }

  /** The total loop of order creation: each line's quantity times the price
      of the catalog item it names. */
  method CreateTotal(lines: seq<Line>, catalog: map<int, Item>) returns (total: real)
    requires forall i :: 0 <= i < |lines| ==> lines[i].catalogId in catalog
    ensures total == Total(lines, PriceOf(catalog))
  {
    total := 0.0;
    for i := 0 to |lines|
      invariant total == Total(lines[..i], PriceOf(catalog))
    {
      assert lines[..i + 1][..i] == lines[..i];
      var ordered := catalog[lines[i].catalogId];
      total := total + ordered.price * (lines[i].quantity as real);
    }
    assert lines[..|lines|] == lines;
  }

  /** The body of order creation after validation: a new order of the user
      holding the lines, with the total of their catalog prices. */
  method BuildOrder(userId: int, lines: seq<Line>, catalog: map<int, Item>, newId: int) returns (order: Order)
    requires forall i :: 0 <= i < |lines| ==> lines[i].catalogId in catalog
    requires UniqueIds(lines)
    ensures fresh(order) && order.id == newId && order.userId == userId && order.status == CREATED
    ensures order.items == lines && order.total == Total(lines, PriceOf(catalog)) && order.Valid()
  {
    var total := CreateTotal(lines, catalog);
    order := new Order(newId, userId, CREATED);
    order.total := total;
    order.items := order.items + lines;
    assert order.items == lines;
  }

  /** Validate, then build the order with the requested lines and the total
      of their catalog prices. */
  method CreateOrder(dto: OrderCreate, users: set<int>, catalog: map<int, Item>, newId: int)
      returns (r: Result<Order>)
    ensures r.Ok? <==> OrderValidator.ValidateCreateDto(dto, users, catalog).Pass?
    ensures r.Err? ==> r.error == OrderValidator.ValidateCreateDto(dto, users, catalog).error
    ensures r.Ok? ==>
      fresh(r.value) && r.value.id == newId && r.value.userId == dto.userId && r.value.status == CREATED &&
      r.value.items == ToLines(dto.orderItems) &&
      r.value.total == Total(r.value.items, PriceOf(catalog)) &&
      r.value.Valid()
  {
    var v := OrderValidator.ValidateCreateDto(dto, users, catalog);
    if v.Fail? {
      return Err(v.error);
    }
    AcceptedLines(dto, users, catalog);
    var order := BuildOrder(dto.userId, ToLines(dto.orderItems), catalog, newId);
    r := Ok(order);
  }

  /** The lines of an accepted create request name distinct catalog items,
      all in the catalog. */
  lemma AcceptedLines(dto: OrderCreate, users: set<int>, catalog: map<int, Item>)
    requires OrderValidator.ValidateCreateDto(dto, users, catalog).Pass?
    ensures forall i :: 0 <= i < |ToLines(dto.orderItems)| ==> ToLines(dto.orderItems)[i].catalogId in catalog
    ensures UniqueIds(ToLines(dto.orderItems))
  {
    var lines := ToLines(dto.orderItems);
    var ids := ItemIds(dto.orderItems);
    assert forall i :: 0 <= i < |lines| ==> lines[i].catalogId == ids[i] && ids[i] in ids;
    DistinctIdsAreUnique(lines);
  }

  /** A successful payment marks the order paid; anything else unpaid. */
  function StatusFor(payment: PaymentStatus): (s: OrderStatus)
    ensures s == PAID <==> payment == SUCCESS
    ensures s != PAID ==> s == UNPAID
  {
    if payment == SUCCESS then PAID else UNPAID
  }

  /** Record a payment outcome on an existing order. */
  method UpdateOrderStatus(orders: map<int, Order>, orderId: Option<int>, payment: PaymentStatus)
      returns (r: Outcome)
    modifies if orderId.Some? then Target(orders, orderId.value) else {}
    ensures r.Pass? <==> OrderValidator.CheckOrderToExistence(orderId, orders).Ok?
    ensures r.Fail? ==> r.error == OrderValidator.CheckOrderToExistence(orderId, orders).error
    ensures r.Fail? && orderId.Some? && orderId.value in orders ==> unchanged(orders[orderId.value])
    ensures r.Pass? ==>
      var order := orders[orderId.value];
      order.status == StatusFor(payment) &&
      order.userId == old(order.userId) && order.items == old(order.items) && order.total == old(order.total)
  {
    var found := OrderValidator.CheckOrderToExistence(orderId, orders);
    if found.Err? {
      return Fail(found.error);
    }
    var order := found.value;
    order.status := StatusFor(payment);
    r := Pass;
  }

  // ---------------------------------------------------------------------

  /** Quantities of at least one in the update and add lists of a request
      keep every line of an order with positive quantities positive,
      whatever the iteration order. */
  lemma UpdateKeepsQuantitiesPositive(lines: seq<Line>, dto: OrderUpdate, order: seq<int>)
    requires Positive(lines)
    requires forall i :: 0 <= i < |OrEmpty(dto.itemsToUpdate)| ==> OrEmpty(dto.itemsToUpdate)[i].quantity >= 1
    requires forall i :: 0 <= i < |OrEmpty(dto.itemsToAdd)| ==> OrEmpty(dto.itemsToAdd)[i].quantity >= 1
    requires forall i :: 0 <= i < |order| ==> order[i] in OpsOf(dto)
    ensures Positive(Reconciled(lines, OpsOf(dto), order))
  {
    Normalizer.NormalizedAtLeastOne(OrEmpty(dto.idsToRemove), OrEmpty(dto.itemsToUpdate), OrEmpty(dto.itemsToAdd));
    ReconciledPositive(lines, OpsOf(dto), order);
  }

  /** Only the list the update type selects is validated, while the
      operation map is built from all three lists: an APPEND request whose
      items to update carry a zero quantity is accepted and yields Update(0).
      On an order without that item every item kept is priced, so by
      UpdateOrder's contract the update passes and stores a line of
      quantity zero. */
  lemma UnselectedListIsNotChecked(id: int, j: int, k: int, users: set<int>, catalog: map<int, Item>)
    requires j in catalog && k in catalog && j != k
    ensures var dto := OrderUpdate(id, None, None, APPEND, None, Some([ItemQuantity(k, 0)]), Some([ItemQuantity(j, 1)]));
      OrderValidator.ValidateUpdateDto(dto, users, catalog) == Pass &&
      k in OpsOf(dto) && OpsOf(dto)[k] == Update(0) &&
      Expected([], OpsOf(dto), k) == Some(0) &&
      KeptItemsPriced([], OpsOf(dto), catalog)
  {
    var dto := OrderUpdate(id, None, None, APPEND, None, Some([ItemQuantity(k, 0)]), Some([ItemQuantity(j, 1)]));
    assert Quantities([ItemQuantity(j, 1)]) == [1];
    assert ItemIds([ItemQuantity(j, 1)]) == [j];
    Normalizer.FirstUpdateWins([], [ItemQuantity(k, 0)], [ItemQuantity(j, 1)], k, 0);
    assert OpsOf(dto).Keys == {j, k};
  }

  /** An UPDATE request validates only its items to update, so an item to
      add that is not in the catalog gets through: it becomes Add(3), is
      added as a new line to an order without it, and cannot be priced, so
      UpdateOrder fails on it after validation has passed. */
  lemma UnknownAddedItemFailsLate(id: int, j: int, k: int, lines: seq<Line>, users: set<int>, catalog: map<int, Item>)
    requires j in catalog && k !in catalog && QuantityOf(lines, k).None?
    ensures var dto := OrderUpdate(id, None, None, ItemAddedType.UPDATE, None, Some([ItemQuantity(j, 1)]), Some([ItemQuantity(k, 3)]));
      OrderValidator.ValidateUpdateDto(dto, users, catalog) == Pass &&
      k in OpsOf(dto) && OpsOf(dto)[k] == Add(3) &&
      Expected(lines, OpsOf(dto), k) == Some(3) &&
      !KeptItemsPriced(lines, OpsOf(dto), catalog)
  {
    var dto := OrderUpdate(id, None, None, ItemAddedType.UPDATE, None, Some([ItemQuantity(j, 1)]), Some([ItemQuantity(k, 3)]));
    assert Quantities([ItemQuantity(j, 1)]) == [1];
    assert ItemIds([ItemQuantity(j, 1)]) == [j];
    Normalizer.LastAddWins([], [ItemQuantity(j, 1)], [ItemQuantity(k, 3)], k, 0);
  }
}
