/** Order-side guards (validators/order/OrderValidator.java). The user
    service is a set of known user ids, the item and order repositories are
    maps from id to entity; every rejection is an Err/Fail value. */
module OrderValidator {
  import opened Common
  import opened Dto
  import opened Model
  import Existence
  import ItemValidator

  const NoCreateItems := "itemIds is null or empty"
  const NoItemsToAdd := "createOrderItem is null or empty"
  const NoItemsToUpdate := "updateOrderItems is null or empty"
  const BadOrderId := "orderId is null or empty"

  /** The quantities below one, in request order. */
  function NonPositive(qs: seq<int>): (r: seq<int>)
    ensures forall q :: q in r <==> q in qs && q < 1
    ensures |r| <= |qs|
  {
    if qs == [] then [] else
    var q := qs[|qs| - 1];
    assert qs == qs[..|qs| - 1] + [q];
    NonPositive(qs[..|qs| - 1]) + (if q < 1 then [q] else [])
  }

  /** Rejects the whole batch when any quantity is below one, naming them. */
  function CheckQuantityToNegativeOrZeroValues(qs: seq<int>): (r: Outcome)
    ensures r.Pass? <==> forall i :: 0 <= i < |qs| ==> qs[i] >= 1
    ensures r.Fail? ==> r.error == InvalidQuantities(NonPositive(qs)) && NonPositive(qs) != []
  {
    if NonPositive(qs) == [] then
      assert forall i :: 0 <= i < |qs| ==> qs[i] in qs;
      Pass
    else
      assert NonPositive(qs)[0] in NonPositive(qs);
      Fail(InvalidQuantities(NonPositive(qs)))
  }

  /** A create request needs at least one line item, a known user and line
      items that name distinct catalog items, all in the catalog. */
  function ValidateCreateDto(dto: OrderCreate, users: set<int>, catalog: map<int, Item>): (r: Outcome)
    ensures r.Pass? <==>
      dto.orderItems != [] && dto.userId in users &&
      Distinct(ItemIds(dto.orderItems)) && forall x | x in ItemIds(dto.orderItems) :: x in catalog
    ensures dto.orderItems == [] ==> r == Fail(Validation(NoCreateItems))
    ensures dto.orderItems != [] && dto.userId !in users ==> r == Fail(UserNotFound(dto.userId))
    ensures dto.orderItems != [] && dto.userId in users && r.Fail? ==>
      r == Fail(MissingItems(Existence.Missing(ItemIds(dto.orderItems), catalog.Keys)))
  {
    var ids := ItemIds(dto.orderItems);
    if ids == [] then Fail(Validation(NoCreateItems))
    else if dto.userId !in users then Fail(UserNotFound(dto.userId))
    else
      match ItemValidator.CheckItemsToExistence(Some(ids), catalog)
      case Err(e) => Fail(e)
      case Ok(_) => Pass
  }

  /** The list an update type is about: APPEND and REPLACE name the items to
      add, the other types the items to update. */
  function GetOrderItems(dto: OrderUpdate): (r: Option<seq<ItemQuantity>>)
    ensures dto.addedType in {APPEND, REPLACE} ==> r == dto.itemsToAdd
    ensures dto.addedType !in {APPEND, REPLACE} ==> r == dto.itemsToUpdate
  {
    if dto.addedType == APPEND || dto.addedType == REPLACE then dto.itemsToAdd else dto.itemsToUpdate
  }

  /** An absent or empty selected list is rejected, with the message of the
      list the type selects. */
  function ValidateOrderItems(items: Option<seq<ItemQuantity>>, addedType: ItemAddedType): (r: Outcome)
    ensures r.Pass? <==> OrEmpty(items) != []
    ensures r.Fail? ==> r.error == Validation(if addedType in {APPEND, REPLACE} then NoItemsToAdd else NoItemsToUpdate)
  {
    if items.None? || items.value == [] then
      Fail(Validation(if addedType == APPEND || addedType == REPLACE then NoItemsToAdd else NoItemsToUpdate))
    else Pass
  }

  /** The update guard: NOT_UPDATED passes untouched; otherwise a given user
      must exist, and the selected list must be non-empty, have quantities
      of at least one, and name distinct catalog items that all exist. */
  function ValidateUpdateDto(dto: OrderUpdate, users: set<int>, catalog: map<int, Item>): (r: Outcome)
    ensures dto.addedType == NOT_UPDATED ==> r == Pass
    ensures dto.addedType != NOT_UPDATED && dto.userId.Some? && dto.userId.value !in users ==>
      r == Fail(UserNotFound(dto.userId.value))
    ensures r.Pass? && dto.addedType != NOT_UPDATED ==>
      var items := OrEmpty(GetOrderItems(dto));
      items != [] &&
      (dto.userId.Some? ==> dto.userId.value in users) &&
      (forall i :: 0 <= i < |items| ==> items[i].quantity >= 1) &&
      Distinct(ItemIds(items)) && (forall x | x in ItemIds(items) :: x in catalog)
    ensures dto.addedType != NOT_UPDATED && (dto.userId.Some? ==> dto.userId.value in users) ==>
      var items := OrEmpty(GetOrderItems(dto));
      (r.Pass? <==>
        items != [] &&
        (forall i :: 0 <= i < |items| ==> items[i].quantity >= 1) &&
        Distinct(ItemIds(items)) && (forall x | x in ItemIds(items) :: x in catalog))
    ensures dto.addedType != NOT_UPDATED && (dto.userId.Some? ==> dto.userId.value in users) ==>
      var items := OrEmpty(GetOrderItems(dto));
      items == [] ==>
      r == Fail(Validation(if dto.addedType in {APPEND, REPLACE} then NoItemsToAdd else NoItemsToUpdate))
    ensures dto.addedType != NOT_UPDATED && (dto.userId.Some? ==> dto.userId.value in users) ==>
      var items := OrEmpty(GetOrderItems(dto));
      (items != [] && NonPositive(Quantities(items)) != []) ==>
      r == Fail(InvalidQuantities(NonPositive(Quantities(items))))
    ensures dto.addedType != NOT_UPDATED && (dto.userId.Some? ==> dto.userId.value in users) ==>
      var items := OrEmpty(GetOrderItems(dto));
      (items != [] && NonPositive(Quantities(items)) == [] && r.Fail?) ==>
      r == Fail(MissingItems(Existence.Missing(ItemIds(items), catalog.Keys)))
  {
    if dto.addedType == NOT_UPDATED then Pass
    else if dto.userId.Some? && dto.userId.value !in users then Fail(UserNotFound(dto.userId.value))
    else
      var items := GetOrderItems(dto);
      match ValidateOrderItems(items, dto.addedType)
      case Fail(e) => Fail(e)
      case Pass =>
        var list := items.value;
        match CheckQuantityToNegativeOrZeroValues(Quantities(list))
        case Fail(e) => Fail(e)
        case Pass =>
          match ItemValidator.CheckItemsToExistence(Some(ItemIds(list)), catalog)
          case Err(e) => Fail(e)
          case Ok(_) => Pass
  }

  /** The requested orders, or the ids that are missing: the same batch
      check as for catalog items, reported with the same missing-items error. */
  function CheckOrdersToExistence(ids: Option<seq<int>>, orders: map<int, Order>): (r: Result<seq<Order>>)
    ensures OrEmpty(ids) == [] ==> r == Ok([])
    ensures r.Ok? <==> OrEmpty(ids) == [] || (Distinct(OrEmpty(ids)) && forall x | x in OrEmpty(ids) :: x in orders)
    ensures r.Ok? ==> |r.value| == |OrEmpty(ids)|
    ensures r.Ok? ==> forall i :: 0 <= i < |r.value| ==> OrEmpty(ids)[i] in orders && r.value[i] == orders[OrEmpty(ids)[i]]
    ensures r.Err? ==> r.error == MissingItems(Existence.Missing(OrEmpty(ids), orders.Keys))
  {
    Existence.CheckAllExist(ids, orders)
  }

  /** A single order: an absent or non-positive id is an illegal argument,
      an unknown one is not found. */
  function CheckOrderToExistence(id: Option<int>, orders: map<int, Order>): (r: Result<Order>)
    ensures r.Ok? <==> id.Some? && id.value > 0 && id.value in orders
    ensures r.Ok? ==> r.value == orders[id.value]
    ensures (id.None? || id.value <= 0) ==> r == Err(IllegalArgument(BadOrderId))
    ensures id.Some? && id.value > 0 && id.value !in orders ==> r == Err(OrderNotFound(id.value))
  {
    if id.None? || id.value <= 0 then Err(IllegalArgument(BadOrderId))
    else if id.value !in orders then Err(OrderNotFound(id.value))
    else Ok(orders[id.value])
  }

  // ---------------------------------------------------------------------

  /** An update request is judged by its selected list alone: two requests
      that agree on type, user and selected list are both accepted or both
      rejected, with the same error. */
  lemma UpdateDependsOnSelectedList(a: OrderUpdate, b: OrderUpdate, users: set<int>, catalog: map<int, Item>)
    requires a.addedType == b.addedType && a.userId == b.userId
    requires GetOrderItems(a) == GetOrderItems(b)
    ensures ValidateUpdateDto(a, users, catalog) == ValidateUpdateDto(b, users, catalog)
  {
  }

  /** A REPLACE request with a zero quantity in its items to add is rejected,
      naming that quantity. */
  lemma ZeroQuantityRejected(id: int, k: int, users: set<int>, catalog: map<int, Item>)
    ensures ValidateUpdateDto(OrderUpdate(id, None, None, REPLACE, None, None, Some([ItemQuantity(k, 0)])), users, catalog)
      == Fail(InvalidQuantities([0]))
  {
    var qs := Quantities([ItemQuantity(k, 0)]);
    assert qs == [0];
    assert qs[..0] == [];
  }
}
