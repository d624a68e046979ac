/** The resolved instruction for one catalog item id within one update batch
    (dto/order/Operation.java). */
module Operations {
  import opened Common

  datatype OperationType = ADD | UPDATE | REMOVE

  /** An operation type and its quantity; a remove carries no quantity. */
  datatype Operation = Operation(kind: OperationType, quantity: Option<int>)

  /** The all-arguments factory: stores exactly what it is given. */
  function Of(kind: OperationType, quantity: Option<int>): (op: Operation)
    ensures op.kind == kind && op.quantity == quantity
  {
    Operation(kind, quantity)
  }

  function Add(q: int): (op: Operation)
    ensures op.kind == ADD && op.quantity == Some(q)
  {
    Of(ADD, Some(q))
  }

  function Update(q: int): (op: Operation)
    ensures op.kind == UPDATE && op.quantity == Some(q)
  {
    Of(UPDATE, Some(q))
  }

  function Remove(): (op: Operation)
    ensures op.kind == REMOVE && op.quantity == None
  {
    Of(REMOVE, None)
  }

  /** Every operation the factories build: a quantity exactly when it is not a remove. */
  predicate WellFormed(op: Operation)
  {
    op.kind == REMOVE <==> op.quantity.None?
  }

  /** The three factories build well-formed operations that agree on the
      quantity they are given and differ only in their type. */
  lemma FactoriesDifferOnlyInType(q: int)
    ensures WellFormed(Add(q)) && WellFormed(Update(q)) && WellFormed(Remove())
    ensures Add(q) == Update(q).(kind := ADD)
    ensures Remove() == Update(q).(kind := REMOVE, quantity := None)
    ensures Add(q) != Update(q) && Add(q) != Remove() && Update(q) != Remove()
  {
  }
}
