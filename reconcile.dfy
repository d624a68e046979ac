/** Applying a normalised operation map to an order's line items
    (service/order/OrderServiceImpl.java, updateOrder and handleModifying),
    stated on values. */
module Reconciliation {
  import opened Common
  import opened Operations
  import opened LineItems

  predicate WellFormedOps(ops: map<int, Operation>)
  {
    forall k | k in ops :: WellFormed(ops[k])
  }

  /** The per-id state machine: the quantity an id has after one operation,
      given the quantity it had (None: the order has no line for it). */
  function Resolve(current: Option<int>, op: Operation): Option<int>
    requires WellFormed(op)
  {
    match op.kind
    case REMOVE => None
    case UPDATE => Some(op.quantity.value)
    case ADD => Some(if current.Some? then NewQuantity(current.value, op) else op.quantity.value)
  }

  /** The quantity an existing line gets: the given one for UPDATE, the
      given one plus the line's quantity for ADD. */
  function NewQuantity(was: int, op: Operation): int
    requires WellFormed(op) && op.kind != REMOVE
  {
    if op.kind == ADD then op.quantity.value + was else op.quantity.value
  }

  /** handleModifying: an existing line gets its new quantity; an absent id
      gets a new line at the end. */
  function Modified(lines: seq<Line>, k: int, op: Operation): seq<Line>
    requires WellFormed(op) && op.kind != REMOVE
  {
    match QuantityOf(lines, k)
    case Some(was) => WithQuantity(lines, k, NewQuantity(was, op))
    case None => lines + [Line(k, op.quantity.value)]
  }

  /** One entry of the operation map applied to the lines. */
  function ApplyOp(lines: seq<Line>, k: int, op: Operation): seq<Line>
    requires WellFormed(op)
  {
    if op.kind == REMOVE then Without(lines, k) else Modified(lines, k, op)
  }

  /** The entries of the map applied in the order the map is iterated. */
  function Reconciled(lines: seq<Line>, ops: map<int, Operation>, order: seq<int>): seq<Line>
    requires WellFormedOps(ops)
    requires forall i :: 0 <= i < |order| ==> order[i] in ops
  {
    if order == [] then lines
    else
      var k := order[|order| - 1];
      ApplyOp(Reconciled(lines, ops, order[..|order| - 1]), k, ops[k])
  }

  /** order lists every key of the map exactly once. */
  predicate Enumerates(order: seq<int>, keys: set<int>)
  {
    Distinct(order) && (forall i :: 0 <= i < |order| ==> order[i] in keys) && (forall k | k in keys :: k in order)
  }

  /** The quantity an id ends with: untouched ids keep theirs, the others go
      through the state machine once. */
  function Expected(lines: seq<Line>, ops: map<int, Operation>, k: int): Option<int>
    requires WellFormedOps(ops)
  {
    if k in ops then Resolve(QuantityOf(lines, k), ops[k]) else QuantityOf(lines, k)
  }

  // ---------------------------------------------------------------------

  /** One operation keeps the ids unique, moves its own id through the state
      machine and leaves every other id's quantity alone. */
  lemma ApplyOpEffect(lines: seq<Line>, j: int, op: Operation, k: int)
    requires UniqueIds(lines) && WellFormed(op)
    ensures UniqueIds(ApplyOp(lines, j, op))
    ensures QuantityOf(ApplyOp(lines, j, op), k) == if k == j then Resolve(QuantityOf(lines, j), op) else QuantityOf(lines, k)
  {
    if op.kind == REMOVE {
      DroppingUnique(lines, {j});
      QuantityOfDropping(lines, {j}, k);
    } else {
      match QuantityOf(lines, j)
      case Some(was) =>
        var q := NewQuantity(was, op);
        WithQuantityUnique(lines, j, q);
        QuantityOfWithQuantity(lines, j, q, k);
      case None =>
        assert (lines + [Line(j, op.quantity.value)])[..|lines|] == lines;
    }
  }

  /** An operation on an id of ids does not change the lines outside ids. */
  lemma ApplyOpKeepsOthers(lines: seq<Line>, j: int, op: Operation, ids: set<int>)
    requires WellFormed(op) && j in ids
    ensures Dropping(ApplyOp(lines, j, op), ids) == Dropping(lines, ids)
  {
    if op.kind == REMOVE {
      DroppingIdempotent(lines, j, ids);
    } else {
      match QuantityOf(lines, j)
      case Some(was) =>
        DroppingWithQuantity(lines, j, NewQuantity(was, op), ids);
      case None =>
        var l := Line(j, op.quantity.value);
        assert (lines + [l])[..|lines|] == lines;
    }
  }

  /** After the first entries of an iteration order, the ids already visited
      have gone through the state machine and the others are untouched. */
  lemma {:induction false} ReconciledQuantity(lines: seq<Line>, ops: map<int, Operation>, order: seq<int>, k: int)
    requires UniqueIds(lines) && WellFormedOps(ops) && Distinct(order)
    requires forall i :: 0 <= i < |order| ==> order[i] in ops
    ensures UniqueIds(Reconciled(lines, ops, order))
    ensures QuantityOf(Reconciled(lines, ops, order), k) ==
      if k in order then Resolve(QuantityOf(lines, k), ops[k]) else QuantityOf(lines, k)
  {
    if order != [] {
      var p := order[..|order| - 1];
      var j := order[|order| - 1];
      assert order == p + [j];
      DistinctSnoc(p, j);
      ReconciledQuantity(lines, ops, p, k);
      ReconciledQuantity(lines, ops, p, j);
      ApplyOpEffect(Reconciled(lines, ops, p), j, ops[j], k);
    }
  }

  /** For an iteration order that visits every key once, each id ends with
      the quantity the state machine gives, whatever the order. */
  lemma ReconciledIsExpected(lines: seq<Line>, ops: map<int, Operation>, order: seq<int>)
    requires UniqueIds(lines) && WellFormedOps(ops) && Enumerates(order, ops.Keys)
    ensures UniqueIds(Reconciled(lines, ops, order))
    ensures forall k :: QuantityOf(Reconciled(lines, ops, order), k) == Expected(lines, ops, k)
  {
    forall k ensures QuantityOf(Reconciled(lines, ops, order), k) == Expected(lines, ops, k) {
      ReconciledQuantity(lines, ops, order, k);
    }
    ReconciledQuantity(lines, ops, order, 0);
  }

  /** Two iteration orders of the same map leave every id with the same
      quantity; only where new lines are appended can differ. */
  lemma OrderIrrelevant(lines: seq<Line>, ops: map<int, Operation>, o1: seq<int>, o2: seq<int>)
    requires UniqueIds(lines) && WellFormedOps(ops)
    requires Enumerates(o1, ops.Keys) && Enumerates(o2, ops.Keys)
    ensures forall k :: QuantityOf(Reconciled(lines, ops, o1), k) == QuantityOf(Reconciled(lines, ops, o2), k)
  {
    ReconciledIsExpected(lines, ops, o1);
    ReconciledIsExpected(lines, ops, o2);
  }

  /** Lines whose id is not a key of the map come out unchanged and in their
      original relative order. */
  lemma {:induction false} ReconciledKeepsUntouched(lines: seq<Line>, ops: map<int, Operation>, order: seq<int>)
    requires WellFormedOps(ops)
    requires forall i :: 0 <= i < |order| ==> order[i] in ops
    ensures Dropping(Reconciled(lines, ops, order), ops.Keys) == Dropping(lines, ops.Keys)
  {
    if order != [] {
      var p := order[..|order| - 1];
      var j := order[|order| - 1];
      ReconciledKeepsUntouched(lines, ops, p);
      ApplyOpKeepsOthers(Reconciled(lines, ops, p), j, ops[j], ops.Keys);
    }
  }

  /** With positive quantities on the lines and in the operations, every
      quantity stays positive. */
  lemma ApplyOpPositive(lines: seq<Line>, j: int, op: Operation)
    requires WellFormed(op) && Positive(lines)
    requires op.kind != REMOVE ==> op.quantity.value >= 1
    ensures Positive(ApplyOp(lines, j, op))
  {
    if op.kind == REMOVE {
      DroppingMembers(lines, {j});
    } else {
      match QuantityOf(lines, j)
      case Some(was) =>
        QuantityOfIsALine(lines, j);
        WithQuantityMembers(lines, j, NewQuantity(was, op));
      case None =>
    }
  }

  lemma {:induction false} ReconciledPositive(lines: seq<Line>, ops: map<int, Operation>, order: seq<int>)
    requires WellFormedOps(ops) && Positive(lines)
    requires forall k | k in ops && ops[k].kind != REMOVE :: ops[k].quantity.value >= 1
    requires forall i :: 0 <= i < |order| ==> order[i] in ops
    ensures Positive(Reconciled(lines, ops, order))
  {
    if order != [] {
      var p := order[..|order| - 1];
      ReconciledPositive(lines, ops, p);
      ApplyOpPositive(Reconciled(lines, ops, p), order[|order| - 1], ops[order[|order| - 1]]);
    }
  }

  // ---------------------------------------------------------------------
  // Worked cases.

  /** A line (9, 2) becomes (9, 5) under Add(3) and (9, 3) under Update(3). */
  lemma QuantityAccumulation()
    ensures ApplyOp([Line(9, 2)], 9, Add(3)) == [Line(9, 5)]
    ensures ApplyOp([Line(9, 2)], 9, Update(3)) == [Line(9, 3)]
  {
    assert [Line(9, 2)][..0] == [];
  }

  /** Removing id 2 from lines for ids 1, 2, 3 leaves the lines for 1 and 3. */
  lemma RemovalDeletesTargetedLine(a: int, b: int, c: int)
    ensures ApplyOp([Line(1, a), Line(2, b), Line(3, c)], 2, Remove()) == [Line(1, a), Line(3, c)]
  {
    var s := [Line(1, a), Line(2, b), Line(3, c)];
    assert s[..2] == [Line(1, a), Line(2, b)];
    assert s[..2][..1] == [Line(1, a)];
    assert s[..2][..1][..0] == [];
    assert Dropping([Line(1, a)], {2}) == [Line(1, a)];
    assert Dropping(s[..2], {2}) == [Line(1, a)];
  }
}
