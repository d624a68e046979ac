/** Folding the three raw change lists of an update request into one map from
    catalog item id to a single operation (dto/order/OrderUpdateNormalizer.java). */
module Normalizer {
  import opened Common
  import opened Operations
  import opened Dto

  function Lookup(m: map<int, Operation>, k: int): Option<Operation>
  {
    if k in m then Some(m[k]) else None
  }

  // ---------------------------------------------------------------------
  // The three phases, each a fold over its list in list order.

  /** Phase 1: every id to remove maps to Remove. */
  function SeedRemoves(ids: seq<int>): map<int, Operation>
  {
    if ids == [] then map[]
    else SeedRemoves(ids[..|ids| - 1])[ids[|ids| - 1] := Remove()]
  }

  /** Phase 2, one element: an update is inserted only under an absent id. */
  function UpdateStep(m: map<int, Operation>, u: ItemQuantity): map<int, Operation>
  {
    if u.itemId in m then m else m[u.itemId := Update(u.quantity)]
  }

  function ApplyUpdates(m: map<int, Operation>, updates: seq<ItemQuantity>): map<int, Operation>
  {
    if updates == [] then m
    else UpdateStep(ApplyUpdates(m, updates[..|updates| - 1]), updates[|updates| - 1])
  }

  /** Phase 3, one element: an add turns a Remove into an Update and
      otherwise overwrites whatever is there with an Add. */
  function AddStep(m: map<int, Operation>, a: ItemQuantity): map<int, Operation>
  {
    if a.itemId in m && m[a.itemId].kind == REMOVE then m[a.itemId := Update(a.quantity)]
    else m[a.itemId := Add(a.quantity)]
  }

  function ApplyAdds(m: map<int, Operation>, adds: seq<ItemQuantity>): map<int, Operation>
  {
    if adds == [] then m
    else AddStep(ApplyAdds(m, adds[..|adds| - 1]), adds[|adds| - 1])
  }

  /** The map the normaliser builds from the three lists. */
  function Normalized(removes: seq<int>, updates: seq<ItemQuantity>, adds: seq<ItemQuantity>): map<int, Operation>
  {
    ApplyAdds(ApplyUpdates(SeedRemoves(removes), updates), adds)
  }

  method Normalize(dto: OrderUpdate) returns (ops: map<int, Operation>)
    ensures ops == Normalized(OrEmpty(dto.idsToRemove), OrEmpty(dto.itemsToUpdate), OrEmpty(dto.itemsToAdd))
    ensures ops.Keys == ReferencedIds(OrEmpty(dto.idsToRemove), OrEmpty(dto.itemsToUpdate), OrEmpty(dto.itemsToAdd))
    ensures forall k | k in ops :: WellFormed(ops[k])
    ensures forall k :: Lookup(ops, k) == Resolved(OrEmpty(dto.idsToRemove), OrEmpty(dto.itemsToUpdate), OrEmpty(dto.itemsToAdd), k)
  {
    ops := map[];
    if dto.idsToRemove.Some? {
      var ids := dto.idsToRemove.value;
      for i := 0 to |ids|
        invariant ops == SeedRemoves(ids[..i])
      {
        assert ids[..i + 1][..i] == ids[..i];
        ops := ops[ids[i] := Remove()];
      }
      assert ids[..|ids|] == ids;
    }
    ghost var seeded := ops;
    if dto.itemsToUpdate.Some? {
      var updates := dto.itemsToUpdate.value;
      for i := 0 to |updates|
        invariant ops == ApplyUpdates(seeded, updates[..i])
      {
        assert updates[..i + 1][..i] == updates[..i];
        if updates[i].itemId !in ops {
          ops := ops[updates[i].itemId := Update(updates[i].quantity)];
        }
      }
      assert updates[..|updates|] == updates;
    }
    ghost var updated := ops;
    if dto.itemsToAdd.Some? {
      var adds := dto.itemsToAdd.value;
      for i := 0 to |adds|
        invariant ops == ApplyAdds(updated, adds[..i])
      {
        assert adds[..i + 1][..i] == adds[..i];
        var id := adds[i].itemId;
        var existing := Lookup(ops, id);
        if existing.Some? && existing.value.kind == REMOVE {
          ops := ops[id := Update(adds[i].quantity)];
        } else {
          ops := ops[id := Add(adds[i].quantity)];
        }
      }
      assert adds[..|adds|] == adds;
    }
    NormalizedKeys(OrEmpty(dto.idsToRemove), OrEmpty(dto.itemsToUpdate), OrEmpty(dto.itemsToAdd));
  }

  // ---------------------------------------------------------------------
  // An independent, per-id description of the result.

  /** The quantities the list gives for id k, in list order. */
  function QuantitiesFor(k: int, s: seq<ItemQuantity>): seq<int>
  {
    if s == [] then []
    else QuantitiesFor(k, s[..|s| - 1]) + (if s[|s| - 1].itemId == k then [s[|s| - 1].quantity] else [])
  }

  /** The operation that survives for id k, read off the three lists:
      adds decide when there are any (a single add on a removed id reinstates
      it as an Update, otherwise the last add wins); then a remove; then the
      first update. */
  function Resolved(removes: seq<int>, updates: seq<ItemQuantity>, adds: seq<ItemQuantity>, k: int): Option<Operation>
  {
    var aq := QuantitiesFor(k, adds);
    var uq := QuantitiesFor(k, updates);
    if aq != [] then
      if k in removes && |aq| == 1 then Some(Update(aq[0])) else Some(Add(aq[|aq| - 1]))
    else if k in removes then Some(Remove())
    else if uq != [] then Some(Update(uq[0]))
    else None
  }

  /** Every id mentioned anywhere in the request. */
  function ReferencedIds(removes: seq<int>, updates: seq<ItemQuantity>, adds: seq<ItemQuantity>): set<int>
  {
    (set k | k in removes) + (set u | u in updates :: u.itemId) + (set a | a in adds :: a.itemId)
  }

  lemma {:induction false} QuantitiesForEmpty(k: int, s: seq<ItemQuantity>)
    ensures QuantitiesFor(k, s) == [] <==> forall i :: 0 <= i < |s| ==> s[i].itemId != k
  {
    if s != [] {
      var p := s[..|s| - 1];
      QuantitiesForEmpty(k, p);
      assert forall i :: 0 <= i < |p| ==> p[i] == s[i];
    }
  }

  lemma {:induction false} QuantitiesForFirst(k: int, s: seq<ItemQuantity>, i: int)
    requires 0 <= i < |s| && s[i].itemId == k
    requires forall j :: 0 <= j < i ==> s[j].itemId != k
    ensures QuantitiesFor(k, s) != [] && QuantitiesFor(k, s)[0] == s[i].quantity
  {
    var p := s[..|s| - 1];
    if i == |s| - 1 {
      QuantitiesForEmpty(k, p);
    } else {
      QuantitiesForFirst(k, p, i);
    }
  }

  lemma {:induction false} QuantitiesForLast(k: int, s: seq<ItemQuantity>, i: int)
    requires 0 <= i < |s| && s[i].itemId == k
    requires forall j :: i < j < |s| ==> s[j].itemId != k
    ensures QuantitiesFor(k, s) != [] && QuantitiesFor(k, s)[|QuantitiesFor(k, s)| - 1] == s[i].quantity
  {
    if i < |s| - 1 {
      QuantitiesForLast(k, s[..|s| - 1], i);
    }
  }

  lemma {:induction false} QuantitiesForOnly(k: int, s: seq<ItemQuantity>, i: int)
    requires 0 <= i < |s| && s[i].itemId == k
    requires forall j :: 0 <= j < |s| && j != i ==> s[j].itemId != k
    ensures QuantitiesFor(k, s) == [s[i].quantity]
  {
    var p := s[..|s| - 1];
    if i == |s| - 1 {
      QuantitiesForEmpty(k, p);
    } else {
      QuantitiesForOnly(k, p, i);
    }
  }

  lemma {:induction false} QuantitiesForTwo(k: int, s: seq<ItemQuantity>, i: int, j: int)
    requires 0 <= i < |s| && 0 <= j < |s| && i != j
    requires s[i].itemId == k && s[j].itemId == k
    ensures |QuantitiesFor(k, s)| >= 2
  {
    var p := s[..|s| - 1];
    if i == |s| - 1 {
      QuantitiesForEmpty(k, p);
      assert p[j] == s[j];
    } else if j == |s| - 1 {
      QuantitiesForEmpty(k, p);
      assert p[i] == s[i];
    } else {
      QuantitiesForTwo(k, p, i, j);
    }
  }

  /** Phase 1 maps exactly the ids to remove, each to Remove; a repeated id
      gives one key. */
  lemma {:induction false} SeedRemovesEntries(ids: seq<int>, k: int)
    ensures Lookup(SeedRemoves(ids), k) == if k in ids then Some(Remove()) else None
  {
    if ids != [] {
      var p := ids[..|ids| - 1];
      SeedRemovesEntries(p, k);
      assert ids == p + [ids[|ids| - 1]];
    }
  }

  /** Phase 2 never touches an id that already has an entry, and gives an
      absent id the first update listed for it. */
  lemma {:induction false} ApplyUpdatesEntry(m: map<int, Operation>, updates: seq<ItemQuantity>, k: int)
    ensures Lookup(ApplyUpdates(m, updates), k) ==
      if k in m then Some(m[k])
      else if QuantitiesFor(k, updates) == [] then None
      else Some(Update(QuantitiesFor(k, updates)[0]))
  {
    if updates != [] {
      ApplyUpdatesEntry(m, updates[..|updates| - 1], k);
    }
  }

  /** Phase 3: the last add for an id decides, except that a single add on
      an id that maps to Remove turns it into an Update. */
  lemma {:induction false} ApplyAddsEntry(m: map<int, Operation>, adds: seq<ItemQuantity>, k: int)
    ensures Lookup(ApplyAdds(m, adds), k) ==
      var aq := QuantitiesFor(k, adds);
      if aq == [] then Lookup(m, k)
      else if k in m && m[k].kind == REMOVE && |aq| == 1 then Some(Update(aq[0]))
      else Some(Add(aq[|aq| - 1]))
  {
    if adds != [] {
      ApplyAddsEntry(m, adds[..|adds| - 1], k);
    }
  }

  /** The normaliser's map agrees with the per-id description everywhere. */
  lemma NormalizedEntry(removes: seq<int>, updates: seq<ItemQuantity>, adds: seq<ItemQuantity>, k: int)
    ensures Lookup(Normalized(removes, updates, adds), k) == Resolved(removes, updates, adds, k)
  {
    var m1 := SeedRemoves(removes);
    SeedRemovesEntries(removes, k);
    ApplyUpdatesEntry(m1, updates, k);
    ApplyAddsEntry(ApplyUpdates(m1, updates), adds, k);
  }

  /** An id has an entry exactly when the request mentions it. */
  lemma NormalizedKey(removes: seq<int>, updates: seq<ItemQuantity>, adds: seq<ItemQuantity>, k: int)
    ensures k in Normalized(removes, updates, adds) <==> k in ReferencedIds(removes, updates, adds)
  {
    NormalizedEntry(removes, updates, adds, k);
    QuantitiesForEmpty(k, updates);
    QuantitiesForEmpty(k, adds);
    if k in ReferencedIds(removes, updates, adds) && k !in removes {
      if k in (set u | u in updates :: u.itemId) {
        var u :| u in updates && u.itemId == k;
        var i :| 0 <= i < |updates| && updates[i] == u;
      } else {
        var a :| a in adds && a.itemId == k;
        var i :| 0 <= i < |adds| && adds[i] == a;
      }
    }
    if k in Normalized(removes, updates, adds) && k !in removes {
      if QuantitiesFor(k, adds) != [] {
        var i :| 0 <= i < |adds| && adds[i].itemId == k;
        assert adds[i] in adds;
      } else {
        var i :| 0 <= i < |updates| && updates[i].itemId == k;
        assert updates[i] in updates;
      }
    }
  }

  /** The keys are exactly the ids the request mentions, each with one
      well-formed operation. */
  lemma NormalizedKeys(removes: seq<int>, updates: seq<ItemQuantity>, adds: seq<ItemQuantity>)
    ensures Normalized(removes, updates, adds).Keys == ReferencedIds(removes, updates, adds)
    ensures forall k | k in Normalized(removes, updates, adds) :: WellFormed(Normalized(removes, updates, adds)[k])
    ensures forall k :: Lookup(Normalized(removes, updates, adds), k) == Resolved(removes, updates, adds, k)
  {
    var ops := Normalized(removes, updates, adds);
    var referenced := ReferencedIds(removes, updates, adds);
    forall k
      ensures Lookup(ops, k) == Resolved(removes, updates, adds, k)
      ensures k in ops.Keys <==> k in referenced
    {
      NormalizedEntry(removes, updates, adds, k);
      NormalizedKey(removes, updates, adds, k);
    }
    assert forall k :: k in ops.Keys ==> k in referenced;
    assert forall k :: k in referenced ==> k in ops.Keys;
    assert ops.Keys == referenced;
  }

  // ---------------------------------------------------------------------
  // The precedence rules, one by one.

  /** A Remove for an id survives every same-batch update of it when no add
      mentions the id. */
  lemma RemoveWinsOverUpdates(removes: seq<int>, updates: seq<ItemQuantity>, adds: seq<ItemQuantity>, k: int)
    requires k in removes
    requires forall i :: 0 <= i < |adds| ==> adds[i].itemId != k
    ensures k in Normalized(removes, updates, adds) && Normalized(removes, updates, adds)[k] == Remove()
  {
    NormalizedEntry(removes, updates, adds, k);
    QuantitiesForEmpty(k, adds);
  }

  /** Of several updates for an id that is neither removed nor added, the
      first one is kept. */
  lemma FirstUpdateWins(removes: seq<int>, updates: seq<ItemQuantity>, adds: seq<ItemQuantity>, k: int, i: int)
    requires k !in removes
    requires forall j :: 0 <= j < |adds| ==> adds[j].itemId != k
    requires 0 <= i < |updates| && updates[i].itemId == k
    requires forall j :: 0 <= j < i ==> updates[j].itemId != k
    ensures k in Normalized(removes, updates, adds) && Normalized(removes, updates, adds)[k] == Update(updates[i].quantity)
  {
    NormalizedEntry(removes, updates, adds, k);
    QuantitiesForEmpty(k, adds);
    QuantitiesForFirst(k, updates, i);
  }

  /** A single add of a removed id reinstates it as an Update of the added
      quantity. */
  lemma AddReinstatesRemoved(removes: seq<int>, updates: seq<ItemQuantity>, adds: seq<ItemQuantity>, k: int, i: int)
    requires k in removes
    requires 0 <= i < |adds| && adds[i].itemId == k
    requires forall j :: 0 <= j < |adds| && j != i ==> adds[j].itemId != k
    ensures k in Normalized(removes, updates, adds) && Normalized(removes, updates, adds)[k] == Update(adds[i].quantity)
  {
    NormalizedEntry(removes, updates, adds, k);
    QuantitiesForOnly(k, adds, i);
  }

  /** The last add for an id wins, overwriting any update, unless it is the
      only add of a removed id. */
  lemma LastAddWins(removes: seq<int>, updates: seq<ItemQuantity>, adds: seq<ItemQuantity>, k: int, i: int)
    requires 0 <= i < |adds| && adds[i].itemId == k
    requires forall j :: i < j < |adds| ==> adds[j].itemId != k
    requires k !in removes || exists j :: 0 <= j < |adds| && j != i && adds[j].itemId == k
    ensures k in Normalized(removes, updates, adds) && Normalized(removes, updates, adds)[k] == Add(adds[i].quantity)
  {
    NormalizedEntry(removes, updates, adds, k);
    QuantitiesForLast(k, adds, i);
    if k in removes {
      var j :| 0 <= j < |adds| && j != i && adds[j].itemId == k;
      QuantitiesForTwo(k, adds, i, j);
    }
  }

  /** Two adds of a removed id: the first turns Remove into Update, the
      second sees a non-Remove entry and leaves Add. */
  lemma TwoAddsOnRemoved(k: int, q1: int, q2: int)
    ensures Normalized([k], [], [ItemQuantity(k, q1), ItemQuantity(k, q2)]) == map[k := Add(q2)]
  {
    var adds := [ItemQuantity(k, q1), ItemQuantity(k, q2)];
    NormalizedKeys([k], [], adds);
    assert ReferencedIds([k], [], adds) == {k};
    assert adds[0].itemId == k;
    LastAddWins([k], [], adds, k, 1);
  }

  /** The quantities the list gives for an id are quantities of the list. */
  lemma {:induction false} QuantitiesForAtLeastOne(k: int, s: seq<ItemQuantity>)
    requires forall i :: 0 <= i < |s| ==> s[i].quantity >= 1
    ensures forall j :: 0 <= j < |QuantitiesFor(k, s)| ==> QuantitiesFor(k, s)[j] >= 1
  {
    if s != [] {
      var p := s[..|s| - 1];
      assert forall i :: 0 <= i < |p| ==> p[i] == s[i];
      QuantitiesForAtLeastOne(k, p);
    }
  }

  /** With quantities of at least one in the update and add lists, every
      Update and Add of the result carries a quantity of at least one. */
  lemma NormalizedAtLeastOne(removes: seq<int>, updates: seq<ItemQuantity>, adds: seq<ItemQuantity>)
    requires forall i :: 0 <= i < |updates| ==> updates[i].quantity >= 1
    requires forall i :: 0 <= i < |adds| ==> adds[i].quantity >= 1
    ensures forall k | k in Normalized(removes, updates, adds) && Normalized(removes, updates, adds)[k].kind != REMOVE ::
      Normalized(removes, updates, adds)[k].quantity.Some? && Normalized(removes, updates, adds)[k].quantity.value >= 1
  {
    var ops := Normalized(removes, updates, adds);
    NormalizedKeys(removes, updates, adds);
    forall k | k in ops && ops[k].kind != REMOVE
      ensures ops[k].quantity.Some? && ops[k].quantity.value >= 1
    {
      assert Lookup(ops, k) == Resolved(removes, updates, adds, k);
      QuantitiesForAtLeastOne(k, updates);
      QuantitiesForAtLeastOne(k, adds);
    }
  }
}
