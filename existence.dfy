/** The batch existence check shared by ItemValidator.checkItemsToExistence
    and OrderValidator.checkOrdersToExistence: look the requested ids up,
    compare the number found with the number requested, and on a mismatch
    report the requested ids that were not found. */
module Existence {
  import opened Common

  /** The requested ids the store holds, each once, in the order first
      requested: what an `id IN (...)` query returns. */
  function FoundKeys<T>(ids: seq<int>, store: map<int, T>): (r: seq<int>)
    ensures |r| <= |ids|
    ensures Distinct(r)
    ensures forall x :: x in r <==> x in ids && x in store
  {
    if ids == [] then [] else
    var p := FoundKeys(ids[..|ids| - 1], store);
    var x := ids[|ids| - 1];
    assert ids == ids[..|ids| - 1] + [x];
    DistinctSnoc(p, x);
    if x in store && x !in p then p + [x] else p
  }

  /** The requested ids that are not among the found ones, in request order. */
  function Missing(ids: seq<int>, found: set<int>): (r: seq<int>)
    ensures forall x :: x in r <==> x in ids && x !in found
  {
    if ids == [] then [] else
    var x := ids[|ids| - 1];
    assert ids == ids[..|ids| - 1] + [x];
    Missing(ids[..|ids| - 1], found) + (if x in found then [] else [x])
  }

  lemma {:induction false} MissingDependsOnRequested(ids: seq<int>, a: set<int>, b: set<int>)
    requires forall x | x in ids :: x in a <==> x in b
    ensures Missing(ids, a) == Missing(ids, b)
  {
    if ids != [] {
      var p := ids[..|ids| - 1];
      assert forall x | x in p :: x in ids;
      MissingDependsOnRequested(p, a, b);
    }
  }

  /** The count found equals the count requested exactly when the requested
      ids are distinct and all stored; then the query returns them as asked. */
  lemma {:induction false} AllFound<T>(ids: seq<int>, store: map<int, T>)
    ensures |FoundKeys(ids, store)| == |ids| <==> Distinct(ids) && forall x | x in ids :: x in store
    ensures |FoundKeys(ids, store)| == |ids| ==> FoundKeys(ids, store) == ids
  {
    if ids != [] {
      var p := ids[..|ids| - 1];
      var x := ids[|ids| - 1];
      assert ids == p + [x];
      AllFound(p, store);
      DistinctSnoc(p, x);
      assert forall y | y in p :: y in ids;
    }
  }

  /** The shared check: an absent or empty request is accepted with nothing
      found; otherwise the request fails, naming the missing ids, unless the
      store returns as many entries as were requested. */
  function CheckAllExist<T>(ids: Option<seq<int>>, store: map<int, T>): (r: Result<seq<T>>)
    ensures OrEmpty(ids) == [] ==> r == Ok([])
    ensures r.Ok? <==> OrEmpty(ids) == [] || (Distinct(OrEmpty(ids)) && forall x | x in OrEmpty(ids) :: x in store)
    ensures r.Ok? ==> |r.value| == |OrEmpty(ids)|
    ensures r.Ok? ==> forall i :: 0 <= i < |r.value| ==> OrEmpty(ids)[i] in store && r.value[i] == store[OrEmpty(ids)[i]]
    ensures r.Err? ==> r.error == MissingItems(Missing(OrEmpty(ids), store.Keys))
  {
    if ids.None? || ids.value == [] then Ok([])
    else
      var keys := FoundKeys(ids.value, store);
      var found := seq(|keys|, i requires 0 <= i < |keys| => store[keys[i]]);
      AllFound(ids.value, store);
      if |found| != |ids.value| then
        var foundIds := set k | k in keys;
        MissingDependsOnRequested(ids.value, foundIds, store.Keys);
        Err(MissingItems(Missing(ids.value, foundIds)))
      else
        Ok(found)
  }

  /** A request that names a stored id twice fails, though nothing is
      missing: the count of distinct entries found falls short. */
  lemma DuplicateRequestFails<T>(k: int, store: map<int, T>)
    requires k in store
    ensures CheckAllExist(Some([k, k]), store) == Err(MissingItems([]))
  {
    var s := [k, k];
    assert s[0] == s[1];
    assert s[..1] == [k] && [k][..0] == [];
    assert Missing([k], store.Keys) == Missing([], store.Keys) + [];
    assert Missing(s, store.Keys) == Missing([k], store.Keys) + [];
  }
}
