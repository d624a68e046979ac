/** Catalog-side guards (validators/Item/ItemValidator.java), over the catalog
    and the set of item names the repository holds. */
module ItemValidator {
  import opened Common
  import opened Dto
  import Existence

  /** The rejection an existing name gets. */
  function NameTakenMessage(name: string): string
  {
    "Item with name " + name + " already exists"
  }

  /** Used by both the create and the update validation of an item: fails
      exactly when the name is already taken. */
  function CheckNameUniques(name: string, names: set<string>): (r: Outcome)
    ensures r.Fail? <==> name in names
    ensures r.Fail? ==> r.error == Validation(NameTakenMessage(name))
  {
    if name in names then Fail(Validation(NameTakenMessage(name))) else Pass
  }

  /** The requested catalog items, or the ids that are missing. Accepted
      exactly when nothing is requested or the requested ids are distinct and
      all in the catalog; the items are then those of the requested ids, in
      request order. */
  function CheckItemsToExistence(ids: Option<seq<int>>, catalog: map<int, Item>): (r: Result<seq<Item>>)
    ensures OrEmpty(ids) == [] ==> r == Ok([])
    ensures r.Ok? <==> OrEmpty(ids) == [] || (Distinct(OrEmpty(ids)) && forall x | x in OrEmpty(ids) :: x in catalog)
    ensures r.Ok? ==> |r.value| == |OrEmpty(ids)|
    ensures r.Ok? ==> forall i :: 0 <= i < |r.value| ==> OrEmpty(ids)[i] in catalog && r.value[i] == catalog[OrEmpty(ids)[i]]
    ensures r.Err? ==> r.error == MissingItems(Existence.Missing(OrEmpty(ids), catalog.Keys))
  {
    Existence.CheckAllExist(ids, catalog)
  }

  /** The catalog item with this id, or ItemNotFound. */
  function CheckItemToExistence(id: int, catalog: map<int, Item>): (r: Result<Item>)
    ensures r.Ok? <==> id in catalog
    ensures r.Ok? ==> r.value == catalog[id]
    ensures r.Err? ==> r.error == ItemMissing(id)
  {
    if id in catalog then Ok(catalog[id]) else Err(ItemMissing(id))
  }
}
