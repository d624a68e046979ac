# Order service: line-item reconciliation, in Dafny

This project models the core of the order service: how a partial order update
is turned into changes on the order's line items and a recomputed total, and
the guards that run before it.

- **Normaliser** (`normalizer.dfy`, `operation.dfy`). Three lists of a request
  (ids to remove, `(item, quantity)` updates, `(item, quantity)` adds) are
  folded, in three loops over one map, into a map from catalog item id to a
  single operation. Removes are seeded first. An update is inserted only under
  an absent id. An add on a Remove becomes `Update(q)`; any other add
  overwrites with `Add(q)`. Besides the fold, the map is described id by id
  (`Resolved`), independently of the loops, and the two are proved equal.
- **Reconciliation** (`lines.dfy`, `reconcile.dfy`, `service.dfy`). An order is
  a class whose `items` field is a sequence of `(catalogId, quantity)` lines.
  `UpdateOrder` validates and finds the order, takes over a given user id and
  status, and builds the lookup from catalog id to line. It then applies each
  entry of the operation map once, in the map's iteration order:
  - Remove drops every line of the id.
  - Update sets the quantity of the id's line.
  - Add adds to it.
  - Update or Add on an absent id appends a new line.

  It finally prices the lines at catalog prices and stores the total
  Σ price × quantity. A line whose item is not in the catalog fails the
  update, and the order is rolled back to its state before the call. The iteration order of the map
  is a free choice; the proofs hold for every such order. Each id ends with the
  quantity a small state machine gives (`Resolve`), so the final quantities do
  not depend on the order. Lines of untouched ids are kept, in their order.
- **Creation and payment** (`service.dfy`). `CreateOrder` validates, sums the
  request's lines at catalog prices and stores them on a new order.
  `UpdateOrderStatus` marks an order PAID for a successful payment and UNPAID
  otherwise.
- **Validators** (`existence.dfy`, `item_validator.dfy`,
  `order_validator.dfy`). Modelled as functions that return the error the Java
  code throws as a value:
  - the batch existence check: the ids found are compared by count with the
    ids requested, and the requested ids not found are reported in request
    order;
  - the single-id checks;
  - the item name check;
  - the choice of the list an update type validates;
  - the empty-list rejection and the quantity check.

Money is `real`, which is exact like `BigDecimal` addition and multiplication.
Quantities and ids are unbounded `int`. The user service is a set of known user
ids. The repositories are maps from id to entity.

Nothing stops a quantity below one from being written. The update validator
checks only the list the update type selects (`OrderValidator.java:61-72`),
while the normaliser reads all three lists. `UnselectedListIsNotChecked` shows
an accepted APPEND request, naming catalog items, that stores a line of
quantity zero. In the same way an
item to add under an UPDATE request is not checked against the catalog.
`UnknownAddedItemFailsLate` shows such a request passing validation and then
failing when the new total is priced; the update then rolls the order back.

## Model

| member | source | states |
|---|---|---|
| Operations.Of | src/main/java/com/example/orderservice/dto/order/Operation.java:7-11 | the all-arguments factory stores exactly the type and quantity given |
| Operations.Add | src/main/java/com/example/orderservice/dto/order/Operation.java:12 | `add(q)` has type ADD and quantity q |
| Operations.Update | src/main/java/com/example/orderservice/dto/order/Operation.java:13 | `update(q)` has type UPDATE and quantity q |
| Operations.Remove | src/main/java/com/example/orderservice/dto/order/Operation.java:14 | `remove()` has type REMOVE and no quantity |
| Operations.FactoriesDifferOnlyInType | src/main/java/com/example/orderservice/dto/order/Operation.java:7-14 | the factories build well-formed, pairwise different operations that differ only in type (and in the missing quantity of remove) |
| Normalizer.Normalize | src/main/java/com/example/orderservice/dto/order/OrderUpdateNormalizer.java:11-42 | the three loops build the three-phase fold; absent lists count as empty and nothing fails; the keys are exactly the ids the request mentions; every entry is well-formed; each id's entry is the one the per-id description gives |
| Normalizer.SeedRemovesEntries | src/main/java/com/example/orderservice/dto/order/OrderUpdateNormalizer.java:14-18 | after the remove phase an id has an entry iff it is to be removed, and that entry is Remove; repeated ids give one key |
| Normalizer.ApplyUpdatesEntry | src/main/java/com/example/orderservice/dto/order/OrderUpdateNormalizer.java:20-26 | the update phase leaves every existing entry alone and gives an absent id the first update listed for it |
| Normalizer.ApplyAddsEntry | src/main/java/com/example/orderservice/dto/order/OrderUpdateNormalizer.java:28-39 | the add phase: with no add an entry is kept; a single add on a Remove gives Update; otherwise the last add's quantity as Add |
| Normalizer.NormalizedEntry | src/main/java/com/example/orderservice/dto/order/OrderUpdateNormalizer.java:11-42 | the folded map agrees with the per-id description at every id |
| Normalizer.NormalizedKey | src/main/java/com/example/orderservice/dto/order/OrderUpdateNormalizer.java:12-41 | an id has an entry iff one of the three lists mentions it |
| Normalizer.NormalizedKeys | src/main/java/com/example/orderservice/dto/order/OrderUpdateNormalizer.java:12-41 | the key set is the union of the ids of the three lists, each with one well-formed operation |
| Normalizer.RemoveWinsOverUpdates | src/main/java/com/example/orderservice/dto/order/OrderUpdateNormalizer.java:14-26 | a removed id that no add mentions stays Remove whatever updates name it |
| Normalizer.FirstUpdateWins | src/main/java/com/example/orderservice/dto/order/OrderUpdateNormalizer.java:20-26 | for an id neither removed nor added, the first update listed for it is kept |
| Normalizer.AddReinstatesRemoved | src/main/java/com/example/orderservice/dto/order/OrderUpdateNormalizer.java:31-34 | one add on a removed id turns the entry into Update with the add's quantity |
| Normalizer.LastAddWins | src/main/java/com/example/orderservice/dto/order/OrderUpdateNormalizer.java:35-37 | otherwise the last add for an id decides, as Add, overwriting earlier updates and adds |
| Normalizer.TwoAddsOnRemoved | src/main/java/com/example/orderservice/dto/order/OrderUpdateNormalizer.java:31-37 | two adds on a removed id give Add of the second quantity |
| Normalizer.NormalizedAtLeastOne | src/main/java/com/example/orderservice/dto/order/OrderUpdateNormalizer.java:20-39 | with update and add quantities of at least one, every Update and Add in the map carries a quantity of at least one |
| LineItems.QuantityOfDropping | src/main/java/com/example/orderservice/service/order/OrderServiceImpl.java:123 | after `removeIf` on a set of ids those ids have no line and every other id keeps its quantity |
| LineItems.DroppingMembers | src/main/java/com/example/orderservice/service/order/OrderServiceImpl.java:123 | `removeIf` keeps exactly the lines whose id is outside the set |
| LineItems.QuantityOfWithQuantity | src/main/java/com/example/orderservice/service/order/OrderServiceImpl.java:150 | setting the quantity of id k changes k's quantity, if it has a line, and no other id's |
| LineItems.TotalNonNegative | src/main/java/com/example/orderservice/service/order/OrderServiceImpl.java:207-215 | with prices and quantities that are not negative the total is not negative |
| Reconciliation.ApplyOpEffect | src/main/java/com/example/orderservice/service/order/OrderServiceImpl.java:121-128 | one operation keeps ids unique, moves its own id through the Remove/Update/Add state machine, and leaves every other id's quantity alone |
| Reconciliation.ApplyOpKeepsOthers | src/main/java/com/example/orderservice/service/order/OrderServiceImpl.java:121-128 | one operation on an id does not change the lines of ids outside a set that holds it |
| Reconciliation.ReconciledQuantity | src/main/java/com/example/orderservice/service/order/OrderServiceImpl.java:117-129 | after any prefix of the iteration, visited ids have been through the state machine once and the rest are untouched |
| Reconciliation.ReconciledIsExpected | src/main/java/com/example/orderservice/service/order/OrderServiceImpl.java:117-129 | for an order visiting every key once, each id ends with the state machine's quantity and ids stay unique |
| Reconciliation.OrderIrrelevant | src/main/java/com/example/orderservice/service/order/OrderServiceImpl.java:117-129 | any two iteration orders leave every id with the same quantity |
| Reconciliation.ReconciledKeepsUntouched | src/main/java/com/example/orderservice/service/order/OrderServiceImpl.java:117-129 | lines whose id is not a key of the map come out unchanged and in their original relative order |
| Reconciliation.ApplyOpPositive | src/main/java/com/example/orderservice/service/order/OrderServiceImpl.java:144-158 | with positive line quantities and an operation quantity of at least one, every quantity stays positive (old plus new for Add) |
| Reconciliation.ReconciledPositive | src/main/java/com/example/orderservice/service/order/OrderServiceImpl.java:117-129 | the same for a whole iteration |
| Reconciliation.QuantityAccumulation | src/main/java/com/example/orderservice/service/order/OrderServiceImpl.java:146-150 | a line (9, 2) becomes (9, 5) under Add(3) and (9, 3) under Update(3) |
| Reconciliation.RemovalDeletesTargetedLine | src/main/java/com/example/orderservice/service/order/OrderServiceImpl.java:122-124 | removing id 2 from lines for 1, 2, 3 leaves the lines for 1 and 3 in order |
| Existence.FoundKeys | src/main/java/com/example/orderservice/validators/Item/ItemValidator.java:55 | the repository returns each requested stored id once, never more entries than requested |
| Existence.Missing | src/main/java/com/example/orderservice/validators/Item/ItemValidator.java:62-64 | the missing list holds exactly the requested ids outside the found set |
| Existence.AllFound | src/main/java/com/example/orderservice/validators/Item/ItemValidator.java:55-57 | the counts agree iff the requested ids are distinct and all stored, and then the query returns them as requested |
| Existence.CheckAllExist | src/main/java/com/example/orderservice/validators/Item/ItemValidator.java:50-69 | an absent or empty request gives an empty result; acceptance iff the ids are distinct and all stored; the result is the stored entities in request order; the error names exactly the requested ids not stored |
| Existence.DuplicateRequestFails | src/main/java/com/example/orderservice/validators/Item/ItemValidator.java:57-66 | a request naming one stored id twice fails with an empty missing list |
| ItemValidator.CheckNameUniques | src/main/java/com/example/orderservice/validators/Item/ItemValidator.java:42-48 | fails iff the name is taken, with the "already exists" message |
| ItemValidator.CheckItemsToExistence | src/main/java/com/example/orderservice/validators/Item/ItemValidator.java:50-69 | the batch check over the catalog, with the properties of Existence.CheckAllExist |
| ItemValidator.CheckItemToExistence | src/main/java/com/example/orderservice/validators/Item/ItemValidator.java:71-78 | returns the catalog item iff the id is present, otherwise not-found for that id |
| OrderValidator.NonPositive | src/main/java/com/example/orderservice/validators/order/OrderValidator.java:136 | the filtered list holds exactly the quantities below one |
| OrderValidator.CheckQuantityToNegativeOrZeroValues | src/main/java/com/example/orderservice/validators/order/OrderValidator.java:135-140 | passes iff every quantity is at least one; otherwise fails naming the non-empty list of offending quantities |
| OrderValidator.ValidateCreateDto | src/main/java/com/example/orderservice/validators/order/OrderValidator.java:35-46 | accepts iff there is a line item, the user exists and the items named are distinct and in the catalog; no items, then unknown user, are rejected first, and any other rejection is the missing-items error naming the requested ids not in the catalog |
| OrderValidator.GetOrderItems | src/main/java/com/example/orderservice/validators/order/OrderValidator.java:122-133 | APPEND and REPLACE select the items to add, every other type the items to update |
| OrderValidator.ValidateOrderItems | src/main/java/com/example/orderservice/validators/order/OrderValidator.java:112-120 | rejects an absent or empty list, with the message chosen by update type |
| OrderValidator.ValidateUpdateDto | src/main/java/com/example/orderservice/validators/order/OrderValidator.java:49-75 | NOT_UPDATED passes with no check; a given user must exist; otherwise acceptance iff the selected list is non-empty, all its quantities are at least one, and its items are distinct and in the catalog; the checks run in that order: an empty list gets the message for its type, then the quantities below one are named, then the missing-items error names the ids not in the catalog |
| OrderValidator.CheckOrdersToExistence | src/main/java/com/example/orderservice/validators/order/OrderValidator.java:77-96 | the batch check over the orders, reported as missing items |
| OrderValidator.CheckOrderToExistence | src/main/java/com/example/orderservice/validators/order/OrderValidator.java:98-109 | an absent or non-positive id is an illegal argument; an unknown one is not found; otherwise the order |
| OrderValidator.UpdateDependsOnSelectedList | src/main/java/com/example/orderservice/validators/order/OrderValidator.java:61-74 | two requests agreeing on type, user and selected list get the same verdict |
| OrderValidator.ZeroQuantityRejected | src/main/java/com/example/orderservice/validators/order/OrderValidator.java:65-72 | a REPLACE request with a zero quantity is rejected, naming it |
| Model.Order.constructor | src/main/java/com/example/orderservice/service/order/OrderServiceImpl.java:53 | a new order has no lines and a zero total |
| OrderService.ToLines | src/main/java/com/example/orderservice/service/order/OrderServiceImpl.java:55 | one line per requested item, same id and quantity, same order |
| OrderService.Index | src/main/java/com/example/orderservice/service/order/OrderServiceImpl.java:114-115 | the lookup holds exactly the ids with a line, each mapped to that line |
| OrderService.HandleModifying | src/main/java/com/example/orderservice/service/order/OrderServiceImpl.java:138-161 | a known id gets the given quantity (UPDATE) or the given plus its own (ADD); an unknown id gets a new line at the end, recorded in the lookup; with the lookup in sync this is the value-level modification and keeps ids unique |
| OrderService.ApplyEntry | src/main/java/com/example/orderservice/service/order/OrderServiceImpl.java:118-128 | one loop step applies the entry's operation and keeps the lookup in sync |
| OrderService.ApplyOperations | src/main/java/com/example/orderservice/service/order/OrderServiceImpl.java:112-129 | the loop visits every key once; the lines are the reconciled lines for that order; each id has the state machine's quantity; untouched lines are unchanged |
| OrderService.CalculateNewTotal | src/main/java/com/example/orderservice/service/order/OrderServiceImpl.java:207-215 | succeeds iff every line's item is in the catalog, returning Σ price × quantity over the lines; otherwise fails with entity-not-found for a line's missing item |
| OrderService.PricedLinesPriceKeptItems | src/main/java/com/example/orderservice/service/order/OrderServiceImpl.java:130 | lines with the expected quantities that are all priced leave no kept item unpriced |
| OrderService.UnpricedLineIsKept | src/main/java/com/example/orderservice/service/order/OrderServiceImpl.java:130 | an unpriced line among lines with the expected quantities names an item the reconciled order keeps |
| OrderService.TakeOver | src/main/java/com/example/orderservice/service/order/OrderServiceImpl.java:108 | a given user id or status replaces the order's own; the lines and the total are untouched |
| OrderService.ModifyOrder | src/main/java/com/example/orderservice/service/order/OrderServiceImpl.java:108-133 | passes iff every item the reconciled order keeps is in the catalog; on failure the error names such an item and the order is as before; on success the lines are reconciled, the total is their price, ids stay unique and the user id and status are taken over |
| OrderService.OpsOf | src/main/java/com/example/orderservice/service/order/OrderServiceImpl.java:110 | the request's operation map is well-formed and keyed by the ids the request mentions |
| OrderService.UpdateOrder | src/main/java/com/example/orderservice/service/order/OrderServiceImpl.java:102-136 | passes iff validation passes, the order exists and every item the reconciled order keeps is in the catalog; a validation failure returns its error, an unknown order OrderNotFound, an unpriced kept item EntityNotFound for it; every failure leaves the order as before; on success the lines are reconciled as above, the total equals Σ price × quantity over the new lines, ids stay unique, and a given user id and status are taken over |
| OrderService.CreateTotal | src/main/java/com/example/orderservice/service/order/OrderServiceImpl.java:66-75 | the creation loop returns Σ catalog price × quantity over the request's lines |
| OrderService.AcceptedLines | src/main/java/com/example/orderservice/service/order/OrderServiceImpl.java:51-64 | an accepted request's lines name distinct catalog items, all present |
| OrderService.BuildOrder | src/main/java/com/example/orderservice/service/order/OrderServiceImpl.java:53-77 | a new order of the user holds exactly the given lines, with unique ids and the total of their catalog prices |
| OrderService.CreateOrder | src/main/java/com/example/orderservice/service/order/OrderServiceImpl.java:50-83 | fails iff validation fails, with its error; otherwise a new order of that user holds exactly the request's lines, with the total of their catalog prices |
| OrderService.StatusFor | src/main/java/com/example/orderservice/service/order/OrderServiceImpl.java:187-189 | PAID iff the payment succeeded, UNPAID otherwise |
| OrderService.UpdateOrderStatus | src/main/java/com/example/orderservice/service/order/OrderServiceImpl.java:185-192 | fails iff the order check fails, with its error; otherwise only the order's status changes, to the payment's |
| OrderService.UpdateKeepsQuantitiesPositive | src/main/java/com/example/orderservice/service/order/OrderServiceImpl.java:117-129 | update and add quantities of at least one keep positive lines positive, in any iteration order |
| OrderService.UnselectedListIsNotChecked | src/main/java/com/example/orderservice/validators/order/OrderValidator.java:61-74 | with both items in the catalog, an APPEND request with a zero quantity among its items to update is accepted and yields Update(0); on an order without that item its expected quantity is zero and every kept item is priced, so UpdateOrder passes and stores a line of quantity zero |
| OrderService.UnknownAddedItemFailsLate | src/main/java/com/example/orderservice/validators/order/OrderValidator.java:61-74 | an UPDATE request adding an item outside the catalog is accepted, becomes Add(3) and leaves a new line that cannot be priced, so the update fails after validation |

## Left out

- The mapper step of `updateOrder` is modelled for the user id and the status it copies when present. The order date the request may carry is left out: the mapper copies it when it is given, but no operation of this model reads it.
- `UpdateOrder`, `CreateOrder` and `UpdateOrderStatus` leave out saving, the Kafka publish and the response mapping. They are persistence and messaging.
- The controllers and exception handlers are left out, and so are the get, delete and exists services. These are HTTP routing and thin CRUD wrappers. The controller also deletes an order an update leaves empty; that is transport orchestration.
- The user service is a set of user ids, not a network call.
- Quantities do not model Java `long` overflow. A null quantity or a null item id in a request is not modelled either: every requested item carries an integer id and quantity. A null id would reach the operation map and fail when `updateOrder` unboxes the key.
- Money is exact `real`. BigDecimal scale is not modelled, so the `equals` guard before storing the total is plain inequality.
- `Collectors.toMap` throws on a duplicate id. Unique ids on the order (`Order.Valid`) are a precondition instead.
- Lines are values. The line objects the list and the lookup share are modelled by updating both together in `HandleModifying`. An id the lookup still holds after its line was removed would change no line. The loop invariant shows such an id is never visited again.
- `getReferenceById` is modelled by a new line naming its catalog id. The lazy reference fails only when the total reads its price, and the model fails there, at the first line whose item is not in the catalog. The model applies that test to every line; the database's foreign key, which keeps the items of stored lines present, is not modelled.
- The repository returns found entities in request order, each once. The real query does not promise an order.
- The iteration order of the operation map is a free choice, so the position of appended lines is left open. The final quantities are proved independent of it.
- The validators call `itemValidator.checkItemsToExistByIds`, which is not defined in `ItemValidator.java`, and `BaseValidator`, which it extends, is not available. It is modelled as `checkItemsToExistence`.
- `checkOrdersToExistence` throws the item exception ("Missing items"), and the model keeps that error.
- The update request holds one list of items to add and one to update. The normaliser and the validator read them under different getter names.
- PaymentStatus: `PaymentStatus.java` is not part of this model, so its two values SUCCESS and FAILED are assumed. `StatusFor` maps every value other than SUCCESS to UNPAID, so further values would change nothing.
- CreateOrder: the status of a new order is not modelled from the source. `OrderMapper.toEntity` ignores the request's status, and the Order entity is not part of this model. The model starts new orders at CREATED.
- CreateOrder: `setOrder` is not modelled separately. A line belongs to the order by being in its `items`.
- CreateOrder: `findExistingItems` and the id map of `createOrder` are modelled as direct catalog lookups. Once validation has passed, every id is present.
- The transaction is modelled only by its rollback: an update that fails after changing the order restores the user id, the status and the lines it had.
- A REPLACE update does not clear the order's existing lines. The normaliser never reads the update type, so REPLACE merges like APPEND; the service tests (`OrderServiceImplTests.java:392-418`) expect only the new item to remain. The model follows the code.
