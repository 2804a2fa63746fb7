# Brewhouse vessel allocation and batch lifecycle, in Dafny

This project models the core of a small brewery's production tracker. The
tracker keeps one snapshot, config.json, with two dictionaries:

- `containers`: vessel name to `{id, volume, fermenter, conditioner, occupied, finish}`;
- `inventory`: gyle number to `{id, gyle, state, volume, recipe}`.

A batch is tied to a vessel by its `id`. When a batch's `id` equals a vessel's
`id`, the batch is in that vessel. Three sentinels mark the other cases: `0`
is a new hot-brew batch, `10` is a batch waiting to be bottled, and `-1` is
bottled stock. A batch moves hot brew → fermentation → conditioning →
bottling → bottled.

The model has three modules:

- `Snapshot` (snapshot.dfy) holds the records, the sentinels and the
  consistency invariant `Consistent`. Under that invariant, every entry is
  stored under its own gyle number and carries the sentinel that matches its
  stage. A vessel is occupied exactly when some batch is tied to it, and
  exactly when its finish is a deadline date rather than "-1". No vessel is
  tied to two batches. The module also defines the per-recipe
  bottle total `Total`.
- `Brewery` (brewery.dfy) models brewery.py. It covers vessel eligibility and
  the commit of a transition (release the old vessel, then occupy the
  selected one). It also covers deletion, promotion to bottled stock, bottle
  counts, equipment availability and the deadline arithmetic. config.json is
  the class `Store`. Each mutating operation of the source loads the file,
  changes the loaded dictionaries in place and writes them back, so each one
  is a `Store` method with `modifies`.
- `Brewhouse` (brewhouse.dfy) models brewhouse.py. It covers gyle-number
  assignment, `batch_exists`, `sum_all_beers`, `find_most_understocked_beer`,
  batch creation, the per-stage vessel request in `update` and the stage
  dispatch in `save_state`.

main.py is a byte-identical copy of brewhouse.py. It is modelled once: every
`brewhouse.py:L` citation below holds for `main.py:L` as well, and some rows
cite main.py directly.

The main result is `Brewery.UpdateToEligibleKeepsConsistent`. Suppose the
snapshot is consistent and the batch moves into a vessel that
`get_possible_containers` offered. Then the snapshot stays consistent, and
afterwards the batch's id is the id of exactly one vessel, which is the
occupied selected vessel. If the batch stays in its own vessel (the
conditioner reuse case), it keeps its id and the vessel is never written as
free. `Brewhouse.SaveState` carries this guarantee through the stage
dispatch.

"Offered" here means the offers `get_possible_containers` evidently intends
to return. As written, its display pass (brewery.py:64-69) raises whenever
there is anything to offer a batch of two litres or more, so `update` never
lists a vessel for such a batch (see "## Findings"). `GetPossibleContainers`
models the intended return value; `GetPossibleContainersAsWritten` models the
raising.

The snapshot's integrity is not something the program checks. These
configuration assumptions are therefore stated as preconditions, in
`WellFormedVessels` inside `Consistent`: vessel ids are distinct, positive
and never 10, and no vessel is named "bottling". Every recipe is one of the
three beers; the type `Recipe` admits nothing else.

## Model

| member | source | states |
|---|---|---|
| `Brewery.GetPossibleContainers` | brewery.py:31-63 | A free vessel is offered iff (its fermenter flag equals the requested one OR its conditioner flag equals the requested one) and its volume is at least the batch volume. An occupied vessel is offered only if its id is the batch's id, it can condition and the batch is fermenting, so it is never offered to a different batch. Free vessels are offered with their data; the reused vessel gets the reuse note. This is the return value the code intends; the display pass that raises on it is modelled apart. |
| `Brewery.RenderOffers` | brewery.py:64-69 | The display pass gets through the offers iff every offer is a free vessel whose volume is a valid index into a pair (-2..1). A larger volume raises IndexError, and the reuse note raises TypeError. |
| `Brewery.GetPossibleContainersAsWritten` | brewery.py:31-70 | Returns the offers iff every eligible vessel's offer gets through the display pass. They are then exactly the eligible vessels, each with the value `get_possible_containers` stores for it (its data when free, the reuse note when occupied). Otherwise the call raises (None). |
| `Brewery.OffersToRealBatchesNeverRender` | brewery.py:53-69 | For a batch of two litres or more, every vessel that passes the eligibility test yields an offer the display pass raises on. So the call as written returns only when nothing is offered. |
| `Brewery.FreeFermenterOfferRaises` | brewery.py:53-69 | A free 1000-litre fermenter is eligible for a 500-litre hot-brew batch's (True, False) request, and its offer fails the display pass. |
| `Brewery.NeitherFlagVesselIsOffered` | brewery.py:53-54 | Because the test is an equality-OR, a large enough free vessel with neither flag is offered both for the (True, False) request and for the (False, True) request. |
| `Brewery.OfferedOccupiedVesselHoldsOnlyThisBatch` | brewery.py:57-63 | In a consistent snapshot, an occupied vessel offered to a batch is tied to exactly one inventory entry, the one stored under that batch's gyle number. It is never offered to a different batch. |
| `Brewery.GetBatchData` | brewery.py:73-79 | Returns the entry stored under the gyle number. The entry must exist, because the source fails without one. |
| `Brewery.Store.constructor` | brewery.py:17-28 | The store holds exactly the loaded containers and inventory. |
| `Brewery.Store.ReleaseVessels` | brewery.py:134-138 | Every vessel tagged with the id becomes free with finish "-1". All other vessels and the inventory are unchanged. |
| `Brewery.Store.UpdateContainers` | brewery.py:116-148 | The old vessel is released (only when the batch id is > 0), then the selected vessel is occupied with the given finish. The batch's id becomes the selected vessel's id, or 10 for "bottling", or stays as it was. Its state becomes the given state, and the inventory entry under its gyle number is replaced. Nothing else changes. |
| `Brewery.UpdateToEligibleKeepsConsistent` | brewery.py:134-146 | Moving a batch into a vessel that `get_possible_containers` offered, with a deadline date as `save_state` gives, keeps the snapshot consistent. The batch's new id is the id of the selected vessel, which is occupied with the new finish, and of no other vessel. Reusing its own vessel leaves the batch's id unchanged. |
| `Brewery.UpdateKeepsDeadlines` | brewery.py:134-146 | A commit keeps every vessel occupied exactly when it has a deadline date, provided a selected vessel is given a date. A release writes "-1" with occupied False, and an occupation writes the deadline with occupied True. |
| `Brewery.UpdateLeavesNoIdleVessel` | brewery.py:134-146 | After any commit of a stored batch, every occupied vessel still has a batch tied to it. The vessels the batch leaves are released, and a selected vessel is tied to the moved batch. |
| `Brewery.UpdateToBottlingKeepsConsistent` | brewery.py:139-148 | Sending a batch to bottling keeps the snapshot consistent. The batch's id becomes 10, no vessel has that id, and every vessel that held the batch is free. |
| `Brewery.Store.DeleteBatch` | brewery.py:175-192 | Removes the key and frees every vessel tagged with the batch's id, leaving everything else unchanged. It keeps a consistent snapshot consistent. The key must exist, because the source fails without it. |
| `Brewery.DeleteKeepsConsistent` | brewery.py:183-190 | Deleting a batch keeps the snapshot consistent and leaves every vessel that held it free. |
| `Brewery.Store.AddBrew` | brewery.py:277-282 | Upserts one inventory entry; the vessels are unchanged. |
| `Brewery.Store.AddBatchToInventory` | brewery.py:195-200 | The batch becomes id -1 with state "bottled" and is upserted under its gyle number. The vessels are untouched, so nothing is released. A consistent snapshot stays consistent exactly when the entry it replaces is tied to no vessel, as a bottling batch (id 10) is not. |
| `Brewery.BottledEntryKeepsConsistent` | brewery.py:197-199 | Storing a batch as bottled stock (id -1) keeps the snapshot consistent when the entry it replaces is tied to no vessel: -1 ties the new entry to no vessel, and every occupied vessel keeps its batch. |
| `Brewery.PromotingVesselBatchStrandsVessel` | brewery.py:195-200 | Promoting a batch that is still tied to a vessel leaves that vessel occupied with no batch tied to it, so the snapshot is no longer consistent. `add_batch_to_inventory` releases nothing. |
| `Brewery.BottledBeers` | brewery.py:285-303 | All three recipes are present (0 when a recipe has no stock). Each count is the bottle total over the entries with id -1 only, at `volume // 0.5` = 2·volume bottles per entry. |
| `Brewery.BottlingAddsBottles` | brewery.py:299-302 | Promoting a batch that was not yet stock raises its recipe's bottled count by 2·volume and leaves the other recipes' counts unchanged. |
| `Brewery.CheckEquipmentAvailability` | brewery.py:221-237 | True iff some vessel can ferment and is free. Capacity is not considered. |
| `Brewery.CalculateFinishTime` | brewery.py:203-218 | The deadline is after today: 28 days ahead iff fermenting, otherwise 14 days. |
| `Brewery.CalculateTime` | brewery.py:153-172 | Let D = finish − now. The result is "Finished" iff D mod 86400 = 0. Otherwise days = ⌊D/86400⌋ (negative when overdue), hours are in 0..23 and minutes in 0..59, and together they give D to within a minute. |
| `Brewery.TimeLeft` | brewery.py:164-171 | The corrected remaining time: "Finished" iff D ≤ 0. Otherwise days ≥ 0, hours 0..23 and minutes 0..59, which give D to within a minute. |
| `Brewery.CalculateTimeMisreports` | brewery.py:166 | As written, D = 86400 reports "Finished" (the corrected form reports 1 day), and D = −60 reports −1 days 23 hours 59 minutes (the corrected form reports "Finished"). |
| `Brewhouse.FindMostUnderstockedBeer` | brewhouse.py:101-116 | Returns the minimum of totals[i] − predictions[i] over i < 3, and the first index that attains it. |
| `Brewhouse.SumAllBeers` | brewhouse.py:119-129 | All three recipes are present. Every inventory entry adds 2·volume bottles to its recipe, whatever its stage. |
| `Brewhouse.HighestOrderGyle` | main.py:188-192 | The gyle number that `sorted(orders)[-1]` picks is an order's gyle number and is at least every order's gyle number. There must be at least one order, because the source fails on an empty list. |
| `Brewhouse.CalculateGyleNumber` | brewhouse.py:180-200 | Returns max(highest order gyle, highest inventory gyle, 0) + 1. It is ≥ 1, strictly above every order gyle and every inventory gyle, and one less than it is 0 or is one of those gyles. At least one order is required. |
| `Brewhouse.BatchExists` | brewhouse.py:171-177 | True iff the gyle number is an inventory key. |
| `Brewhouse.NewBatchKeepsConsistent` | main.py:149-157 | A hot-brew record with id 0, under a gyle number above every inventory gyle number, takes a key not yet used and keeps the snapshot consistent. |
| `Brewhouse.CreateNewBatch` | brewhouse.py:132-168 | A batch is created iff 0 < volume ≤ 1000. The record is {id 0, gyle, "hot brew", volume, recipe}, keyed by a gyle number above every order and inventory gyle. Otherwise nothing changes. It keeps a consistent snapshot consistent. |
| `Brewhouse.PossibleContainersForStage` | brewhouse.py:437-447 | A hot-brew batch asks for (fermenter=True, conditioner=False), and is only ever offered free vessels. A fermenting batch asks for (False, True). Conditioning and bottling batches ask for no vessel. |
| `Brewhouse.NextCommit` | brewhouse.py:382-396 | Each commit moves the batch exactly one stage forward. Hot brew goes to fermentation with a finish 28 days ahead, and fermentation goes to conditioning with a finish 14 days ahead, both into the chosen vessel. Conditioning goes to bottling with selection "bottling" and an empty finish. A bottling batch goes to stock. |
| `Brewhouse.SaveState` | main.py:369-406 | Applies the stage's commit through `update_containers`, or `add_batch_to_inventory` for a bottling batch (as `update` does at brewhouse.py:458-465). Bottled stock is left alone. Suppose the snapshot was consistent and the selection was offered. Then it stays consistent, and a batch moved into a vessel is tied to that occupied vessel alone. |

## Left out

- The Tkinter interface is not modelled. This covers widgets, message boxes, the listbox, the `display_*` functions, `draw_predictions`, `update_predictions`, the month loop of `planning_algorithm` and the `__main__` layout. The chosen vessel name is a parameter instead.
- File I/O is not modelled: `read_data`, the file writes in `add_brew` and the `json.dump` calls. The store is the in-memory snapshot. `read_data`'s failure branch is not modelled either. brewery.py never imports `logging`, so a failed load raises NameError there; it neither logs nor returns.
- prediction.py is not part of this model, because it is floating-point forecasting and CSV/date parsing. Past orders are given as a sequence of gyle numbers, and monthly predictions as a sequence of numbers.
- The text rendering in `get_container` and `get_production_batches` is not modelled. This includes the fixed "Less than 12 hours" estimate for bottling batches.
- Brewery.GetPossibleContainers: it omits the display pass at brewery.py:64-69, which indexes ("No", "Yes") with each offer's volume and with the reuse note. That pass raises (IndexError or TypeError) for any offer to a batch of two litres or more. This member models the return value the code evidently intends, and the rest of the model, `update`'s vessel list included, uses it. The raising is modelled separately by `GetPossibleContainersAsWritten` and listed under "## Findings".
- The clock is not read. `today` is a day number, and `now` and `finish` are seconds. Each "%Y-%m-%d" date is its day number, and `calculate_time` gets midnight of the finish date in seconds. Logging is dropped.
- The bottling branch of `save_state` (brewhouse.py:397-406) would fail on unbound `state` and `container`. `SaveState` follows `update` there and promotes the batch with `add_batch_to_inventory`.
- Brewhouse.SaveState: it does not lower-case the selection, which the source does (`container.lower()`). Vessel names are taken to be the lower-case keys already. It also does not report the crash for a batch already "bottled". That batch matches no branch of `save_state`, so `state` is unbound at brewhouse.py:402-405 and UnboundLocalError is raised before anything is written. `SaveState` returns normally with the store unchanged (`Stay`), which is the same effect on the snapshot.
- Inventory keys are gyle numbers, while the source uses their decimal strings `str(gyle)`. Decimal rendering is one-to-one, so key equality is the same.
- Brewery.Store.UpdateContainers, Brewery.Store.AddBatchToInventory: these return the changed batch as a value. The source instead mutates the caller's `batchdata` dictionary in place; the caller does not read it again.
- Brewery.BottledBeers, Brewhouse.SumAllBeers: `volume // 0.5` is a float in Python. Here it is the exact integer 2·volume, which equals it for every integer volume the form accepts.
- Brewhouse.FindMostUnderstockedBeer: the stock totals are integers here. In the source they are whole-valued floats, from `// 0.5` at brewhouse.py:127. The predictions are integers in the source too. The minimum-and-first-index logic is the same.
- Parsing user input (`int(...)` failing on non-numbers) belongs to the interface. So does the confirmation dialog before a delete or a transition.

Where a natural reading of the program and its code differ, the model follows the code:

- Eligibility uses the code's equality-OR, not "has the requested capability".
- `save_state` does not re-check that the selection is eligible. `SaveState` therefore guarantees consistency only when the selection was offered.
- Deleting an unknown gyle number fails in the code (`batchdata` is unbound) rather than reporting "not found". `DeleteBatch` requires the key, and `remove_batch` checks `batch_exists` before calling it.
- A failed load raises NameError (from the unimported `logging`), not a typed store error.

## Findings

| source | as written | input that shows it | evidently intended | confidence | as-written member | corrected member |
|---|---|---|---|---|---|---|
| brewery.py:64-69 | The display pass indexes the pair ("No", "Yes") with every offered vessel's volume and with the reuse note's string. | a free vessel {id 1, volume 1000, fermenter True, conditioner False} offered to a 500-litre hot-brew batch raises IndexError, so `update` lists nothing | return the eligible vessels (or render them without indexing by volume) | high, not executed | `Brewery.OffersToRealBatchesNeverRender` | `Brewery.GetPossibleContainers` |
| brewery.py:166 | `if difference.seconds >= 1` decides "Finished" from the seconds part of the timedelta only. Any whole-day remainder therefore prints "Finished", and an overdue stage prints negative days. | finish 86400 s after now prints "Finished" with a day left; now 60 s past the finish prints "-1 days 23 hours 59 minutes" | "Finished" iff the deadline is not in the future, otherwise the non-negative time left | medium, not executed | `Brewery.CalculateTimeMisreports` | `Brewery.TimeLeft` |
