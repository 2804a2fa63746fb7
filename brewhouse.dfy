/** brewhouse.py (main.py is the same file): new gyle numbers, creating a
    batch, looking a batch up, stock totals, the most understocked beer, and
    the stage dispatch that drives the commit in Brewery. */
module Brewhouse {
  import opened Snapshot
  import opened Brewery

  // ------------------------------------------------------------------------
  // Planning helpers (find_most_understocked_beer, sum_all_beers)

  /** The smallest of `totals[i] - predictions[i]` over the first three
      beers, and the first index where it occurs. `predictions` are the
      monthly predictions in the order of the forecast's dictionary. */
  method FindMostUnderstockedBeer(predictions: seq<int>, totals: seq<int>) returns (minimumStock: int, beer: nat)
    requires |predictions| >= 3 && |totals| >= 3
    ensures beer < 3 && minimumStock == totals[beer] - predictions[beer]
    ensures forall i :: 0 <= i < 3 ==> minimumStock <= totals[i] - predictions[i]
    ensures forall i :: 0 <= i < beer ==> minimumStock < totals[i] - predictions[i]
  {
    var monthPredictions: seq<int> := [];
    for i := 0 to |predictions|
      invariant monthPredictions == predictions[..i]
    {
      monthPredictions := monthPredictions + [predictions[i]];
    }
    var difference: seq<int> := [];
    for i := 0 to 3
      invariant |difference| == i
      invariant forall j :: 0 <= j < i ==> difference[j] == totals[j] - monthPredictions[j]
    {
      difference := difference + [totals[i] - monthPredictions[i]];
    }
    // min(difference)
    minimumStock := difference[0];
    for i := 1 to 3
      invariant minimumStock in difference[..i]
      invariant forall j :: 0 <= j < i ==> minimumStock <= difference[j]
    {
      if difference[i] < minimumStock {
        minimumStock := difference[i];
      }
    }
    // difference.index(minimumStock)
    beer := 0;
    while difference[beer] != minimumStock
      invariant beer < 3
      invariant forall j :: 0 <= j < beer ==> difference[j] != minimumStock
      invariant exists j :: beer <= j < 3 && difference[j] == minimumStock
      decreases 3 - beer
    {
      beer := beer + 1;
    }
  }

  /** Bottles of each recipe over every inventory entry, in production or
      bottled, two per litre; every recipe is present, with 0 when it has no
      entry. */
  method SumAllBeers(inv: Inventory) returns (totalBottles: map<Recipe, int>)
    ensures forall r :: r in totalBottles
    ensures forall r :: r in totalBottles ==> totalBottles[r] == Total(inv, inv.Keys, r, false)
  {
    totalBottles := map[RedHelles := 0, Pilsner := 0, Dunkel := 0];
    forall r | true ensures r in totalBottles && totalBottles[r] == 0 {
      match r
      case RedHelles =>
      case Dunkel =>
      case Pilsner =>
    }
    var todo := inv.Keys;
    while todo != {}
      invariant todo <= inv.Keys
      invariant forall r :: r in totalBottles && totalBottles[r] + Total(inv, todo, r, false) == Total(inv, inv.Keys, r, false)
      decreases todo
    {
      HasMember(todo);
      var key :| key in todo;
      var batchData := inv[key];
      forall r | true ensures Total(inv, todo, r, false) == BottlesOf(batchData, r, false) + Total(inv, todo - {key}, r, false) {
        TotalRemove(inv, todo, key, r, false);
      }
      var bottles := 2 * batchData.volume;
      totalBottles := totalBottles[batchData.recipe := totalBottles[batchData.recipe] + bottles];
      todo := todo - {key};
    }
  }

  // ------------------------------------------------------------------------
  // Gyle numbers and lookup (calculate_gyle_number, batch_exists)

  /** The largest gyle number among past orders, which the source takes as
      the last element after sorting them. */
  function HighestOrderGyle(orders: seq<int>): (top: int)
    requires |orders| > 0
    ensures top in orders
    ensures forall i :: 0 <= i < |orders| ==> orders[i] <= top
  {
    if |orders| == 1 then orders[0]
    else
      var rest := HighestOrderGyle(orders[1..]);
      if orders[0] > rest then orders[0] else rest
  }

  /** One more than the largest of: the gyle numbers of past orders, the gyle
      numbers in the inventory, and 0. So it is above every gyle number in use.
      The source needs at least one past order. */
  method CalculateGyleNumber(orders: seq<int>, inv: Inventory) returns (gyle: int)
    requires |orders| > 0
    ensures forall i :: 0 <= i < |orders| ==> orders[i] < gyle
    ensures forall k :: k in inv ==> inv[k].gyle < gyle
    ensures gyle >= 1
    ensures gyle - 1 == 0 || gyle - 1 in orders || exists k :: k in inv && inv[k].gyle == gyle - 1
  {
    var highestGyle := 0;
    var orderGyle := HighestOrderGyle(orders);
    var todo := inv.Keys;
    while todo != {}
      invariant todo <= inv.Keys
      invariant highestGyle >= 0
      invariant forall k :: k in inv && k !in todo ==> inv[k].gyle <= highestGyle
      invariant highestGyle == 0 || exists k :: k in inv && inv[k].gyle == highestGyle
      decreases todo
    {
      HasMember(todo);
      var key :| key in todo;
      if inv[key].gyle > highestGyle {
        highestGyle := inv[key].gyle;
      }
      todo := todo - {key};
    }
    if orderGyle > highestGyle {
      highestGyle := orderGyle;
    }
    gyle := highestGyle + 1;
  }

  /** Whether a batch is stored under `gyleNumber`. */
  method BatchExists(inv: Inventory, gyleNumber: int) returns (found: bool)
    ensures found <==> gyleNumber in inv
  {
    var todo := inv.Keys;
    while todo != {}
      invariant todo <= inv.Keys
      invariant gyleNumber !in inv.Keys - todo
      decreases todo
    {
      HasMember(todo);
      var key :| key in todo;
      if key == gyleNumber {
        return true;
      }
      todo := todo - {key};
    }
    return false;
  }

  // ------------------------------------------------------------------------
  // Creating a batch (create_new_batch)

  /** The outcome of `create_new_batch`. */
  datatype Creation = Created(gyle: int) | IncorrectBatchSize

  /** A new hot-brew batch (id 0) stored under a gyle number above every
      gyle number in the inventory keeps the snapshot consistent; that gyle
      number was not yet a key. */
  lemma NewBatchKeepsConsistent(cs: Vessels, inv: Inventory, gyle: int, volume: int, recipe: Recipe)
    requires Consistent(cs, inv)
    requires forall k :: k in inv ==> inv[k].gyle < gyle
    ensures gyle !in inv
    ensures Consistent(cs, inv[gyle := Batch(NewBatchTag, gyle, HotBrew, volume, recipe)])
  {
    var inv' := inv[gyle := Batch(NewBatchTag, gyle, HotBrew, volume, recipe)];
    forall n | n in cs && cs[n].occupied ensures exists g :: g in inv' && inv'[g].id == cs[n].id {
      var g :| g in inv && inv[g].id == cs[n].id;
      assert inv'[g].id == cs[n].id;
    }
  }

  /** Creates a batch when 0 < volume <= 1000: a hot-brew record with id 0
      under a fresh gyle number, above every past order and every batch in the
      inventory. Any other volume is refused and nothing changes. */
  method CreateNewBatch(store: Store, orders: seq<int>, recipe: Recipe, volume: int) returns (result: Creation)
    requires 0 < volume <= 1000 ==> |orders| > 0
    modifies store
    ensures result.Created? <==> 0 < volume <= 1000
    ensures store.containers == old(store.containers)
    ensures result.IncorrectBatchSize? ==> store.inventory == old(store.inventory)
    ensures result.Created? ==>
      && store.inventory == old(store.inventory)[result.gyle := Batch(NewBatchTag, result.gyle, HotBrew, volume, recipe)]
      && (forall i :: 0 <= i < |orders| ==> orders[i] < result.gyle)
      && (forall k :: k in old(store.inventory) ==> old(store.inventory)[k].gyle < result.gyle)
    ensures old(store.Valid()) && result.Created? ==> result.gyle !in old(store.inventory)
    ensures old(store.Valid()) ==> store.Valid()
  {
    if volume <= 1000 && volume > 0 {
      var gyle := CalculateGyleNumber(orders, store.inventory);
      var nextBatch := Batch(NewBatchTag, gyle, HotBrew, volume, recipe);
      store.AddBrew(gyle, nextBatch);
      result := Created(gyle);
      if old(store.Valid()) {
        NewBatchKeepsConsistent(old(store.containers), old(store.inventory), gyle, volume, recipe);
      }
    } else {
      result := IncorrectBatchSize;
    }
  }

  // ------------------------------------------------------------------------
  // Stage dispatch (update, save_state)

  /** Position of a stage in the production order. */
  function StageOrder(s: Stage): nat {
    match s
    case HotBrew => 0
    case Fermentation => 1
    case Conditioning => 2
    case Bottling => 3
    case Bottled => 4
  }

  /** The vessel request `update` makes for a batch in each stage, as
      (fermenter, conditioner); the later stages request no vessel. */
  function VesselRequest(s: Stage): Option<(bool, bool)> {
    match s
    case HotBrew => Some((true, false))
    case Fermentation => Some((false, true))
    case _ => None
  }

  /** The vessels `update` lists for a batch: the eligible vessels for its
      stage's request, none in the later stages. A hot-brew batch is only
      ever offered free vessels. */
  method PossibleContainersForStage(cs: Vessels, batch: Batch) returns (possible: map<string, Offer>)
    ensures VesselRequest(batch.state).None? ==> possible == map[]
    ensures batch.state == HotBrew ==>
      forall n :: n in possible <==> n in cs && Eligible(cs[n], batch.volume, true, false, batch)
    ensures batch.state == Fermentation ==>
      forall n :: n in possible <==> n in cs && Eligible(cs[n], batch.volume, false, true, batch)
    ensures batch.state == HotBrew ==> forall n :: n in possible ==> !cs[n].occupied
  {
    possible := map[];
    if batch.state == HotBrew {
      possible := GetPossibleContainers(cs, batch.volume, true, false, batch);
    } else if batch.state == Fermentation {
      possible := GetPossibleContainers(cs, batch.volume, false, true, batch);
    }
  }

  /** `selection` is a vessel `update` would list for the batch; stages that
      request no vessel accept any selection. */
  ghost predicate Offered(cs: Vessels, batch: Batch, selection: string) {
    match VesselRequest(batch.state)
    case None => true
    case Some(request) => selection in cs && Eligible(cs[selection], batch.volume, request.0, request.1, batch)
  }

  /** What `save_state` commits for a batch in each stage: a finish, a new
      state and a selection for `update_containers`; promotion to stock for a
      bottling batch; nothing for bottled stock. */
  datatype StageCommit = Commit(finish: Finish, state: Stage, selection: string) | ToStock | Stay

  /** The dispatch of `save_state`. Every commit moves the batch exactly one
      stage forward; the two vessel stages get a deadline 28 and 14 days ahead,
      and bottling uses the "bottling" selection instead of a vessel. */
  function NextCommit(s: Stage, selection: string, today: int): (c: StageCommit)
    ensures c.Commit? ==> StageOrder(c.state) == StageOrder(s) + 1
    ensures c.Commit? <==> VesselRequest(s).Some? || s == Conditioning
    ensures c.ToStock? <==> s == Bottling
    ensures c.Commit? && VesselRequest(s).Some? ==>
      c.selection == selection && c.finish.Date? && c.finish.day == CalculateFinishTime(s == HotBrew, today)
    ensures c.Commit? && s == Conditioning ==> c.selection == BottlingSelection && c.finish == Blank
  {
    match s
    case HotBrew => Commit(Date(CalculateFinishTime(true, today)), Fermentation, selection)
    case Fermentation => Commit(Date(CalculateFinishTime(false, today)), Conditioning, selection)
    case Conditioning => Commit(Blank, Bottling, BottlingSelection)
    case Bottling => ToStock
    case Bottled => Stay
  }

  /** Moves the batch stored under `gyleNumber` one stage forward, into the
      vessel named `selection` where its stage needs one. When the snapshot
      was consistent and the selection is one `update` offered, it stays
      consistent, and a batch moved into a vessel is tied to that vessel alone. */
  method SaveState(store: Store, gyleNumber: int, selection: string, today: int) returns (moved: Batch)
    requires gyleNumber in store.inventory
    modifies store
    ensures
      var b := old(store.inventory[gyleNumber]);
      match NextCommit(b.state, selection, today)
      case Commit(finish, state, chosen) =>
        && moved == BatchAfterUpdate(old(store.containers), b, state, chosen)
        && store.containers == ContainersAfterUpdate(old(store.containers), b, finish, chosen)
        && store.inventory == old(store.inventory)[b.gyle := moved]
      case ToStock =>
        && moved == b.(id := BottledTag, state := Bottled)
        && store.containers == old(store.containers)
        && store.inventory == old(store.inventory)[b.gyle := moved]
      case Stay =>
        && moved == b
        && store.containers == old(store.containers)
        && store.inventory == old(store.inventory)
    ensures old(store.Valid()) && Offered(old(store.containers), old(store.inventory[gyleNumber]), selection) ==>
      && store.Valid()
      && (VesselRequest(old(store.inventory[gyleNumber]).state).Some? ==>
            && selection in store.containers && store.containers[selection].occupied
            && moved.id == store.containers[selection].id
            && forall n :: n in store.containers && store.containers[n].id == moved.id ==> n == selection)
  {
    ghost var cs0, inv0 := store.containers, store.inventory;
    var batchData := GetBatchData(store.inventory, gyleNumber);
    match NextCommit(batchData.state, selection, today)
    case Commit(finishTime, state, container) =>
      moved := store.UpdateContainers(batchData, finishTime, state, container);
      if Consistent(cs0, inv0) && Offered(cs0, batchData, selection) {
        if batchData.state == Conditioning {
          UpdateToBottlingKeepsConsistent(cs0, inv0, batchData, finishTime);
        } else {
          var request := VesselRequest(batchData.state).value;
          UpdateToEligibleKeepsConsistent(cs0, inv0, batchData, batchData.volume, request.0, request.1, finishTime, state, container);
        }
      }
    case ToStock =>
      moved := store.AddBatchToInventory(batchData);
    case Stay =>
      moved := batchData;
  }
}
