/** brewery.py: which vessels a batch may move into, the commit of a stage
    transition against the snapshot, deletion, promotion to bottled stock,
    bottle counting and the deadline arithmetic. */
module Brewery {
  import opened Snapshot

  // ------------------------------------------------------------------------
  // Eligibility (get_possible_containers)

  /** What the result of `get_possible_containers` holds for an eligible
      vessel: its data when it is free, or the note that the batch already in
      it may stay there. */
  datatype Offer = Free(vessel: Container) | ReusableBySameBatch

  /** The test `get_possible_containers` applies to one vessel. The capability
      part compares each flag with the requested one and joins the two
      comparisons with OR; it is not "has the requested capability". */
  predicate Eligible(c: Container, volume: int, fermenter: bool, conditioner: bool, batch: Batch) {
    && (c.fermenter == fermenter || c.conditioner == conditioner)
    && c.volume >= volume
    && (!c.occupied || (c.id == batch.id && c.conditioner && batch.state == Fermentation))
  }

  /** The vessels a batch of `volume` may move into. A free vessel qualifies on
      capability and capacity alone; an occupied one only as the vessel the
      same batch is fermenting in, when it can condition. */
  method GetPossibleContainers(cs: Vessels, volume: int, fermenter: bool, conditioner: bool, batch: Batch)
    returns (possible: map<string, Offer>)
    ensures forall n :: n in possible <==> n in cs && Eligible(cs[n], volume, fermenter, conditioner, batch)
    ensures forall n :: n in cs && !cs[n].occupied ==>
      (n in possible <==> (cs[n].fermenter == fermenter || cs[n].conditioner == conditioner) && cs[n].volume >= volume)
    ensures forall n :: n in possible && cs[n].occupied ==>
      cs[n].id == batch.id && cs[n].conditioner && batch.state == Fermentation
    ensures forall n :: n in possible ==> possible[n] == if cs[n].occupied then ReusableBySameBatch else Free(cs[n])
  {
    possible := map[];
    var todo := cs.Keys;
    while todo != {}
      invariant todo <= cs.Keys
      invariant forall n :: n in possible <==> n in cs && n !in todo && Eligible(cs[n], volume, fermenter, conditioner, batch)
      invariant forall n :: n in possible ==> possible[n] == if cs[n].occupied then ReusableBySameBatch else Free(cs[n])
      decreases todo
    {
      HasName(todo);
      var name :| name in todo;
      var data := cs[name];
      if (data.fermenter == fermenter || data.conditioner == conditioner) && data.volume >= volume {
        if !data.occupied {
          possible := possible[name := Free(data)];
        } else if data.id == batch.id && data.conditioner && batch.state == Fermentation {
          possible := possible[name := ReusableBySameBatch];
        }
      }
      todo := todo - {name};
    }
  }

  /** Because the capability test compares flags for equality, a free vessel
      that can neither ferment nor condition is offered for both requests the
      program makes, as long as it is large enough. */
  lemma NeitherFlagVesselIsOffered(c: Container, volume: int, batch: Batch)
    requires !c.fermenter && !c.conditioner && !c.occupied && c.volume >= volume
    ensures Eligible(c, volume, true, false, batch)
    ensures Eligible(c, volume, false, true, batch)
  {
  }

  /** An occupied vessel is only ever offered to the batch that is in it: in a
      consistent snapshot, the batch stored under that batch's gyle number is
      the one and only batch tied to the offered vessel. */
  lemma OfferedOccupiedVesselHoldsOnlyThisBatch(
    cs: Vessels, inv: Inventory, b: Batch,
    volume: int, fermenter: bool, conditioner: bool, n: string)
    requires Consistent(cs, inv)
    requires b.gyle in inv && inv[b.gyle] == b
    requires n in cs && cs[n].occupied && Eligible(cs[n], volume, fermenter, conditioner, b)
    ensures forall g :: g in inv && inv[g].id == cs[n].id <==> g == b.gyle
  {
  }

  // ------------------------------------------------------------------------
  // The display pass over the offers (get_possible_containers, as written)

  /** Whether the display pass gets through one offer. It indexes the pair
      ("No", "Yes") with the value of each "volume", "fermenter",
      "conditioner" and "state" attribute: a flag is always a valid index, a
      volume only when it is -2, -1, 0 or 1, and the reuse note, a string,
      never. */
  predicate Renders(o: Offer) {
    match o
    case Free(c) => -2 <= c.volume <= 1
    case ReusableBySameBatch => false
  }

  /** The display pass: true when it gets through every offer, false where the
      source raises (IndexError on a volume, TypeError on the reuse note). */
  method RenderOffers(possible: map<string, Offer>) returns (rendered: bool)
    ensures rendered <==> forall n :: n in possible ==> Renders(possible[n])
  {
    var todo := possible.Keys;
    while todo != {}
      invariant todo <= possible.Keys
      invariant forall n :: n in possible && n !in todo ==> Renders(possible[n])
      decreases todo
    {
      HasName(todo);
      var name :| name in todo;
      if !Renders(possible[name]) {
        return false;
      }
      todo := todo - {name};
    }
    return true;
  }

  /** `get_possible_containers` as written: the offers when the display pass
      gets through them all, None where it raises. */
  method GetPossibleContainersAsWritten(cs: Vessels, volume: int, fermenter: bool, conditioner: bool, batch: Batch)
    returns (result: Option<map<string, Offer>>)
    ensures result.Some? <==> forall n :: n in cs && Eligible(cs[n], volume, fermenter, conditioner, batch) ==>
      Renders(if cs[n].occupied then ReusableBySameBatch else Free(cs[n]))
    ensures result.Some? ==> forall n :: n in result.value <==> n in cs && Eligible(cs[n], volume, fermenter, conditioner, batch)
    ensures result.Some? ==> forall n :: n in result.value ==>
      result.value[n] == if cs[n].occupied then ReusableBySameBatch else Free(cs[n])
  {
    var possible := GetPossibleContainers(cs, volume, fermenter, conditioner, batch);
    var rendered := RenderOffers(possible);
    result := if rendered then Some(possible) else None;
  }

  /** As written, `get_possible_containers` raises whenever it has anything to
      offer a batch of two litres or more: every such offer fails the display
      pass, a free vessel on its volume and a reused one on its note. */
  lemma OffersToRealBatchesNeverRender(c: Container, volume: int, fermenter: bool, conditioner: bool, batch: Batch)
    requires Eligible(c, volume, fermenter, conditioner, batch) && volume >= 2
    ensures !Renders(if c.occupied then ReusableBySameBatch else Free(c))
  {
  }

  /** A free 1000-litre fermenter is offered to a 500-litre hot-brew batch,
      and the display pass then raises on its volume. */
  lemma FreeFermenterOfferRaises()
    ensures
      var fv := Container(1, 1000, true, false, false, Released);
      var b := Batch(NewBatchTag, 1, HotBrew, 500, Dunkel);
      Eligible(fv, b.volume, true, false, b) && !Renders(Free(fv))
  {
  }

  // ------------------------------------------------------------------------
  // Reading one batch (get_batch_data)

  /** The entry stored under `gyle`; the source fails when there is none. */
  method GetBatchData(inv: Inventory, gyle: int) returns (current: Batch)
    requires gyle in inv
    ensures current == inv[gyle]
  {
    var found: Option<Batch> := None;
    var todo := inv.Keys;
    while todo != {}
      invariant todo <= inv.Keys
      invariant found == if gyle in todo then None else Some(inv[gyle])
      decreases todo
    {
      HasMember(todo);
      var key :| key in todo;
      if key == gyle {
        found := Some(inv[key]);
      }
      todo := todo - {key};
    }
    current := found.value;
  }

  // ------------------------------------------------------------------------
  // The commit of a transition (update_containers), as functions of the
  // snapshot

  /** Every vessel tagged `id` marked free with finish "-1". */
  function FreeVesselsOf(cs: Vessels, id: int): Vessels {
    map n | n in cs :: if cs[n].id == id then cs[n].(occupied := false, finish := Released) else cs[n]
  }

  /** The vessel named `selection`, if there is one, marked occupied until `finish`. */
  function OccupyVessel(cs: Vessels, selection: string, finish: Finish): Vessels {
    if selection in cs then cs[selection := cs[selection].(occupied := true, finish := finish)] else cs
  }

  /** The vessels after the commit: the batch's old vessel released when its id
      is positive, then the selected vessel occupied. */
  function ContainersAfterUpdate(cs: Vessels, batch: Batch, finish: Finish, selection: string): Vessels {
    OccupyVessel(if batch.id > 0 then FreeVesselsOf(cs, batch.id) else cs, selection, finish)
  }

  /** The batch after the commit: the new state, and as id the selected
      vessel's id, else 10 for bottling, else the id it had. */
  function BatchAfterUpdate(cs: Vessels, batch: Batch, state: Stage, selection: string): Batch {
    var id :=
      if selection in cs then cs[selection].id
      else if selection == BottlingSelection then BottlingTag
      else batch.id;
    batch.(id := id, state := state)
  }

  // ------------------------------------------------------------------------
  // config.json

  /** The contents of config.json. Each operation of the source loads the
      file, changes the loaded dictionaries in place and writes them back; the
      fields here are that file, and each method is one such load-change-write. */
  class Store {
    var containers: Vessels
    var inventory: Inventory

    ghost predicate Valid()
      reads this
    {
      Consistent(containers, inventory)
    }

    constructor (containers: Vessels, inventory: Inventory)
      ensures this.containers == containers && this.inventory == inventory
    {
      this.containers := containers;
      this.inventory := inventory;
    }

    /** Marks every vessel tagged `id` free, with finish "-1". */
    method ReleaseVessels(id: int)
      modifies this
      ensures containers == FreeVesselsOf(old(containers), id)
      ensures inventory == old(inventory)
      ensures forall n :: n in containers && containers[n].id == id ==> !containers[n].occupied
    {
      var todo := containers.Keys;
      while todo != {}
        invariant todo <= containers.Keys == old(containers).Keys
        invariant inventory == old(inventory)
        invariant forall n :: n in containers ==>
          containers[n] == if n in todo then old(containers)[n] else FreeVesselsOf(old(containers), id)[n]
        decreases todo
      {
        HasName(todo);
        var name :| name in todo;
        if containers[name].id == id {
          containers := containers[name := containers[name].(occupied := false, finish := Released)];
        }
        todo := todo - {name};
      }
    }

    /** Moves `batch` into the vessel named `selection` (or to bottling) and
        into `state`: its old vessel is released first, then the selected one
        is occupied until `finish`, and the entry under its gyle number is
        replaced by the moved batch, which is also returned. */
    method UpdateContainers(batch: Batch, finish: Finish, state: Stage, selection: string) returns (moved: Batch)
      modifies this
      ensures containers == ContainersAfterUpdate(old(containers), batch, finish, selection)
      ensures moved == BatchAfterUpdate(old(containers), batch, state, selection)
      ensures inventory == old(inventory)[batch.gyle := moved]
    {
      if batch.id > 0 {
        ReleaseVessels(batch.id);
      }
      moved := batch;
      if selection == BottlingSelection {
        moved := moved.(id := BottlingTag);
      }
      moved := moved.(state := state);
      ghost var released := containers;
      ghost var unplaced := moved;
      var todo := containers.Keys;
      while todo != {}
        invariant todo <= containers.Keys == released.Keys
        invariant inventory == old(inventory)
        invariant containers == if selection in released && selection !in todo then OccupyVessel(released, selection, finish) else released
        invariant moved == if selection in released && selection !in todo then unplaced.(id := released[selection].id) else unplaced
        decreases todo
      {
        HasName(todo);
        var name :| name in todo;
        if name == selection {
          containers := containers[name := containers[name].(occupied := true, finish := finish)];
          moved := moved.(id := containers[name].id);
        }
        todo := todo - {name};
      }
      inventory := inventory[batch.gyle := moved];
    }

    /** Removes the batch stored under `gyle` and frees every vessel tagged
        with its id. The source fails when there is no such batch. */
    method DeleteBatch(gyle: int)
      requires gyle in inventory
      modifies this
      ensures containers == FreeVesselsOf(old(containers), old(inventory)[gyle].id)
      ensures inventory == old(inventory) - {gyle}
      ensures old(Valid()) ==> Valid()
    {
      var batchdata := GetBatchData(inventory, gyle);
      ReleaseVessels(batchdata.id);
      inventory := inventory - {gyle};
      if old(Valid()) {
        DeleteKeepsConsistent(old(containers), old(inventory), gyle);
      }
    }

    /** Inserts or replaces the entry under `gyle`. */
    method AddBrew(gyle: int, batch: Batch)
      modifies this
      ensures inventory == old(inventory)[gyle := batch]
      ensures containers == old(containers)
    {
      inventory := inventory[gyle := batch];
    }

    /** Turns `batch` into bottled stock (id -1, state "bottled") under its
        gyle number. No vessel is released, so a consistent snapshot stays
        consistent exactly when the entry replaced is tied to no vessel. */
    method AddBatchToInventory(batch: Batch) returns (bottled: Batch)
      modifies this
      ensures bottled == batch.(id := BottledTag, state := Bottled)
      ensures inventory == old(inventory)[batch.gyle := bottled]
      ensures containers == old(containers)
      ensures old(Valid()) ==>
        (Valid() <==> !(batch.gyle in old(inventory) && InVessel(old(inventory)[batch.gyle], old(containers))))
    {
      bottled := batch.(id := BottledTag);
      bottled := bottled.(state := Bottled);
      AddBrew(bottled.gyle, bottled);
      if old(Valid()) {
        if batch.gyle in old(inventory) && InVessel(old(inventory)[batch.gyle], old(containers)) {
          var n :| n in old(containers) && old(containers)[n].id == old(inventory)[batch.gyle].id;
          PromotingVesselBatchStrandsVessel(old(containers), old(inventory), batch, n);
        } else {
          BottledEntryKeepsConsistent(old(containers), old(inventory), batch);
        }
      }
    }
  }

  // ------------------------------------------------------------------------
  // What the commit preserves

  /** A commit keeps every other entry under its own gyle number and tagged
      for its stage: the vessels keep their names and ids. */
  lemma UpdateKeepsOthersTagged(cs: Vessels, inv: Inventory, b: Batch, finish: Finish, state: Stage, selection: string)
    requires Consistent(cs, inv)
    requires b.gyle in inv && inv[b.gyle] == b
    ensures
      var after := ContainersAfterUpdate(cs, b, finish, selection);
      var inv' := inv[b.gyle := BatchAfterUpdate(cs, b, state, selection)];
      forall g :: g in inv' ==> inv'[g].gyle == g && (g != b.gyle ==> Tagged(inv'[g], after))
  {
    var after := ContainersAfterUpdate(cs, b, finish, selection);
    var inv' := inv[b.gyle := BatchAfterUpdate(cs, b, state, selection)];
    assert SameIds(cs, after);
    forall g | g in inv' && g != b.gyle ensures Tagged(inv'[g], after) {
      SameIdsKeepTagged(cs, after, inv[g]);
    }
  }

  /** A commit keeps every vessel's occupation in step with its deadline when
      a selected vessel is given a deadline date. */
  lemma UpdateKeepsDeadlines(cs: Vessels, b: Batch, finish: Finish, selection: string)
    requires DeadlinesMatch(cs)
    requires selection in cs ==> finish.Date?
    ensures DeadlinesMatch(ContainersAfterUpdate(cs, b, finish, selection))
  {
  }

  /** After any commit every occupied vessel still has a batch tied to it: the
      vessels the moved batch leaves are released, and a selected vessel is
      tied to the moved batch. */
  lemma UpdateLeavesNoIdleVessel(cs: Vessels, inv: Inventory, b: Batch, finish: Finish, state: Stage, selection: string)
    requires Consistent(cs, inv)
    requires b.gyle in inv && inv[b.gyle] == b
    ensures
      var after := ContainersAfterUpdate(cs, b, finish, selection);
      var inv' := inv[b.gyle := BatchAfterUpdate(cs, b, state, selection)];
      forall n :: n in after && after[n].occupied ==> exists g :: g in inv' && inv'[g].id == after[n].id
  {
    var released := if b.id > 0 then FreeVesselsOf(cs, b.id) else cs;
    var after := ContainersAfterUpdate(cs, b, finish, selection);
    var inv' := inv[b.gyle := BatchAfterUpdate(cs, b, state, selection)];
    forall n | n in after && after[n].occupied ensures exists g :: g in inv' && inv'[g].id == after[n].id {
      if n == selection {
        assert inv'[b.gyle].id == after[n].id;
      } else {
        assert after[n] == released[n] && cs[n].occupied;
        var g :| g in inv && inv[g].id == cs[n].id;
        if g == b.gyle {
          assert false;
        }
        assert inv'[g].id == after[n].id;
      }
    }
  }

  /** After a commit into a vessel, every vessel a batch is tied to is
      occupied: the selected one is, and the moved batch is tied to no other. */
  lemma UpdateToVesselOccupiesTiedVessels(cs: Vessels, inv: Inventory, b: Batch, finish: Finish, state: Stage, selection: string)
    requires Consistent(cs, inv)
    requires b.gyle in inv && inv[b.gyle] == b && selection in cs
    ensures
      var after := ContainersAfterUpdate(cs, b, finish, selection);
      var inv' := inv[b.gyle := BatchAfterUpdate(cs, b, state, selection)];
      forall g, n :: g in inv' && n in after && inv'[g].id == after[n].id ==> after[n].occupied
  {
  }

  /** After a commit into an offered vessel no vessel is tied to two batches:
      the vessel the batch moves into held no other batch. */
  lemma EligibleUpdateTiesVesselOnce(
    cs: Vessels, inv: Inventory, b: Batch,
    volume: int, fermenter: bool, conditioner: bool,
    finish: Finish, state: Stage, selection: string)
    requires Consistent(cs, inv)
    requires b.gyle in inv && inv[b.gyle] == b
    requires selection in cs && Eligible(cs[selection], volume, fermenter, conditioner, b)
    ensures
      var after := ContainersAfterUpdate(cs, b, finish, selection);
      var inv' := inv[b.gyle := BatchAfterUpdate(cs, b, state, selection)];
      forall g, h, n :: g in inv' && h in inv' && n in after && inv'[g].id == after[n].id && inv'[h].id == after[n].id ==> g == h
  {
  }

  /** Moving a batch into a vessel `get_possible_containers` offered it keeps
      the snapshot consistent: afterwards the batch's id is the id of the
      selected vessel, which is occupied, and of no other vessel. When the
      vessel was already occupied (the batch stays where it is) the batch
      keeps its id. */
  lemma UpdateToEligibleKeepsConsistent(
    cs: Vessels, inv: Inventory, b: Batch,
    volume: int, fermenter: bool, conditioner: bool,
    finish: Finish, state: Stage, selection: string)
    requires Consistent(cs, inv)
    requires b.gyle in inv && inv[b.gyle] == b
    requires selection in cs && Eligible(cs[selection], volume, fermenter, conditioner, b)
    requires state == Fermentation || state == Conditioning
    requires finish.Date?
    ensures
      var after := ContainersAfterUpdate(cs, b, finish, selection);
      var moved := BatchAfterUpdate(cs, b, state, selection);
      && Consistent(after, inv[b.gyle := moved])
      && selection in after && after[selection].occupied && after[selection].finish == finish
      && moved.id == after[selection].id
      && (forall n :: n in after && after[n].id == moved.id ==> n == selection)
      && (cs[selection].occupied ==> moved.id == b.id)
  {
    var released := if b.id > 0 then FreeVesselsOf(cs, b.id) else cs;
    var after := ContainersAfterUpdate(cs, b, finish, selection);
    var moved := BatchAfterUpdate(cs, b, state, selection);
    var inv' := inv[b.gyle := moved];
    assert after == released[selection := released[selection].(occupied := true, finish := finish)];
    assert SameIds(cs, after);
    SameIdsKeepWellFormed(cs, after);
    assert moved.id == cs[selection].id;

    assert Consistent(after, inv') by {
      assert Tagged(moved, after) by {
        assert after[selection].id == moved.id;
      }
      UpdateKeepsOthersTagged(cs, inv, b, finish, state, selection);
      UpdateToVesselOccupiesTiedVessels(cs, inv, b, finish, state, selection);
      UpdateLeavesNoIdleVessel(cs, inv, b, finish, state, selection);
      UpdateKeepsDeadlines(cs, b, finish, selection);
      EligibleUpdateTiesVesselOnce(cs, inv, b, volume, fermenter, conditioner, finish, state, selection);
    }
  }

  /** Sending a batch to bottling keeps the snapshot consistent: its old vessel
      is free, its id becomes 10, and no vessel carries that id. */
  lemma UpdateToBottlingKeepsConsistent(cs: Vessels, inv: Inventory, b: Batch, finish: Finish)
    requires Consistent(cs, inv)
    requires b.gyle in inv && inv[b.gyle] == b
    ensures
      var after := ContainersAfterUpdate(cs, b, finish, BottlingSelection);
      var moved := BatchAfterUpdate(cs, b, Bottling, BottlingSelection);
      && Consistent(after, inv[b.gyle := moved])
      && moved.id == BottlingTag
      && (forall n :: n in after ==> after[n].id != moved.id)
      && (forall n :: n in cs && cs[n].id == b.id ==> !after[n].occupied)
  {
    var after := ContainersAfterUpdate(cs, b, finish, BottlingSelection);
    var moved := BatchAfterUpdate(cs, b, Bottling, BottlingSelection);
    var inv' := inv[b.gyle := moved];
    assert after == if b.id > 0 then FreeVesselsOf(cs, b.id) else cs;
    assert SameIds(cs, after);
    SameIdsKeepWellFormed(cs, after);

    UpdateKeepsOthersTagged(cs, inv, b, finish, Bottling, BottlingSelection);

    forall g, n | g in inv' && n in after && inv'[g].id == after[n].id ensures after[n].occupied {
      if g != b.gyle {
        assert inv[g].id == cs[n].id && cs[n].occupied;
        if b.id > 0 && cs[n].id == b.id {
          assert false;
        }
        assert after[n] == cs[n];
      }
    }

    UpdateLeavesNoIdleVessel(cs, inv, b, finish, Bottling, BottlingSelection);
    UpdateKeepsDeadlines(cs, b, finish, BottlingSelection);

    forall g, h, n | g in inv' && h in inv' && n in after && inv'[g].id == after[n].id && inv'[h].id == after[n].id
      ensures g == h
    {
      if g != b.gyle && h != b.gyle {
        assert inv[g].id == cs[n].id && inv[h].id == cs[n].id;
      }
    }
  }

  /** Deleting a batch keeps the snapshot consistent and leaves free every
      vessel that held it. */
  lemma DeleteKeepsConsistent(cs: Vessels, inv: Inventory, gyle: int)
    requires Consistent(cs, inv) && gyle in inv
    ensures Consistent(FreeVesselsOf(cs, inv[gyle].id), inv - {gyle})
    ensures forall n :: n in cs && cs[n].id == inv[gyle].id ==> !FreeVesselsOf(cs, inv[gyle].id)[n].occupied
  {
    var after := FreeVesselsOf(cs, inv[gyle].id);
    var inv' := inv - {gyle};
    assert SameIds(cs, after);
    SameIdsKeepWellFormed(cs, after);
    forall g | g in inv' ensures inv'[g].gyle == g && Tagged(inv'[g], after) {
      SameIdsKeepTagged(cs, after, inv[g]);
    }
    forall g, n | g in inv' && n in after && inv'[g].id == after[n].id ensures after[n].occupied {
      assert inv[g].id == cs[n].id && cs[n].occupied;
      if cs[n].id == inv[gyle].id {
        assert false;
      }
    }
    forall n | n in after && after[n].occupied ensures exists g :: g in inv' && inv'[g].id == after[n].id {
      var g :| g in inv && inv[g].id == cs[n].id;
      if g == gyle {
        assert false;
      }
      assert inv'[g].id == after[n].id;
    }
    forall g, h, n | g in inv' && h in inv' && n in after && inv'[g].id == after[n].id && inv'[h].id == after[n].id
      ensures g == h
    {
      assert inv[g].id == cs[n].id && inv[h].id == cs[n].id;
    }
  }

  /** Bottled stock (id -1) is tied to no vessel, so storing a batch as bottled
      stock keeps the snapshot consistent provided the entry it replaces holds
      no vessel either (a bottling batch, id 10, holds none). */
  lemma BottledEntryKeepsConsistent(cs: Vessels, inv: Inventory, b: Batch)
    requires Consistent(cs, inv)
    requires b.gyle in inv ==> !InVessel(inv[b.gyle], cs)
    ensures Consistent(cs, inv[b.gyle := b.(id := BottledTag, state := Bottled)])
  {
    var inv' := inv[b.gyle := b.(id := BottledTag, state := Bottled)];
    forall n | n in cs && cs[n].occupied ensures exists g :: g in inv' && inv'[g].id == cs[n].id {
      var g :| g in inv && inv[g].id == cs[n].id;
      if g == b.gyle {
        assert false;
      }
      assert inv'[g].id == cs[n].id;
    }
  }

  /** `add_batch_to_inventory` releases nothing: promoting a batch that is
      still tied to a vessel leaves that vessel occupied with no batch tied to
      it, and the snapshot is no longer consistent. */
  lemma PromotingVesselBatchStrandsVessel(cs: Vessels, inv: Inventory, b: Batch, n: string)
    requires Consistent(cs, inv)
    requires b.gyle in inv && n in cs && inv[b.gyle].id == cs[n].id
    ensures
      var inv' := inv[b.gyle := b.(id := BottledTag, state := Bottled)];
      && cs[n].occupied
      && (forall g :: g in inv' ==> inv'[g].id != cs[n].id)
      && !Consistent(cs, inv')
  {
  }

  // ------------------------------------------------------------------------
  // Bottle counts (bottled_beers)

  /** Bottles of each recipe in bottled stock (entries with id -1), two per
      litre; every recipe is present, with 0 when it has no stock. */
  method BottledBeers(inv: Inventory) returns (beers: map<Recipe, int>)
    ensures forall r :: r in beers
    ensures forall r :: r in beers ==> beers[r] == Total(inv, inv.Keys, r, true)
  {
    beers := map[RedHelles := 0, Dunkel := 0, Pilsner := 0];
    forall r | true ensures r in beers && beers[r] == 0 {
      match r
      case RedHelles =>
      case Dunkel =>
      case Pilsner =>
    }
    var todo := inv.Keys;
    while todo != {}
      invariant todo <= inv.Keys
      invariant forall r :: r in beers && beers[r] + Total(inv, todo, r, true) == Total(inv, inv.Keys, r, true)
      decreases todo
    {
      HasMember(todo);
      var key :| key in todo;
      var beer := inv[key];
      forall r | true ensures Total(inv, todo, r, true) == BottlesOf(beer, r, true) + Total(inv, todo - {key}, r, true) {
        TotalRemove(inv, todo, key, r, true);
      }
      if beer.id == BottledTag {
        var bottles := 2 * beer.volume;
        beers := beers[beer.recipe := beers[beer.recipe] + bottles];
      }
      todo := todo - {key};
    }
  }

  /** Bottling a batch that was not yet stock adds two bottles per litre to
      its recipe's count and leaves the other recipes' counts alone. */
  lemma {:induction false} BottlingAddsBottles(inv: Inventory, b: Batch, r: Recipe)
    requires b.gyle in inv && inv[b.gyle].id != BottledTag
    ensures
      var after := inv[b.gyle := b.(id := BottledTag, state := Bottled)];
      Total(after, after.Keys, r, true) == Total(inv, inv.Keys, r, true) + (if r == b.recipe then 2 * b.volume else 0)
  {
    var after := inv[b.gyle := b.(id := BottledTag, state := Bottled)];
    assert after.Keys == inv.Keys;
    TotalRemove(inv, inv.Keys, b.gyle, r, true);
    TotalRemove(after, after.Keys, b.gyle, r, true);
    TotalFrame(inv, after, inv.Keys - {b.gyle}, r, true);
  }

  // ------------------------------------------------------------------------
  // Equipment (check_equipment_availability)

  /** True exactly when some fermenting vessel is free; capacity is not looked at. */
  method CheckEquipmentAvailability(cs: Vessels) returns (available: bool)
    ensures available <==> exists n :: n in cs && cs[n].fermenter && !cs[n].occupied
  {
    var possible: set<string> := {};
    var todo := cs.Keys;
    while todo != {}
      invariant todo <= cs.Keys
      invariant forall n :: n in possible <==> n in cs && n !in todo && cs[n].fermenter && !cs[n].occupied
      decreases todo
    {
      HasName(todo);
      var name :| name in todo;
      if cs[name].fermenter {
        if !cs[name].occupied {
          possible := possible + {name};
        }
      }
      todo := todo - {name};
    }
    if possible != {} {
      HasName(possible);
    }
    available := possible != {};
  }

  // ------------------------------------------------------------------------
  // Deadlines (calculate_finish_time, calculate_time)

  /** The day a stage ends: four weeks after `today` for fermentation, two
      weeks otherwise. */
  function CalculateFinishTime(fermenting: bool, today: int): (finish: int)
    ensures finish > today
    ensures fermenting <==> finish - today == 28
    ensures !fermenting ==> finish - today == 14
  {
    if fermenting then today + 28 else today + 14
  }

  const SecondsPerDay := 86400

  /** Remaining time as the source reports it: "Finished", or days, hours and minutes. */
  datatype Remaining = Finished | Left(days: int, hours: int, minutes: int)

  /** `calculate_time` with `finish` (midnight of the finish date) and `now`
      in seconds. Python's timedelta splits the difference D into
      floor(D / 86400) days and D mod 86400 seconds; "Finished" is reported
      exactly when that seconds part is 0. Otherwise the days (negative once
      overdue), hours and minutes add up to D to within a minute. */
  function CalculateTime(finish: int, now: int): (r: Remaining)
    ensures r == Finished <==> (finish - now) % SecondsPerDay == 0
    ensures r.Left? ==>
      && 0 <= r.hours < 24 && 0 <= r.minutes < 60
      && r.days * SecondsPerDay + r.hours * 3600 + r.minutes * 60 <= finish - now
      && finish - now < r.days * SecondsPerDay + r.hours * 3600 + r.minutes * 60 + 60
  {
    var difference := finish - now;
    var days := difference / SecondsPerDay;
    var seconds := difference % SecondsPerDay;
    if seconds >= 1 then Left(days, seconds / 3600, (seconds / 60) % 60)
    else Finished
  }

  /** The remaining time as evidently intended: "Finished" exactly when the
      deadline is not in the future, otherwise a non-negative number of days,
      hours and minutes that add up to the time left, to within a minute. */
  function TimeLeft(finish: int, now: int): (r: Remaining)
    ensures r == Finished <==> finish - now <= 0
    ensures r.Left? ==>
      && r.days >= 0 && 0 <= r.hours < 24 && 0 <= r.minutes < 60
      && r.days * SecondsPerDay + r.hours * 3600 + r.minutes * 60 <= finish - now
      && finish - now < r.days * SecondsPerDay + r.hours * 3600 + r.minutes * 60 + 60
  {
    var difference := finish - now;
    if difference <= 0 then Finished
    else
      var seconds := difference % SecondsPerDay;
      Left(difference / SecondsPerDay, seconds / 3600, (seconds / 60) % 60)
  }

  /** As written, `calculate_time` says "Finished" with a whole day still to
      go, and reports an overdue stage as "-1 days 23 hours 59 minutes". */
  lemma CalculateTimeMisreports()
    ensures CalculateTime(SecondsPerDay, 0) == Finished && TimeLeft(SecondsPerDay, 0) == Left(1, 0, 0)
    ensures CalculateTime(0, 60) == Left(-1, 23, 59) && TimeLeft(0, 60) == Finished
  {
  }
}
