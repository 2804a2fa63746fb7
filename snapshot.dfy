/** The in-memory snapshot of config.json: the vessels, the batches and bottled
    stock, the sentinel ids that link a batch to a vessel, and the consistency
    invariant every committed snapshot keeps. */
module Snapshot {

  datatype Option<T> = None | Some(value: T)

  /** The three beers the brewery makes. The per-recipe dictionaries are
      pre-initialised with exactly these keys, so any other recipe would fail
      with a KeyError; the type admits only these. */
  datatype Recipe = RedHelles | Dunkel | Pilsner

  /** The `state` string of a batch, in production order:
      "hot brew", "fermentation", "conditioning", "bottling", "bottled". */
  datatype Stage = HotBrew | Fermentation | Conditioning | Bottling | Bottled

  /** The `finish` field of a vessel: the string "-1" once the vessel is
      released, the empty string the bottling step passes along, or a
      "%Y-%m-%d" date, given here as a day number. */
  datatype Finish = Released | Blank | Date(day: int)

  /** One entry of `containers`. `id` is the vessel's fixed tag: a batch whose
      `id` equals it is the batch in that vessel. */
  datatype Container = Container(
    id: int,
    volume: int,
    fermenter: bool,
    conditioner: bool,
    occupied: bool,
    finish: Finish)

  /** One entry of `inventory`: a batch in production or bottled stock. */
  datatype Batch = Batch(id: int, gyle: int, state: Stage, volume: int, recipe: Recipe)

  /** `id` of a freshly created hot-brew batch. */
  const NewBatchTag := 0
  /** `id` of a batch waiting to be bottled. */
  const BottlingTag := 10
  /** `id` of bottled stock. */
  const BottledTag := -1
  /** The selection string that sends a batch to bottling instead of a vessel. */
  const BottlingSelection := "bottling"

  /** `containers`: vessel name to vessel. */
  type Vessels = map<string, Container>
  /** `inventory`, keyed by gyle number (the JSON keys are str(gyle)). */
  type Inventory = map<int, Batch>

  /** Configuration assumptions about the vessels: ids are positive, never the
      bottling marker, pairwise distinct, and no vessel is named "bottling". */
  ghost predicate WellFormedVessels(cs: Vessels) {
    && BottlingSelection !in cs
    && (forall n :: n in cs ==> cs[n].id > 0 && cs[n].id != BottlingTag)
    && (forall n, m :: n in cs && m in cs && cs[n].id == cs[m].id ==> n == m)
  }

  /** The batch is tied to some vessel: it carries that vessel's id. */
  ghost predicate InVessel(b: Batch, cs: Vessels) {
    exists n :: n in cs && cs[n].id == b.id
  }

  /** The sentinel a batch carries matches its stage: 0 in the hot brew, a
      vessel's id while fermenting or conditioning, 10 while bottling and -1
      once bottled. */
  ghost predicate Tagged(b: Batch, cs: Vessels) {
    match b.state
    case HotBrew => b.id == NewBatchTag
    case Fermentation => InVessel(b, cs)
    case Conditioning => InVessel(b, cs)
    case Bottling => b.id == BottlingTag
    case Bottled => b.id == BottledTag
  }

  /** A vessel is occupied exactly when its finish is a deadline date: a
      release writes "-1", an occupation writes the stage's deadline. */
  ghost predicate DeadlinesMatch(cs: Vessels) {
    forall n :: n in cs ==> (cs[n].occupied <==> cs[n].finish.Date?)
  }

  /** The invariant of a committed snapshot: every entry is stored under its own
      gyle number and tagged for its stage, a vessel is occupied exactly when
      some batch is tied to it and exactly when it has a deadline date, and no
      vessel is tied to two different batches. */
  ghost predicate Consistent(cs: Vessels, inv: Inventory) {
    && WellFormedVessels(cs)
    && (forall g :: g in inv ==> inv[g].gyle == g && Tagged(inv[g], cs))
    && (forall g, n :: g in inv && n in cs && inv[g].id == cs[n].id ==> cs[n].occupied)
    && (forall n :: n in cs && cs[n].occupied ==> exists g :: g in inv && inv[g].id == cs[n].id)
    && DeadlinesMatch(cs)
    && (forall g, h, n :: g in inv && h in inv && n in cs && inv[g].id == cs[n].id && inv[h].id == cs[n].id ==> g == h)
  }

  /** Two vessel maps name the same vessels with the same ids. */
  ghost predicate SameIds(cs: Vessels, cs': Vessels) {
    cs'.Keys == cs.Keys && forall n :: n in cs' ==> cs'[n].id == cs[n].id
  }

  lemma SameIdsKeepWellFormed(cs: Vessels, cs': Vessels)
    requires SameIds(cs, cs') && WellFormedVessels(cs)
    ensures WellFormedVessels(cs')
  {
  }

  lemma SameIdsKeepTagged(cs: Vessels, cs': Vessels, b: Batch)
    requires SameIds(cs, cs') && Tagged(b, cs)
    ensures Tagged(b, cs')
  {
  }

  /** Bottles of recipe `r` one inventory entry contributes: `volume // 0.5`,
      two per litre, counted only for bottled stock when `bottledOnly`. */
  function BottlesOf(b: Batch, r: Recipe, bottledOnly: bool): int {
    if b.recipe == r && (!bottledOnly || b.id == BottledTag) then 2 * b.volume else 0
  }

  /** A non-empty set of gyle numbers has a member to visit first. */
  lemma HasMember(keys: set<int>)
    requires keys != {}
    ensures exists k :: k in keys
  {
    if forall k :: k !in keys { assert false; }
  }

  /** A non-empty set of vessel names has a member to visit first. */
  lemma HasName(names: set<string>)
    requires names != {}
    ensures exists n :: n in names
  {
  }

  /** The bottles of recipe `r` over the entries under `keys`. */
  ghost function Total(inv: Inventory, keys: set<int>, r: Recipe, bottledOnly: bool): int
    requires keys <= inv.Keys
    decreases keys
  {
    if keys == {} then 0
    else
      HasMember(keys);
      var k :| k in keys;
      BottlesOf(inv[k], r, bottledOnly) + Total(inv, keys - {k}, r, bottledOnly)
  }

  /** The total does not depend on the order in which entries are visited:
      any one entry can be taken out first. */
  lemma {:induction false} TotalRemove(inv: Inventory, keys: set<int>, k: int, r: Recipe, bottledOnly: bool)
    requires keys <= inv.Keys && k in keys
    ensures Total(inv, keys, r, bottledOnly) == BottlesOf(inv[k], r, bottledOnly) + Total(inv, keys - {k}, r, bottledOnly)
    decreases keys
  {
    HasMember(keys);
    var j :| j in keys && Total(inv, keys, r, bottledOnly) == BottlesOf(inv[j], r, bottledOnly) + Total(inv, keys - {j}, r, bottledOnly);
    if j != k {
      TotalRemove(inv, keys - {j}, k, r, bottledOnly);
      TotalRemove(inv, keys - {k}, j, r, bottledOnly);
      assert keys - {j} - {k} == keys - {k} - {j};
    }
  }

  /** The total only reads the entries under `keys`. */
  lemma {:induction false} TotalFrame(inv: Inventory, inv': Inventory, keys: set<int>, r: Recipe, bottledOnly: bool)
    requires keys <= inv.Keys && keys <= inv'.Keys
    requires forall k :: k in keys ==> inv[k] == inv'[k]
    ensures Total(inv, keys, r, bottledOnly) == Total(inv', keys, r, bottledOnly)
    decreases keys
  {
    if keys != {} {
      HasMember(keys);
      var k :| k in keys;
      TotalRemove(inv, keys, k, r, bottledOnly);
      TotalRemove(inv', keys, k, r, bottledOnly);
      TotalFrame(inv, inv', keys - {k}, r, bottledOnly);
    }
  }
}
