/** The catalog split: price bands, candidate filters, sticky pins and failover lists
    (`partition` and its helpers in catalog.rs). */
module Catalog {
  import opened Basics
  import opened Tiers
  import opened Sorting

  /** Cap on the failover candidates of a tier. */
  const MAX_CANDIDATES := 20

  datatype CatalogModel = CatalogModel(
    id: string, contextLength: nat, inputPrice: real, tools: bool, reasoning: bool, textOutput: bool)

  /** Inclusive price maxima of the tiers. */
  datatype Bands = Bands(trivialMax: real, simpleMax: real, standardMax: real, hardMax: real, reasoningMax: real)

  datatype Filters = Filters(
    requireTools: bool, minContext: nat, allowFree: bool, denyPrefixes: seq<string>, preferReasoningPin: bool)

  datatype Routing = Routing(bands: Bands, filters: Filters, switchSavingRatio: real)

  datatype TierPin = TierPin(model: string, candidates: seq<string>)

  type Pins = map<Tier, TierPin>

  datatype Snapshot = Snapshot(
    fetchedAt: Option<nat>, source: string, pins: Pins, modelTiers: map<string, Tier>,
    totalModels: nat, unrankedModels: nat)

  // ----- bands, filters and the order of a pool -------------------------------------------

  function BandTier(price: real, bands: Bands): Tier
  {
    if price <= bands.trivialMax then Trivial
    else if price <= bands.simpleMax then Simple
    else if price <= bands.standardMax then Standard
    else if price <= bands.hardMax then Hard
    else Reasoning
  }

  predicate EndsWith(s: string, suffix: string)
  {
    |suffix| <= |s| && s[|s| - |suffix|..] == suffix
  }

  predicate PassesFilters(model: CatalogModel, filters: Filters)
  {
    var isFree := model.inputPrice <= 0.0 || EndsWith(model.id, ":free");
    model.textOutput
    && !(filters.requireTools && !model.tools)
    && !(model.contextLength < filters.minContext)
    && !(isFree && !filters.allowFree)
    && !(exists prefix <- filters.denyPrefixes :: prefix <= model.id)
  }

  function InPool(routing: Routing, tier: Tier): CatalogModel -> bool
  {
    m => PassesFilters(m, routing.filters) && BandTier(m.inputPrice, routing.bands) == tier
  }

  function Unranked(routing: Routing): CatalogModel -> bool
  {
    m => !PassesFilters(m, routing.filters)
  }

  /** Cheaper, or equally cheap with the smaller id. */
  predicate Precedes(a: CatalogModel, b: CatalogModel)
  {
    a.inputPrice < b.inputPrice || (a.inputPrice == b.inputPrice && LexLess(a.id, b.id))
  }

  function PoolOrder(): (CatalogModel, CatalogModel) -> bool
  {
    (a: CatalogModel, b: CatalogModel) => !Precedes(b, a)
  }

  /** The candidates of a tier, cheapest first. */
  function Pool(models: seq<CatalogModel>, routing: Routing, tier: Tier): seq<CatalogModel>
  {
    Sort(Filter(models, InPool(routing, tier)), PoolOrder())
  }

  // ----- the pin and its failover list ------------------------------------------------------

  /** A model that cannot do the tier's job: non-reasoning where the filters ask for reasoning. */
  predicate IsDisqualified(tier: Tier, filters: Filters, model: CatalogModel)
  {
    tier == Reasoning && filters.preferReasoningPin && !model.reasoning
  }

  function Find(pool: seq<CatalogModel>, p: CatalogModel -> bool): Option<CatalogModel>
  {
    if pool == [] then None else if p(pool[0]) then Some(pool[0]) else Find(pool[1..], p)
  }

  function HasId(id: string): CatalogModel -> bool
  {
    (m: CatalogModel) => m.id == id
  }

  function IsReasoning(): CatalogModel -> bool
  {
    (m: CatalogModel) => m.reasoning
  }

  function PinChoice(pool: seq<CatalogModel>, tier: Tier, filters: Filters): CatalogModel
    requires pool != []
  {
    if tier == Reasoning && filters.preferReasoningPin then
      match Find(pool, IsReasoning())
      case Some(model) => model
      case None => pool[0]
    else pool[0]
  }

  /** Whether the best candidate saves enough over the kept pin to migrate to it. */
  predicate Migrates(kept: CatalogModel, best: CatalogModel, ratio: real)
  {
    best.id != kept.id && best.inputPrice <= kept.inputPrice * (1.0 - Max(ratio, 0.0))
  }

  function Chosen(pool: seq<CatalogModel>, tier: Tier, routing: Routing, previous: Option<TierPin>): CatalogModel
    requires pool != []
  {
    var best := PinChoice(pool, tier, routing.filters);
    match previous
    case None => best
    case Some(pin) =>
      match Find(pool, HasId(pin.model))
      case None => best
      case Some(kept) =>
        if IsDisqualified(tier, routing.filters, kept) || Migrates(kept, best, routing.switchSavingRatio)
        then best else kept
  }

  function Eligible(chosenId: string, tier: Tier, filters: Filters): CatalogModel -> bool
  {
    (m: CatalogModel) => m.id != chosenId && !IsDisqualified(tier, filters, m)
  }

  function Ids(models: seq<CatalogModel>): (ids: seq<string>)
    ensures |ids| == |models|
    ensures forall i :: 0 <= i < |ids| ==> ids[i] == models[i].id
  {
    seq(|models|, i requires 0 <= i < |models| => models[i].id)
  }

  function Take<T>(s: seq<T>, n: nat): seq<T>
  {
    if |s| <= n then s else s[..n]
  }

  /** The pin's failover targets: the cheapest eligible others, up to the cap. */
  function Successors(pool: seq<CatalogModel>, chosenId: string, tier: Tier, filters: Filters): seq<CatalogModel>
  {
    Take(Filter(pool, Eligible(chosenId, tier, filters)), MAX_CANDIDATES - 1)
  }

  function PinFor(pool: seq<CatalogModel>, tier: Tier, routing: Routing, previous: Option<TierPin>): TierPin
    requires pool != []
  {
    var chosen := Chosen(pool, tier, routing, previous);
    TierPin(chosen.id, [chosen.id] + Ids(Successors(pool, chosen.id, tier, routing.filters)))
  }

  function Lookup<K, V>(m: map<K, V>, k: K): Option<V>
  {
    if k in m then Some(m[k]) else None
  }

  // ----- the whole split -----------------------------------------------------------------------

  /** The full split; a repeated id takes the band of its last entry. */
  function ModelTiers(models: seq<CatalogModel>, bands: Bands): map<string, Tier>
  {
    if models == [] then map[]
    else ModelTiers(DropLast(models), bands)[Last(models).id := BandTier(Last(models).inputPrice, bands)]
  }

  function PinsFor(tiers: seq<Tier>, models: seq<CatalogModel>, routing: Routing, previous: Pins): Pins
  {
    map t <- tiers | Pool(models, routing, t) != [] ::
      PinFor(Pool(models, routing, t), t, routing, Lookup(previous, t))
  }

  function Partition(models: seq<CatalogModel>, routing: Routing, previous: Pins): Snapshot
  {
    Snapshot(None, "openrouter", PinsFor(ALL_TIERS, models, routing, previous), ModelTiers(models, routing.bands),
      |models|, |Filter(models, Unranked(routing))|)
  }

  /** A tier without candidates in this catalog keeps its previous pin. */
  function CarryPins(pins: Pins, previous: Pins): Pins
  {
    previous + pins
  }

  function IsListed(modelTiers: map<string, Tier>): string -> bool
  {
    (id: string) => id in modelTiers
  }

  /** Drops failover candidates the new catalog no longer lists; the pin itself stays. */
  function RetainListed(pins: Pins, modelTiers: map<string, Tier>): Pins
  {
    map t <- pins :: TierPin(pins[t].model, Filter(pins[t].candidates, IsListed(modelTiers)))
  }

  /** The pins a refresh commits: `held` are the pins given to `partition`, `carried` the ones
      read later, when empty tiers are filled in. */
  function RefreshedPins(models: seq<CatalogModel>, routing: Routing, held: Pins, carried: Pins): Pins
  {
    RetainListed(CarryPins(PinsFor(ALL_TIERS, models, routing, held), carried), ModelTiers(models, routing.bands))
  }

  function RefreshSnapshot(models: seq<CatalogModel>, routing: Routing, held: Pins, carried: Pins, now: nat): Snapshot
  {
    Partition(models, routing, held).(fetchedAt := Some(now), pins := RefreshedPins(models, routing, held, carried))
  }

  /** The candidate loop of one tier. */
  method CollectCandidates(pool: seq<CatalogModel>, chosen: CatalogModel, tier: Tier, filters: Filters)
    returns (candidates: seq<string>)
    ensures candidates == [chosen.id] + Ids(Successors(pool, chosen.id, tier, filters))
  {
    candidates := [chosen.id];
    ghost var eligible := Eligible(chosen.id, tier, filters);
    for i := 0 to |pool|
      invariant candidates == [chosen.id] + Ids(Filter(pool[..i], eligible))
      invariant |candidates| <= MAX_CANDIDATES
    {
      if |candidates| >= MAX_CANDIDATES {
        TakeEarly(pool, i, eligible);
        return;
      }
      assert DropLast(pool[..i + 1]) == pool[..i];
      if pool[i].id == chosen.id {
        continue;
      }
      if IsDisqualified(tier, filters, pool[i]) {
        continue;
      }
      candidates := candidates + [pool[i].id];
    }
    assert pool[..|pool|] == pool;
  }

  /** Once a prefix of the pool fills the list, the rest does not matter. */
  lemma TakeEarly(pool: seq<CatalogModel>, i: nat, p: CatalogModel -> bool)
    requires i <= |pool|
    ensures var taken := Filter(pool[..i], p); Take(Filter(pool, p), |taken|) == taken
  {
    FilterConcat(pool[..i], pool[i..], p);
    assert pool[..i] + pool[i..] == pool;
  }

  /** The pin of one tier, by the same branches as the gateway. */
  method ChooseModel(pool: seq<CatalogModel>, tier: Tier, routing: Routing, previousPins: Pins)
    returns (chosen: CatalogModel)
    requires pool != []
    ensures chosen == Chosen(pool, tier, routing, Lookup(previousPins, tier))
  {
    chosen := PinChoice(pool, tier, routing.filters);
    if tier in previousPins {
      var previous := previousPins[tier];
      var found := Find(pool, HasId(previous.model));
      if found.Some? {
        FindMeaning(pool, HasId(previous.model));
        var kept, best := found.value, chosen;
        var migrates := best.id != previous.model
          && best.inputPrice <= kept.inputPrice * (1.0 - Max(routing.switchSavingRatio, 0.0));
        if !(IsDisqualified(tier, routing.filters, kept) || migrates) {
          chosen := kept;
        }
      }
    }
  }

  function EntryOf(pools: map<Tier, seq<CatalogModel>>, tier: Tier): seq<CatalogModel>
  {
    if tier in pools then pools[tier] else []
  }

  /** The banding loop: the full split, the filtered pools and the count of filtered-out models. */
  method FillPools(models: seq<CatalogModel>, routing: Routing)
    returns (modelTiers: map<string, Tier>, pools: map<Tier, seq<CatalogModel>>, unranked: nat)
    ensures modelTiers == ModelTiers(models, routing.bands)
    ensures forall t :: EntryOf(pools, t) == Filter(models, InPool(routing, t))
    ensures unranked == |Filter(models, Unranked(routing))|
  {
    modelTiers, pools, unranked := map[], map[], 0;
    for i := 0 to |models|
      invariant modelTiers == ModelTiers(models[..i], routing.bands)
      invariant forall t :: EntryOf(pools, t) == Filter(models[..i], InPool(routing, t))
      invariant unranked == |Filter(models[..i], Unranked(routing))|
    {
      assert DropLast(models[..i + 1]) == models[..i];
      var tier := BandTier(models[i].inputPrice, routing.bands);
      modelTiers := modelTiers[models[i].id := tier];
      if PassesFilters(models[i], routing.filters) {
        pools := pools[tier := EntryOf(pools, tier) + [models[i]]];
      } else {
        unranked := unranked + 1;
      }
    }
    assert models[..|models|] == models;
  }

  lemma PinsForStep(tiers: seq<Tier>, t: Tier, models: seq<CatalogModel>, routing: Routing, previous: Pins)
    ensures Pool(models, routing, t) == [] ==>
      PinsFor(tiers + [t], models, routing, previous) == PinsFor(tiers, models, routing, previous)
    ensures Pool(models, routing, t) != [] ==>
      PinsFor(tiers + [t], models, routing, previous)
      == PinsFor(tiers, models, routing, previous)[t := PinFor(Pool(models, routing, t), t, routing, Lookup(previous, t))]
  {
    hide PinFor;
    hide Pool;
  }

  /** The pinning loop over the tiers. */
  method PinTiers(tiers: seq<Tier>, pools: map<Tier, seq<CatalogModel>>,
      ghost models: seq<CatalogModel>, routing: Routing, previousPins: Pins)
    returns (pins: Pins)
    requires forall t :: EntryOf(pools, t) == Filter(models, InPool(routing, t))
    ensures pins == PinsFor(tiers, models, routing, previousPins)
  {
    pins := map[];
    for i := 0 to |tiers|
      invariant pins == PinsFor(tiers[..i], models, routing, previousPins)
    {
      var tier := tiers[i];
      var pool := Sort(EntryOf(pools, tier), PoolOrder());
      assert pool == Pool(models, routing, tier);
      hide *;
      assert tiers[..i + 1] == tiers[..i] + [tier];
      PinsForStep(tiers[..i], tier, models, routing, previousPins);
      if pool != [] {
        var pin := ComputePin(pool, tier, routing, previousPins);
        pins := pins[tier := pin];
      }
    }
    assert tiers[..|tiers|] == tiers;
  }

  method ComputePartition(models: seq<CatalogModel>, routing: Routing, previousPins: Pins)
    returns (snapshot: Snapshot)
    ensures snapshot == Partition(models, routing, previousPins)
  {
    var modelTiers, pools, unranked := FillPools(models, routing);
    var pins := PinTiers(ALL_TIERS, pools, models, routing, previousPins);
    snapshot := Snapshot(None, "openrouter", pins, modelTiers, |models|, unranked);
  }

  method ComputePin(pool: seq<CatalogModel>, tier: Tier, routing: Routing, previousPins: Pins)
    returns (pin: TierPin)
    requires pool != []
    ensures pin == PinFor(pool, tier, routing, Lookup(previousPins, tier))
  {
    var chosen := ChooseModel(pool, tier, routing, previousPins);
    var candidates := CollectCandidates(pool, chosen, tier, routing.filters);
    pin := TierPin(chosen.id, candidates);
  }

  // ----- what the pieces mean --------------------------------------------------------------------

  lemma {:induction false} FindMeaning(pool: seq<CatalogModel>, p: CatalogModel -> bool)
    ensures Find(pool, p).None? <==> forall m <- pool :: !p(m)
    ensures Find(pool, p).Some? ==>
      exists i :: 0 <= i < |pool| && pool[i] == Find(pool, p).value && p(pool[i])
        && forall j :: 0 <= j < i ==> !p(pool[j])
  {
    if pool != [] {
      FindMeaning(pool[1..], p);
      assert pool == [pool[0]] + pool[1..];
      if !p(pool[0]) && Find(pool[1..], p).Some? {
        var i :| 0 <= i < |pool| - 1 && pool[1..][i] == Find(pool[1..], p).value && p(pool[1..][i])
          && forall j :: 0 <= j < i ==> !p(pool[1..][j]);
        assert pool[i + 1] == Find(pool, p).value;
        assert forall j :: 0 <= j < i + 1 ==> j == 0 || pool[j] == pool[1..][j - 1];
      }
    }
  }
}
