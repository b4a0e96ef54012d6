/** The catalog router: the active model of each tier, its failure streak, and the committed
    snapshot (`CatalogRouter` in catalog.rs). */
module Router {
  import opened Basics
  import opened Tiers
  import opened Catalog

  datatype RouterState = RouterState(snapshot: Snapshot, active: map<Tier, string>, failures: map<Tier, nat>)

  /** The pinned model of every pinned tier. */
  function PinnedModels(pins: Pins): map<Tier, string>
  {
    map t <- pins :: pins[t].model
  }

  /** The state a snapshot starts from, at load and at commit: its pins active, no streaks. */
  function Fresh(snapshot: Snapshot): RouterState
  {
    RouterState(snapshot, PinnedModels(snapshot.pins), map[])
  }

  function FailureCount(failures: map<Tier, nat>, tier: Tier): nat
  {
    if tier in failures then failures[tier] else 0
  }

  function IndexOf(list: seq<string>, x: string): Option<nat>
  {
    if list == [] then None
    else if list[0] == x then Some(0)
    else match IndexOf(list[1..], x) case None => None case Some(i) => Some(i + 1)
  }

  function SuccessStep(st: RouterState, tier: Tier, model: string): RouterState
  {
    if Lookup(st.active, tier) == Some(model) then st.(failures := st.failures - {tier}) else st
  }

  /** The position of the active model in its own failover list. */
  function Position(st: RouterState, tier: Tier): Option<nat>
  {
    if tier in st.active && tier in st.snapshot.pins
    then IndexOf(st.snapshot.pins[tier].candidates, st.active[tier]) else None
  }

  /** The candidate behind the active one, if both exist. */
  function Successor(st: RouterState, tier: Tier): Option<string>
  {
    match Position(st, tier)
    case None => None
    case Some(p) =>
      var candidates := st.snapshot.pins[tier].candidates;
      if p + 1 < |candidates| then Some(candidates[p + 1]) else None
  }

  function AtLeastOne(threshold: nat): nat
  {
    if threshold == 0 then 1 else threshold
  }

  /** The streak after one more failure; the counter is 32 bits wide. */
  function NextCount(failures: map<Tier, nat>, tier: Tier): nat
  {
    (FailureCount(failures, tier) + 1) % U32
  }

  function FailureStep(st: RouterState, tier: Tier, model: string, threshold: nat): RouterState
  {
    if Lookup(st.active, tier) != Some(model) then st
    else if NextCount(st.failures, tier) < AtLeastOne(threshold) then
      st.(failures := st.failures[tier := NextCount(st.failures, tier)])
    else if Position(st, tier).None? then
      st.(failures := st.failures[tier := 0])
    else if Successor(st, tier).None? then
      st.(failures := st.failures[tier := NextCount(st.failures, tier)])
    else
      st.(active := st.active[tier := Successor(st, tier).value], failures := st.failures[tier := 0])
  }

  /** The new active model, when this failure promotes one. */
  function Promotion(st: RouterState, tier: Tier, model: string, threshold: nat): Option<string>
  {
    if Lookup(st.active, tier) == Some(model) && NextCount(st.failures, tier) >= AtLeastOne(threshold)
    then Successor(st, tier) else None
  }

  /** A tier, its previous pin ("" for none) and its new one. */
  datatype PinChange = PinChange(tier: Tier, from: string, to: string)

  /** The migrations a commit reports, in tier order. */
  function PinChanges(tiers: seq<Tier>, before: Pins, after: Pins): seq<PinChange>
  {
    if tiers == [] then []
    else
      var t := Last(tiers);
      PinChanges(DropLast(tiers), before, after)
      + if t in after && Lookup(PinnedModels(before), t) != Some(after[t].model)
        then [PinChange(t, if t in before then before[t].model else "", after[t].model)] else []
  }

  lemma TierOfRank(i: nat)
    requires i < |ALL_TIERS|
    ensures Rank(ALL_TIERS[i]) == i
    ensures forall t :: Rank(t) == i <==> t == ALL_TIERS[i]
    ensures ALL_TIERS[..i + 1] == ALL_TIERS[..i] + [ALL_TIERS[i]]
  {
    assert i == 0 || i == 1 || i == 2 || i == 3 || i == 4;
  }

  lemma SameLookupSameMap<V>(a: map<Tier, V>, b: map<Tier, V>)
    requires forall t :: Rank(t) < |ALL_TIERS| ==> Lookup(a, t) == Lookup(b, t)
    ensures a == b
  {
    forall t: Tier
      ensures t in a <==> t in b
      ensures t in a ==> a[t] == b[t]
    {
      assert Lookup(a, t) == Lookup(b, t);
    }
  }

  /** A tier with no viable candidate keeps its previous pin. */
  method FillEmptyTiers(pins: Pins, previous: Pins) returns (filled: Pins)
    ensures filled == CarryPins(pins, previous)
  {
    filled := pins;
    for i := 0 to |ALL_TIERS|
      invariant forall t :: Lookup(filled, t) == Lookup(if Rank(t) < i then CarryPins(pins, previous) else pins, t)
    {
      TierOfRank(i);
      var tier := ALL_TIERS[i];
      assert Lookup(filled, tier) == Lookup(pins, tier);
      if tier in previous && tier !in filled {
        filled := filled[tier := previous[tier]];
      }
    }
    SameLookupSameMap(filled, CarryPins(pins, previous));
  }

  // ----- start-up ---------------------------------------------------------------------------------

  /** Model to tier, the last of the tiers that share a model. */
  function SeedTiers(tiers: seq<Tier>, routes: map<Tier, string>): map<string, Tier>
  {
    if tiers == [] then map[]
    else
      var rest := SeedTiers(DropLast(tiers), routes);
      if Last(tiers) in routes then rest[routes[Last(tiers)] := Last(tiers)] else rest
  }

  /** The first snapshot, pinning every tier to its configured model. */
  function SeedFromConfig(routes: map<Tier, string>, seedTiers: bool): Snapshot
  {
    Snapshot(None, "seed", map t <- routes :: TierPin(routes[t], [routes[t]]),
      if seedTiers then SeedTiers(ALL_TIERS, routes) else map[], 0, 0)
  }

  /** What a failure report returns is the promotion it made: the new active model, or nothing if none moved. */
  lemma PromotionIsTheMove(st: RouterState, tier: Tier, model: string, threshold: nat)
    ensures var promoted, after := Promotion(st, tier, model, threshold), FailureStep(st, tier, model, threshold);
      (promoted.Some? ==> after.active == st.active[tier := promoted.value])
      && (promoted.None? ==> after.active == st.active)
  {
    hide IndexOf;
  }

  /** A router that starts or commits routes every pinned tier to its pin, no other tier, and has counted nothing. */
  lemma FreshRoutesToPins(snapshot: Snapshot, t: Tier)
    ensures var st := Fresh(snapshot);
      (t in st.active <==> t in snapshot.pins) && (t in snapshot.pins ==> st.active[t] == snapshot.pins[t].model)
      && t !in st.failures && st.snapshot == snapshot
  {
  }

  /** The migrations reported are exactly the tiers whose pinned model is new, each with what it was before. */
  lemma {:induction false} PinChangesMeaning(tiers: seq<Tier>, before: Pins, after: Pins, c: PinChange)
    ensures c in PinChanges(tiers, before, after) <==>
      c.tier in tiers && c.tier in after && c.to == after[c.tier].model
      && (c.tier in before ==> c.from == before[c.tier].model && c.from != c.to)
      && (c.tier !in before ==> c.from == "")
  {
    if tiers != [] {
      PinChangesMeaning(DropLast(tiers), before, after, c);
      assert tiers == DropLast(tiers) + [Last(tiers)];
    }
  }

  /** The seed pins every configured tier to its own model, with no one to fail over to. */
  lemma SeedPinsConfiguredModels(routes: map<Tier, string>, seedTiers: bool, t: Tier)
    ensures var pins := SeedFromConfig(routes, seedTiers).pins;
      (t in pins <==> t in routes) && (t in routes ==> pins[t] == TierPin(routes[t], [routes[t]]))
  {
  }

  /** A model configured for several tiers is seeded with the highest of them. */
  lemma {:induction false} SeedTiersAreHighest(n: nat, routes: map<Tier, string>, t: Tier)
    requires n <= |ALL_TIERS| && t in routes && Rank(t) < n
    ensures var seeded := SeedTiers(ALL_TIERS[..n], routes);
      routes[t] in seeded
      && var u := seeded[routes[t]];
      u in routes && routes[u] == routes[t] && Rank(t) <= Rank(u) < n
  {
    TierOfRank(n - 1);
    assert DropLast(ALL_TIERS[..n]) == ALL_TIERS[..n - 1] && Last(ALL_TIERS[..n]) == ALL_TIERS[n - 1];
    if Rank(t) < n - 1 {
      SeedTiersAreHighest(n - 1, routes, t);
    }
  }

  class CatalogRouter {
    var snapshot: Snapshot
    var active: map<Tier, string>
    var failures: map<Tier, nat>
    /** The snapshot file; absent before the first commit. */
    var disk: Option<Snapshot>

    ghost function State(): RouterState
      reads this
    {
      RouterState(snapshot, active, failures)
    }

    /** Resumes the persisted snapshot, else seeds from the configuration; `stored` is what the file
        decodes to, if anything. */
    constructor LoadOrSeed(stored: Option<Snapshot>, routes: map<Tier, string>, seedTiers: bool)
      ensures State() == Fresh(if stored.Some? then stored.value else SeedFromConfig(routes, seedTiers))
      ensures disk == stored
    {
      var loaded := if stored.Some? then stored.value else SeedFromConfig(routes, seedTiers);
      snapshot := loaded;
      active := map t <- loaded.pins :: loaded.pins[t].model;
      failures := map[];
      disk := stored;
    }

    method ActiveModel(tier: Tier) returns (model: Option<string>)
      ensures model == Lookup(State().active, tier)
    {
      model := if tier in active then Some(active[tier]) else None;
    }

    method ReportSuccess(tier: Tier, model: string)
      modifies this`failures
      ensures State() == SuccessStep(old(State()), tier, model)
    {
      if tier in active && active[tier] == model {
        failures := failures - {tier};
      }
    }

    method ReportFailure(tier: Tier, model: string, threshold: nat) returns (promoted: Option<string>)
      modifies this`failures, this`active
      ensures State() == FailureStep(old(State()), tier, model, threshold)
      ensures promoted == Promotion(old(State()), tier, model, threshold)
    {
      hide IndexOf;
      hide NextCount;
      hide AtLeastOne;
      ghost var st := State();
      if !(tier in active && active[tier] == model) {
        return None;
      }
      var count := NextCount(failures, tier);
      failures := failures[tier := count];
      if count < AtLeastOne(threshold) {
        return None;
      }
      var position := if tier in snapshot.pins then IndexOf(snapshot.pins[tier].candidates, model) else None;
      assert position == Position(st, tier);
      hide Position;
      if position.None? {
        failures := failures[tier := 0];
        assert failures == st.failures[tier := 0];
        return None;
      }
      var candidates := snapshot.pins[tier].candidates;
      if position.value + 1 >= |candidates| {
        return None;
      }
      var next := candidates[position.value + 1];
      active := active[tier := next];
      failures := failures[tier := 0];
      assert failures == st.failures[tier := 0] && Successor(st, tier) == Some(next);
      return Some(next);
    }

    /** Makes the pins of `tiers` active again and reports the pins that moved. */
    method ActivatePins(tiers: seq<Tier>, before: Pins, after: Pins) returns (changed: seq<PinChange>)
      modifies this`active
      ensures forall t <- tiers :: Lookup(active, t) == Lookup(PinnedModels(after), t)
      ensures changed == PinChanges(tiers, before, after)
    {
      changed := [];
      for i := 0 to |tiers|
        invariant changed == PinChanges(tiers[..i], before, after)
        invariant forall t <- tiers[..i] :: Lookup(active, t) == Lookup(PinnedModels(after), t)
      {
        var tier := tiers[i];
        assert DropLast(tiers[..i + 1]) == tiers[..i];
        var was := if tier in before then Some(before[tier].model) else None;
        if tier in after {
          if was != Some(after[tier].model) {
            changed := changed + [PinChange(tier, if was.Some? then was.value else "", after[tier].model)];
          }
          active := active[tier := after[tier].model];
        } else {
          active := active - {tier};
        }
      }
      assert tiers[..|tiers|] == tiers;
    }

    /** Persists first, then swaps: a failed write changes nothing. */
    method Commit(next: Snapshot, writeSucceeds: bool) returns (changed: Option<seq<PinChange>>)
      modifies this
      ensures !writeSucceeds ==> changed.None? && State() == old(State()) && disk == old(disk)
      ensures writeSucceeds ==> State() == Fresh(next) && disk == Some(next)
      ensures writeSucceeds ==> changed == Some(PinChanges(ALL_TIERS, old(snapshot).pins, next.pins))
    {
      if !writeSucceeds {
        return None;
      }
      disk := Some(next);
      var list := ActivatePins(ALL_TIERS, snapshot.pins, next.pins);
      forall t
        ensures Lookup(active, t) == Lookup(PinnedModels(next.pins), t)
      {
        assert t == ALL_TIERS[Rank(t)];
      }
      SameLookupSameMap(active, PinnedModels(next.pins));
      failures := map[];
      snapshot := next;
      return Some(list);
    }

    /** One uninterrupted refresh; `fetched` is the parsed catalog, if the provider answered. */
    method Refresh(fetched: Option<seq<CatalogModel>>, routing: Routing, now: nat, writeSucceeds: bool)
      returns (changed: Option<seq<PinChange>>)
      modifies this
      ensures changed.Some? <==> fetched.Some? && fetched.value != [] && writeSucceeds
      ensures changed.None? ==> State() == old(State()) && disk == old(disk)
      ensures changed.Some? ==>
        var pins := old(snapshot).pins;
        var next := RefreshSnapshot(fetched.value, routing, pins, pins, now);
        State() == Fresh(next) && disk == Some(next)
        && changed.value == PinChanges(ALL_TIERS, pins, next.pins)
    {
      if fetched.None? || fetched.value == [] {
        return None;
      }
      var models := fetched.value;
      var next := ComputePartition(models, routing, snapshot.pins);
      var pins := FillEmptyTiers(next.pins, snapshot.pins);
      next := next.(fetchedAt := Some(now), pins := RetainListed(pins, next.modelTiers));
      changed := Commit(next, writeSucceeds);
    }
  }
}
