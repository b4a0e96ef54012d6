/** What the catalog split guarantees: nothing is lost, tiers are separated by price, failover lists
    are in order, and pins are sticky. */
module CatalogProperties {
  import opened Basics
  import opened Tiers
  import opened Sorting
  import opened Catalog

  // ----- bands ----------------------------------------------------------------------------------

  /** The ordering the configuration validator demands. */
  predicate BandsIncrease(b: Bands)
  {
    0.0 < b.trivialMax < b.simpleMax < b.standardMax < b.hardMax < b.reasoningMax
  }

  function UpperBound(t: Tier, b: Bands): Option<real>
  {
    match t
    case Trivial => Some(b.trivialMax)
    case Simple => Some(b.simpleMax)
    case Standard => Some(b.standardMax)
    case Hard => Some(b.hardMax)
    case Reasoning => None
  }

  function LowerBound(t: Tier, b: Bands): Option<real>
  {
    if t == Trivial then None else UpperBound(ALL_TIERS[Rank(t) - 1], b)
  }

  /** A price is in a band exactly between the previous maximum (exclusive) and its own (inclusive). */
  lemma BandTierIsInterval(price: real, b: Bands, t: Tier)
    requires BandsIncrease(b)
    ensures BandTier(price, b) == t <==>
      (LowerBound(t, b).Some? ==> LowerBound(t, b).value < price)
      && (UpperBound(t, b).Some? ==> price <= UpperBound(t, b).value)
  {
  }

  /** Lower tiers are strictly cheaper, whatever the band limits are. */
  lemma LowerTierIsCheaper(p: real, q: real, b: Bands)
    requires Rank(BandTier(p, b)) < Rank(BandTier(q, b))
    ensures p < q
  {
  }

  // ----- order and identity inside a pool ---------------------------------------------------------

  ghost predicate UniqueIds(models: seq<CatalogModel>)
  {
    forall i, j :: 0 <= i < j < |models| ==> models[i].id != models[j].id
  }

  lemma PoolOrderIsTotal()
    ensures IsTotalPreorder(PoolOrder())
  {
    var le := PoolOrder();
    forall a, b
      ensures le(a, b) || le(b, a)
    {
      PrecedesAsymmetric(a, b);
    }
    forall a, b, c | le(a, b) && le(b, c)
      ensures le(a, c)
    {
      PrecedesTransits(a, b, c);
    }
  }

  lemma PrecedesAsymmetric(a: CatalogModel, b: CatalogModel)
    ensures !(Precedes(a, b) && Precedes(b, a))
    ensures a.id != b.id ==> Precedes(a, b) || Precedes(b, a)
  {
    LexLessTotal(a.id, b.id);
    if LexLess(a.id, b.id) && LexLess(b.id, a.id) {
      LexLessTransitive(a.id, b.id, a.id);
      LexLessIrreflexive(a.id);
    }
  }

  lemma PrecedesTransits(a: CatalogModel, b: CatalogModel, c: CatalogModel)
    requires !Precedes(b, a) && !Precedes(c, b)
    ensures !Precedes(c, a)
  {
    if Precedes(c, a) && a.inputPrice == b.inputPrice == c.inputPrice {
      LexLessTotal(b.id, a.id);
      if a.id != b.id {
        LexLessTransitive(c.id, a.id, b.id);
      }
    }
  }

  lemma {:induction false} FilterKeepsOrder<T(!new)>(s: seq<T>, p: T -> bool, le: (T, T) -> bool)
    requires IsSorted(s, le)
    ensures IsSorted(Filter(s, p), le)
  {
    if s != [] {
      FilterKeepsOrder(DropLast(s), p, le);
      FilterMembers(DropLast(s), p);
      var kept := Filter(DropLast(s), p);
      forall i | 0 <= i < |kept|
        ensures le(kept[i], Last(s))
      {
        assert kept[i] in kept;
        assert kept[i] in DropLast(s);
        var k :| 0 <= k < |s| - 1 && s[k] == kept[i];
      }
    }
  }

  lemma {:induction false} FilterKeepsUnique(s: seq<CatalogModel>, p: CatalogModel -> bool)
    requires UniqueIds(s)
    ensures UniqueIds(Filter(s, p))
  {
    if s != [] {
      FilterKeepsUnique(DropLast(s), p);
      FilterMembers(DropLast(s), p);
      var kept := Filter(DropLast(s), p);
      forall i | 0 <= i < |kept|
        ensures kept[i].id != Last(s).id
      {
        assert kept[i] in kept;
        assert kept[i] in DropLast(s);
        var k :| 0 <= k < |s| - 1 && s[k] == kept[i];
      }
    }
  }

  lemma {:induction false} InsertKeepsUnique(s: seq<CatalogModel>, x: CatalogModel)
    requires UniqueIds(s) && forall m <- s :: m.id != x.id
    ensures UniqueIds(Insert(s, x, PoolOrder()))
  {
    if s != [] && !PoolOrder()(Last(s), x) {
      var rest := Insert(DropLast(s), x, PoolOrder());
      InsertKeepsUnique(DropLast(s), x);
      InsertMembers(DropLast(s), x, PoolOrder());
      forall i | 0 <= i < |rest|
        ensures rest[i].id != Last(s).id
      {
        assert rest[i] in rest;
        if rest[i] != x {
          var k :| 0 <= k < |s| - 1 && s[k] == rest[i];
        }
      }
    }
  }

  lemma {:induction false} SortKeepsUnique(s: seq<CatalogModel>)
    requires UniqueIds(s)
    ensures UniqueIds(Sort(s, PoolOrder()))
  {
    if s != [] {
      SortKeepsUnique(DropLast(s));
      SortKeepsMembers(DropLast(s), PoolOrder());
      InsertKeepsUnique(Sort(DropLast(s), PoolOrder()), Last(s));
    }
  }

  lemma PoolMeaning(models: seq<CatalogModel>, routing: Routing, t: Tier)
    ensures var pool := Pool(models, routing, t);
      |pool| == |Filter(models, InPool(routing, t))|
      && IsSorted(pool, PoolOrder())
      && (forall i, j :: 0 <= i < j < |pool| ==> pool[i].inputPrice <= pool[j].inputPrice)
      && (UniqueIds(models) ==> UniqueIds(pool))
      && forall m :: m in pool <==>
        m in models && PassesFilters(m, routing.filters) && BandTier(m.inputPrice, routing.bands) == t
  {
    var kept := Filter(models, InPool(routing, t));
    FilterMembers(models, InPool(routing, t));
    SortKeepsMembers(kept, PoolOrder());
    PoolOrderIsTotal();
    SortIsSorted(kept, PoolOrder());
    if UniqueIds(models) {
      FilterKeepsUnique(models, InPool(routing, t));
      SortKeepsUnique(kept);
    }
  }

  // ----- nothing is lost ---------------------------------------------------------------------------

  /** Every model is in exactly one pool or is counted as unranked. */
  lemma {:induction false} PoolsAndUnrankedAddUp(models: seq<CatalogModel>, routing: Routing)
    ensures |Filter(models, InPool(routing, Trivial))| + |Filter(models, InPool(routing, Simple))|
          + |Filter(models, InPool(routing, Standard))| + |Filter(models, InPool(routing, Hard))|
          + |Filter(models, InPool(routing, Reasoning))| + |Filter(models, Unranked(routing))|
          == |models|
  {
    if models != [] {
      PoolsAndUnrankedAddUp(DropLast(models), routing);
    }
  }

  lemma PartitionLosesNothing(models: seq<CatalogModel>, routing: Routing, previous: Pins)
    ensures var s := Partition(models, routing, previous);
      s.totalModels == |models|
      && |Pool(models, routing, Trivial)| + |Pool(models, routing, Simple)| + |Pool(models, routing, Standard)|
         + |Pool(models, routing, Hard)| + |Pool(models, routing, Reasoning)| + s.unrankedModels == |models|
  {
    PoolsAndUnrankedAddUp(models, routing);
    forall t: Tier
      ensures |Pool(models, routing, t)| == |Filter(models, InPool(routing, t))|
    {
      PoolMeaning(models, routing, t);
    }
  }

  /** Exactly the catalog's ids get a tier. */
  lemma {:induction false} ModelTiersCover(models: seq<CatalogModel>, bands: Bands, id: string)
    ensures id in ModelTiers(models, bands) <==> exists m <- models :: m.id == id
  {
    if models != [] {
      ModelTiersCover(DropLast(models), bands, id);
      assert models == DropLast(models) + [Last(models)];
    }
  }

  /** An id's tier is the band of its last entry in the catalog. */
  lemma {:induction false} ModelTiersTakeLastEntry(models: seq<CatalogModel>, bands: Bands, i: nat)
    requires i < |models| && forall j :: i < j < |models| ==> models[j].id != models[i].id
    ensures models[i].id in ModelTiers(models, bands)
    ensures ModelTiers(models, bands)[models[i].id] == BandTier(models[i].inputPrice, bands)
  {
    if i < |models| - 1 {
      ModelTiersTakeLastEntry(DropLast(models), bands, i);
    }
  }

  // ----- the failover list --------------------------------------------------------------------------

  lemma PinChoiceMeaning(pool: seq<CatalogModel>, t: Tier, filters: Filters)
    requires pool != [] && IsSorted(pool, PoolOrder())
    ensures var best := PinChoice(pool, t, filters);
      best in pool
      && (IsDisqualified(t, filters, best) ==> forall m <- pool :: IsDisqualified(t, filters, m))
      && forall m <- pool :: !IsDisqualified(t, filters, m) ==> !Precedes(m, best)
  {
    FindMeaning(pool, IsReasoning());
    PrecedesAsymmetric(pool[0], pool[0]);
    forall m <- pool | !IsDisqualified(t, filters, m)
      ensures !Precedes(m, PinChoice(pool, t, filters))
    {
      var k :| 0 <= k < |pool| && pool[k] == m;
      PrecedesAsymmetric(m, m);
    }
  }

  lemma ChosenInPool(pool: seq<CatalogModel>, t: Tier, routing: Routing, previous: Option<TierPin>)
    requires pool != []
    ensures Chosen(pool, t, routing, previous) in pool
  {
    FindMeaning(pool, IsReasoning());
    if previous.Some? {
      FindMeaning(pool, HasId(previous.value.model));
    }
  }

  /** In a duplicate-free pool the later entry of a sorted list is strictly behind the earlier one. */
  lemma SortedUniqueIsStrict(s: seq<CatalogModel>, i: int, j: int)
    requires IsSorted(s, PoolOrder()) && UniqueIds(s) && 0 <= i < j < |s|
    ensures Precedes(s[i], s[j])
  {
    PrecedesAsymmetric(s[i], s[j]);
  }

  /** Behind the pin, candidates ascend by (price, id). */
  ghost predicate Ascends(list: seq<string>, pool: seq<CatalogModel>)
  {
    forall i, j, a, b | 1 <= i < j < |list| && a in pool && b in pool && a.id == list[i] && b.id == list[j] ::
      Precedes(a, b)
  }

  /** A qualified model is left out only when the list is full of better ones. */
  ghost predicate OmitsOnlyWorse(list: seq<string>, pool: seq<CatalogModel>, t: Tier, filters: Filters)
  {
    forall m | m in pool && m.id !in list && !IsDisqualified(t, filters, m) ::
      |list| == MAX_CANDIDATES && forall a | a in pool && a.id in list[1..] :: Precedes(a, m)
  }

  ghost predicate IsFailoverList(pin: TierPin, pool: seq<CatalogModel>, t: Tier, filters: Filters)
  {
    1 <= |pin.candidates| <= MAX_CANDIDATES
    && pin.candidates[0] == pin.model
    && NoDuplicates(pin.candidates)
    && (forall c <- pin.candidates :: exists m <- pool :: m.id == c)
    && Ascends(pin.candidates, pool)
    && OmitsOnlyWorse(pin.candidates, pool, t, filters)
    // a disqualified model never serves as a failover target
    && (forall m | m in pool && m.id in pin.candidates[1..] :: !IsDisqualified(t, filters, m))
  }

  lemma PinForIsFailoverList(pool: seq<CatalogModel>, t: Tier, routing: Routing, previous: Option<TierPin>)
    requires pool != [] && IsSorted(pool, PoolOrder()) && UniqueIds(pool)
    ensures IsFailoverList(PinFor(pool, t, routing, previous), pool, t, routing.filters)
  {
    hide IsFailoverList;
    hide Filter;
    hide Chosen;
    hide Precedes;
    var chosen := Chosen(pool, t, routing, previous);
    ChosenInPool(pool, t, routing, previous);
    var eligible := Eligible(chosen.id, t, routing.filters);
    var rest := Filter(pool, eligible);
    FilterMembers(pool, eligible);
    FilterKeepsOrder(pool, eligible, PoolOrder());
    FilterKeepsUnique(pool, eligible);
    var list := [chosen.id] + Ids(Take(rest, MAX_CANDIDATES - 1));
    forall i | 1 <= i < |list|
      ensures list[i] == rest[i - 1].id && rest[i - 1] in pool
    {
      assert rest[i - 1] in rest;
    }
    ListOfSuccessors(pool, rest, list, t, routing.filters);
  }

  lemma ListOfSuccessors(pool: seq<CatalogModel>, rest: seq<CatalogModel>, list: seq<string>, t: Tier, filters: Filters)
    requires UniqueIds(pool) && IsSorted(rest, PoolOrder()) && UniqueIds(rest)
    requires 1 <= |list| <= |rest| + 1 && |list| <= MAX_CANDIDATES
    requires |list| == MAX_CANDIDATES || |list| == |rest| + 1
    requires exists m <- pool :: m.id == list[0]
    requires forall i :: 1 <= i < |list| ==> list[i] == rest[i - 1].id && rest[i - 1] in pool && rest[i - 1] in rest
    requires forall m :: m in rest ==> m in pool && m.id != list[0] && !IsDisqualified(t, filters, m)
    requires forall m :: m in pool && m.id != list[0] && !IsDisqualified(t, filters, m) ==> m in rest
    ensures IsFailoverList(TierPin(list[0], list), pool, t, filters)
  {
    hide Ascends;
    hide OmitsOnlyWorse;
    hide IsSorted;
    hide UniqueIds;
    hide IsDisqualified;
    hide NoDuplicates;
    SuccessorsAreQualified(pool, rest, list, t, filters);
    SuccessorsAscend(pool, rest, list);
    SuccessorsOmitOnlyWorse(pool, rest, list, t, filters);
  }

  lemma SuccessorsAreQualified(pool: seq<CatalogModel>, rest: seq<CatalogModel>, list: seq<string>, t: Tier, filters: Filters)
    requires UniqueIds(pool) && UniqueIds(rest) && 1 <= |list| <= |rest| + 1
    requires exists m <- pool :: m.id == list[0]
    requires forall m :: m in rest ==> m in pool && m.id != list[0] && !IsDisqualified(t, filters, m)
    requires forall i :: 1 <= i < |list| ==> list[i] == rest[i - 1].id && rest[i - 1] in rest
    ensures NoDuplicates(list)
    ensures forall c <- list :: exists m <- pool :: m.id == c
    ensures forall m | m in pool && m.id in list[1..] :: !IsDisqualified(t, filters, m)
  {
    forall c <- list
      ensures exists m <- pool :: m.id == c
    {
      var i :| 0 <= i < |list| && list[i] == c;
      if i > 0 {
        assert rest[i - 1] in pool;
      }
    }
    forall m | m in pool && m.id in list[1..]
      ensures !IsDisqualified(t, filters, m)
    {
      var i :| 0 <= i < |list| - 1 && list[1..][i] == m.id;
      assert list[i + 1] == m.id;
      SameIdSameModel(pool, m, rest[i]);
    }
  }

  lemma SuccessorsAscend(pool: seq<CatalogModel>, rest: seq<CatalogModel>, list: seq<string>)
    requires UniqueIds(pool) && IsSorted(rest, PoolOrder()) && UniqueIds(rest)
    requires |list| <= |rest| + 1 && forall i :: 1 <= i < |list| ==> list[i] == rest[i - 1].id && rest[i - 1] in pool
    ensures Ascends(list, pool)
  {
    forall i, j, a, b | 1 <= i < j < |list| && a in pool && b in pool && a.id == list[i] && b.id == list[j]
      ensures Precedes(a, b)
    {
      SameIdSameModel(pool, a, rest[i - 1]);
      SameIdSameModel(pool, b, rest[j - 1]);
      SortedUniqueIsStrict(rest, i - 1, j - 1);
    }
  }

  lemma SuccessorsOmitOnlyWorse(pool: seq<CatalogModel>, rest: seq<CatalogModel>, list: seq<string>, t: Tier, filters: Filters)
    requires UniqueIds(pool) && IsSorted(rest, PoolOrder()) && UniqueIds(rest)
    requires 1 <= |list| <= |rest| + 1 && (|list| == MAX_CANDIDATES || |list| == |rest| + 1)
    requires forall i :: 1 <= i < |list| ==> list[i] == rest[i - 1].id && rest[i - 1] in pool
    requires forall m :: m in pool && m.id != list[0] && !IsDisqualified(t, filters, m) ==> m in rest
    ensures OmitsOnlyWorse(list, pool, t, filters)
  {
    forall m | m in pool && m.id !in list && !IsDisqualified(t, filters, m)
      ensures |list| == MAX_CANDIDATES && forall a | a in pool && a.id in list[1..] :: Precedes(a, m)
    {
      assert m.id != list[0];
      var k :| 0 <= k < |rest| && rest[k] == m;
      forall i | 0 <= i < |list| - 1
        ensures rest[i].id in list
      {
        assert list[i + 1] == rest[i].id;
      }
      forall a | a in pool && a.id in list[1..]
        ensures Precedes(a, m)
      {
        var i :| 0 <= i < |list| - 1 && list[1..][i] == a.id;
        assert a.id == list[i + 1];
        SameIdSameModel(pool, a, rest[i]);
        SortedUniqueIsStrict(rest, i, k);
      }
    }
  }

  lemma SameIdSameModel(pool: seq<CatalogModel>, a: CatalogModel, b: CatalogModel)
    requires UniqueIds(pool) && a in pool && b in pool && a.id == b.id
    ensures a == b
  {
  }

  /** With unique ids every tier's list is a failover list of that tier's pool. */
  lemma PartitionBuildsFailoverLists(models: seq<CatalogModel>, routing: Routing, previous: Pins, t: Tier)
    requires UniqueIds(models)
    ensures var pins := Partition(models, routing, previous).pins;
      (t in pins <==> Pool(models, routing, t) != [])
      && (t in pins ==> IsFailoverList(pins[t], Pool(models, routing, t), t, routing.filters))
  {
    PoolMeaning(models, routing, t);
    TierListed(t);
    if Pool(models, routing, t) != [] {
      PinForIsFailoverList(Pool(models, routing, t), t, routing, Lookup(previous, t));
    }
  }

  /** Every candidate of a lower tier is strictly cheaper than every candidate of a higher one. */
  lemma CandidatesSeparatedByPrice(models: seq<CatalogModel>, routing: Routing, previous: Pins,
      t: Tier, u: Tier, a: CatalogModel, b: CatalogModel)
    requires UniqueIds(models) && a in models && b in models && Rank(t) < Rank(u)
    requires var pins := Partition(models, routing, previous).pins;
      t in pins && u in pins && a.id in pins[t].candidates && b.id in pins[u].candidates
    ensures a.inputPrice < b.inputPrice
  {
    PartitionBuildsFailoverLists(models, routing, previous, t);
    PartitionBuildsFailoverLists(models, routing, previous, u);
    PoolMeaning(models, routing, t);
    PoolMeaning(models, routing, u);
    var m :| m in Pool(models, routing, t) && m.id == a.id;
    var n :| n in Pool(models, routing, u) && n.id == b.id;
    SameIdSameModel(models, a, m);
    SameIdSameModel(models, b, n);
    LowerTierIsCheaper(a.inputPrice, b.inputPrice, routing.bands);
  }

  ghost predicate InPoolOrder(models: seq<CatalogModel>)
  {
    forall i, j :: 0 <= i < j < |models| ==> Precedes(models[i], models[j]) || models[i] == models[j]
  }

  lemma PoolInOrder(models: seq<CatalogModel>, routing: Routing, t: Tier)
    requires InPoolOrder(models) && forall m <- models :: InPool(routing, t)(m)
    ensures Pool(models, routing, t) == models
  {
    hide InPool;
    hide Filter;
    hide Sort;
    FilterAll(models, InPool(routing, t));
    SortedByPool(models);
    SortOfSorted(models, PoolOrder());
  }

  lemma SortedByPool(models: seq<CatalogModel>)
    requires InPoolOrder(models)
    ensures IsSorted(models, PoolOrder())
  {
    hide Precedes;
    forall i, j | 0 <= i <= j < |models|
      ensures PoolOrder()(models[i], models[j])
    {
      PrecedesAsymmetric(models[i], models[j]);
    }
  }

  lemma AllOthersEligible(pool: seq<CatalogModel>, t: Tier, filters: Filters)
    requires pool != [] && t != Reasoning && forall m <- pool[1..] :: m.id != pool[0].id
    ensures Filter(pool, Eligible(pool[0].id, t, filters)) == pool[1..]
  {
    var eligible := Eligible(pool[0].id, t, filters);
    FilterConcat(pool[..1], pool[1..], eligible);
    FilterAll(pool[1..], eligible);
    assert pool == pool[..1] + pool[1..];
    assert DropLast(pool[..1]) == [] && Filter(pool[..1], eligible) == [];
  }

  lemma PinOfSortedPool(pool: seq<CatalogModel>, routing: Routing)
    requires 0 < |pool| <= MAX_CANDIDATES && forall m <- pool[1..] :: m.id != pool[0].id
    ensures PinFor(pool, Trivial, routing, None) == TierPin(pool[0].id, Ids(pool))
  {
    hide Filter;
    hide Eligible;
    AllOthersEligible(pool, Trivial, routing.filters);
    assert Successors(pool, pool[0].id, Trivial, routing.filters) == pool[1..];
    assert [pool[0].id] + Ids(pool[1..]) == Ids(pool);
  }

  /** A short catalog of trivial-tier models in pool order is pinned to its first and fails over along the rest. */
  lemma ListOfSortedCatalog(models: seq<CatalogModel>, routing: Routing)
    requires 0 < |models| <= MAX_CANDIDATES && InPoolOrder(models)
    requires forall m <- models :: InPool(routing, Trivial)(m)
    requires forall m <- models[1..] :: m.id != models[0].id
    ensures var pins := Partition(models, routing, map[]).pins;
      Trivial in pins && pins[Trivial] == TierPin(models[0].id, Ids(models))
  {
    hide Pool;
    hide InPool;
    hide InPoolOrder;
    hide PinFor;
    hide ModelTiers;
    hide Unranked;
    PoolInOrder(models, routing, Trivial);
    PinOfSortedPool(models, routing);
    TierListed(Trivial);
  }

  /** Unique ids are needed: a catalog that lists an id twice gets it twice as a failover target. */
  lemma RepeatedIdRepeatsCandidate(routing: Routing, p: CatalogModel, x: CatalogModel)
    requires p.id != x.id && Precedes(p, x)
    requires InPool(routing, Trivial)(p) && InPool(routing, Trivial)(x)
    ensures var pins := Partition([p, x, x], routing, map[]).pins;
      Trivial in pins && pins[Trivial].candidates == [p.id, x.id, x.id]
  {
    hide Precedes;
    hide InPool;
    hide Partition;
    var models := [p, x, x];
    assert InPoolOrder(models);
    hide InPoolOrder;
    ListOfSortedCatalog(models, routing);
    assert Ids(models) == [p.id, x.id, x.id];
  }

  lemma TierListed(t: Tier)
    ensures t in ALL_TIERS
  {
    assert t == ALL_TIERS[Rank(t)];
  }

  // ----- stickiness -----------------------------------------------------------------------------------

  lemma ChosenAgain(pool: seq<CatalogModel>, t: Tier, routing: Routing, previous: Option<TierPin>, pin: TierPin)
    requires pool != [] && pin.model == Chosen(pool, t, routing, previous).id
    ensures Chosen(pool, t, routing, Some(pin)).id == pin.model
  {
    ChosenInPool(pool, t, routing, previous);
    FindMeaning(pool, HasId(pin.model));
    if previous.Some? {
      FindMeaning(pool, HasId(previous.value.model));
    }
  }

  /** Splitting the same catalog again with the resulting pins changes nothing at all. */
  lemma PartitionIsSticky(models: seq<CatalogModel>, routing: Routing, previous: Pins)
    ensures var s := Partition(models, routing, previous);
      Partition(models, routing, s.pins) == s
  {
    var pins := PinsFor(ALL_TIERS, models, routing, previous);
    forall t <- ALL_TIERS | Pool(models, routing, t) != []
      ensures PinFor(Pool(models, routing, t), t, routing, Lookup(pins, t)) == pins[t]
    {
      ChosenAgain(Pool(models, routing, t), t, routing, Lookup(previous, t), pins[t]);
    }
    assert PinsFor(ALL_TIERS, models, routing, pins) == pins;
  }

  /** The price a candidate must not exceed for the pin to migrate to it. */
  function CutPrice(price: real, routing: Routing): real
  {
    price * (1.0 - Max(routing.switchSavingRatio, 0.0))
  }

  /** A qualified model of the pool that stands before the incumbent and saves the configured ratio. */
  ghost predicate IsWorthMigrating(m: CatalogModel, pool: seq<CatalogModel>, t: Tier, routing: Routing, kept: CatalogModel)
  {
    m in pool && !IsDisqualified(t, routing.filters, m)
    && (m.inputPrice < kept.inputPrice || (m.inputPrice == kept.inputPrice && LexLess(m.id, kept.id)))
    && m.inputPrice <= CutPrice(kept.inputPrice, routing)
  }

  /** The hysteresis is exact: a qualified incumbent is left if and only if some qualified model is worth it, and then
      for a qualified one that no qualified model undercuts. */
  lemma MigratesExactly(pool: seq<CatalogModel>, t: Tier, routing: Routing, pin: TierPin, kept: CatalogModel)
    requires IsSorted(pool, PoolOrder()) && UniqueIds(pool)
    requires kept in pool && kept.id == pin.model && !IsDisqualified(t, routing.filters, kept)
    ensures var chosen := Chosen(pool, t, routing, Some(pin));
      (chosen.id != pin.model <==> exists m :: IsWorthMigrating(m, pool, t, routing, kept))
      && (chosen.id != pin.model ==>
            IsWorthMigrating(chosen, pool, t, routing, kept)
            && forall m <- pool :: !IsDisqualified(t, routing.filters, m) ==> chosen.inputPrice <= m.inputPrice)
      && (chosen.id == pin.model ==> chosen == kept)
  {
    hide IsDisqualified;
    hide PinChoice;
    PinChoiceMeaning(pool, t, routing.filters);
    var best := PinChoice(pool, t, routing.filters);
    FindMeaning(pool, HasId(pin.model));
    assert Find(pool, HasId(pin.model)) == Some(kept);
    PrecedesAsymmetric(best, kept);
    var chosen := Chosen(pool, t, routing, Some(pin));
    if chosen.id != pin.model {
      assert chosen == best && Precedes(best, kept);
      assert IsWorthMigrating(best, pool, t, routing, kept);
    }
    hide PoolOrder;
    forall m | IsWorthMigrating(m, pool, t, routing, kept)
      ensures best.id != kept.id && best.inputPrice <= m.inputPrice
    {
      assert Precedes(m, kept) && !Precedes(m, best);
      assert best.id == kept.id ==> best == kept;
    }
  }

  /** With a ratio of a fifth, an incumbent at 1.0 is left for a model at 0.8 and kept beside one at 0.81. */
  lemma SwitchBoundary(a: CatalogModel, b: CatalogModel, routing: Routing)
    requires a.id != b.id && b.inputPrice == 1.0 && a.inputPrice < 1.0 && routing.switchSavingRatio == 0.2
    ensures Chosen([a, b], Trivial, routing, Some(TierPin(b.id, []))) == if a.inputPrice <= 0.8 then a else b
  {
    assert forall i, j :: 0 <= i < j < 2 ==> PoolOrder()([a, b][i], [a, b][j]);
    PrecedesAsymmetric(a, a);
    PrecedesAsymmetric(b, b);
    FindMeaning([a, b], HasId(b.id));
    MigratesExactly([a, b], Trivial, routing, TierPin(b.id, []), b);
  }

  /** An incumbent that cannot do its tier's job is left for one that can, if the pool has one, whatever the price. */
  lemma DisqualifiedIncumbentIsLeft(pool: seq<CatalogModel>, t: Tier, routing: Routing, previous: Option<TierPin>)
    requires pool != [] && IsSorted(pool, PoolOrder())
    requires exists m <- pool :: !IsDisqualified(t, routing.filters, m)
    ensures !IsDisqualified(t, routing.filters, Chosen(pool, t, routing, previous))
  {
    PinChoiceMeaning(pool, t, routing.filters);
    hide IsDisqualified;
    hide PinChoice;
  }

  /** A tier with no incumbent in its pool is pinned to the cheapest qualified model. */
  lemma NewPinIsCheapest(pool: seq<CatalogModel>, t: Tier, routing: Routing, previous: Option<TierPin>)
    requires pool != [] && IsSorted(pool, PoolOrder())
    requires previous.Some? ==> forall m <- pool :: m.id != previous.value.model
    ensures forall m <- pool :: !IsDisqualified(t, routing.filters, m) ==>
      Chosen(pool, t, routing, previous).inputPrice <= m.inputPrice
  {
    PinChoiceMeaning(pool, t, routing.filters);
    if previous.Some? {
      FindMeaning(pool, HasId(previous.value.model));
    }
    hide IsDisqualified;
    hide PinChoice;
  }

  /** A qualified incumbent is replaced only by a model that saves the configured ratio. */
  lemma MigrationSaves(pool: seq<CatalogModel>, t: Tier, routing: Routing, pin: TierPin, kept: CatalogModel)
    requires pool != [] && Find(pool, HasId(pin.model)) == Some(kept)
    requires !IsDisqualified(t, routing.filters, kept)
    ensures var chosen := Chosen(pool, t, routing, Some(pin));
      (chosen.id == pin.model ==> chosen == kept)
      && (chosen.id != pin.model ==>
            chosen == PinChoice(pool, t, routing.filters)
            && chosen.inputPrice <= CutPrice(kept.inputPrice, routing))
  {
    FindMeaning(pool, HasId(pin.model));
  }

  /** A refreshed tier with candidates gets exactly the pin of the split; the retain step drops nothing. */
  lemma RefreshedPin(models: seq<CatalogModel>, routing: Routing, held: Pins, carried: Pins, t: Tier)
    requires Pool(models, routing, t) != []
    ensures var pins := RefreshedPins(models, routing, held, carried);
      t in pins && pins[t] == PinFor(Pool(models, routing, t), t, routing, Lookup(held, t))
  {
    var pool := Pool(models, routing, t);
    var pin := PinFor(pool, t, routing, Lookup(held, t));
    TierListed(t);
    forall c <- pin.candidates
      ensures c in ModelTiers(models, routing.bands)
    {
      CandidateFromPool(pool, t, routing, Lookup(held, t), c);
      var m :| m in pool && m.id == c;
      PoolMeaning(models, routing, t);
      ModelTiersCover(models, routing.bands, c);
    }
    FilterAll(pin.candidates, IsListed(ModelTiers(models, routing.bands)));
  }

  /** A refresh migrates a tier off a qualified incumbent exactly when the catalog lists a candidate worth it. */
  lemma RefreshMigratesExactly(models: seq<CatalogModel>, routing: Routing, held: Pins, carried: Pins, t: Tier, kept: CatalogModel)
    requires UniqueIds(models) && kept in Pool(models, routing, t) && !IsDisqualified(t, routing.filters, kept)
    requires t in held && held[t].model == kept.id
    ensures var pins := RefreshedPins(models, routing, held, carried);
      t in pins
      && (pins[t].model != kept.id <==>
            exists m :: m in models && IsCandidate(m, routing, t) && IsWorthMigrating(m, Pool(models, routing, t), t, routing, kept))
  {
    PoolMeaning(models, routing, t);
    RefreshedPin(models, routing, held, carried, t);
    var pool := Pool(models, routing, t);
    MigratesExactly(pool, t, routing, held[t], kept);
    hide Pool;
    hide Chosen;
    forall m | IsWorthMigrating(m, pool, t, routing, kept)
      ensures m in models && IsCandidate(m, routing, t)
    {
      CandidateMeaning(m, routing, t);
    }
  }

  /** What an operator's settings ask of a candidate of a tier. */
  predicate IsCandidate(m: CatalogModel, routing: Routing, t: Tier)
  {
    var f := routing.filters;
    m.textOutput
    && (f.requireTools ==> m.tools)
    && f.minContext <= m.contextLength
    && (!f.allowFree ==> 0.0 < m.inputPrice && !EndsWith(m.id, ":free"))
    && (forall prefix <- f.denyPrefixes :: !(prefix <= m.id))
    && BandTier(m.inputPrice, routing.bands) == t
  }

  lemma CandidateMeaning(m: CatalogModel, routing: Routing, t: Tier)
    ensures InPool(routing, t)(m) <==> IsCandidate(m, routing, t)
  {
  }

  /** Every model a tier is pinned to or can fail over to meets the operator's filters and the tier's band, and every
      model that does is listed, disqualified, or left out of a full list of 20. */
  lemma ListsHoldTheCandidates(models: seq<CatalogModel>, routing: Routing, previous: Pins, t: Tier, m: CatalogModel)
    requires UniqueIds(models) && m in models
    ensures var pins := Partition(models, routing, previous).pins;
      (t in pins && m.id in pins[t].candidates ==> IsCandidate(m, routing, t))
      && (IsCandidate(m, routing, t) ==>
            t in pins
            && (m.id in pins[t].candidates || IsDisqualified(t, routing.filters, m) || |pins[t].candidates| == 20))
  {
    PartitionBuildsFailoverLists(models, routing, previous, t);
    PoolMeaning(models, routing, t);
    CandidateMeaning(m, routing, t);
    var pins := Partition(models, routing, previous).pins;
    hide Partition;
    hide Pool;
    hide InPool;
    hide Ascends;
    hide NoDuplicates;
    hide IsCandidate;
    if t in pins && m.id in pins[t].candidates {
      var n :| n in Pool(models, routing, t) && n.id == m.id;
      SameIdSameModel(models, m, n);
    }
  }

  /** A tier left without candidates keeps its pin, and of its list what the catalog still names; a tier that never had
      a pin gets none. */
  lemma CarriedPin(models: seq<CatalogModel>, routing: Routing, held: Pins, carried: Pins, t: Tier)
    requires Pool(models, routing, t) == []
    ensures var pins := RefreshedPins(models, routing, held, carried);
      (t in pins <==> t in carried)
      && (t in carried ==> pins[t].model == carried[t].model)
      && (t in carried ==> forall c :: c in pins[t].candidates <==> c in carried[t].candidates && exists m <- models :: m.id == c)
  {
    if t in carried {
      var tiers := ModelTiers(models, routing.bands);
      FilterMembers(carried[t].candidates, IsListed(tiers));
      forall c
        ensures c in tiers <==> exists m <- models :: m.id == c
      {
        ModelTiersCover(models, routing.bands, c);
      }
    }
  }

  lemma CandidateFromPool(pool: seq<CatalogModel>, t: Tier, routing: Routing, previous: Option<TierPin>, c: string)
    requires pool != [] && c in PinFor(pool, t, routing, previous).candidates
    ensures exists m <- pool ::
      m.id == c && (m == Chosen(pool, t, routing, previous) || !IsDisqualified(t, routing.filters, m))
  {
    var chosen := Chosen(pool, t, routing, previous);
    ChosenInPool(pool, t, routing, previous);
    var eligible := Eligible(chosen.id, t, routing.filters);
    FilterMembers(pool, eligible);
    var list := PinFor(pool, t, routing, previous).candidates;
    var i :| 0 <= i < |list| && list[i] == c;
    if i > 0 {
      assert Filter(pool, eligible)[i - 1] in Filter(pool, eligible);
    }
  }

  /** Whether a refreshed pin heads its own failover list, so that failover can leave it: always when
      the tier has candidates, else only if the carried list held the pin and the catalog lists it. */
  lemma RefreshedPinInOwnList(models: seq<CatalogModel>, routing: Routing, held: Pins, carried: Pins, t: Tier)
    requires t in RefreshedPins(models, routing, held, carried)
    ensures var pin := RefreshedPins(models, routing, held, carried)[t];
      pin.model in pin.candidates <==>
        Pool(models, routing, t) != []
        || (carried[t].model in carried[t].candidates && exists m <- models :: m.id == carried[t].model)
  {
    if Pool(models, routing, t) != [] {
      RefreshedPin(models, routing, held, carried, t);
    } else {
      FilterMembers(carried[t].candidates, IsListed(ModelTiers(models, routing.bands)));
      ModelTiersCover(models, routing.bands, carried[t].model);
    }
  }

  /** A pinned model that leaves the catalog together with the tier's other candidates keeps the pin but not its place
      on the list. */
  lemma DelistedPinLeavesItsList()
    ensures var routing := Routing(Bands(1.0, 2.0, 3.0, 4.0, 5.0), Filters(false, 0, true, [], false), 0.2);
      var held: Pins := map[Hard := TierPin("gone", ["gone", "new"])];
      var pins := RefreshedPins([CatalogModel("new", 0, 0.5, true, false, true)], routing, held, held);
      Hard in pins && pins[Hard] == TierPin("gone", ["new"])
  {
    var routing := Routing(Bands(1.0, 2.0, 3.0, 4.0, 5.0), Filters(false, 0, true, [], false), 0.2);
    var held: Pins := map[Hard := TierPin("gone", ["gone", "new"])];
    var m := CatalogModel("new", 0, 0.5, true, false, true);
    assert DropLast([m]) == [] && Filter([m], InPool(routing, Hard)) == [];
    assert Pool([m], routing, Hard) == [];
    var tiers := ModelTiers([m], routing.bands);
    assert ModelTiers([], routing.bands) == map[];
    assert tiers == map["new" := Trivial];
    assert DropLast(["gone", "new"]) == ["gone"] && DropLast(["gone"]) == [];
    assert Filter(["gone"], IsListed(tiers)) == [];
    assert Filter(["gone", "new"], IsListed(tiers)) == ["new"];
  }

  /** Refreshing again from the same catalog keeps every pin and every failover list. */
  lemma RefreshIsSticky(models: seq<CatalogModel>, routing: Routing, previous: Pins)
    ensures var pins := RefreshedPins(models, routing, previous, previous);
      RefreshedPins(models, routing, pins, pins) == pins
  {
    var pins := RefreshedPins(models, routing, previous, previous);
    var again := RefreshedPins(models, routing, pins, pins);
    forall t: Tier
      ensures t in pins <==> t in again
      ensures t in pins ==> again[t] == pins[t]
    {
      TierListed(t);
      if Pool(models, routing, t) != [] {
        RefreshedPin(models, routing, previous, previous, t);
        RefreshedPin(models, routing, pins, pins, t);
        ChosenAgain(Pool(models, routing, t), t, routing, Lookup(previous, t), pins[t]);
      } else if t in previous {
        FilterMembers(previous[t].candidates, IsListed(ModelTiers(models, routing.bands)));
        FilterAll(pins[t].candidates, IsListed(ModelTiers(models, routing.bands)));
      }
    }
  }

  // ----- hysteresis over a run ----------------------------------------------------------------------

  /** `price * (1 - ratio)^k`: a price after `k` migrations. */
  function Discounted(price: real, routing: Routing, k: nat): real
  {
    if k == 0 then price else CutPrice(Discounted(price, routing, k - 1), routing)
  }

  /** One refresh of tier `t`: its qualified pin is still offered, at `price`, and the refresh moves
      on to the pins `after`, with the pinned model at `newPrice`. */
  ghost predicate SteadyRefresh(models: seq<CatalogModel>, routing: Routing, t: Tier,
      before: Pins, price: real, after: Pins, newPrice: real)
  {
    var pool := Pool(models, routing, t);
    t in before && pool != []
    && Find(pool, HasId(before[t].model)).Some?
    && var kept := Find(pool, HasId(before[t].model)).value;
    kept.inputPrice == price && !IsDisqualified(t, routing.filters, kept)
    && after == RefreshedPins(models, routing, before, before)
    && newPrice == Chosen(pool, t, routing, Some(before[t])).inputPrice
  }

  ghost predicate SteadyRun(catalogs: seq<seq<CatalogModel>>, routing: Routing, t: Tier, pins: seq<Pins>, prices: seq<real>)
  {
    |pins| == |prices| == |catalogs| + 1
    && forall i :: 0 <= i < |catalogs| ==>
      SteadyRefresh(catalogs[i], routing, t, pins[i], prices[i], pins[i + 1], prices[i + 1])
  }

  function PinnedModel(pins: Pins, t: Tier): Option<string>
  {
    if t in pins then Some(pins[t].model) else None
  }

  /** How often the pinned model of `t` changed. */
  function Migrations(pins: seq<Pins>, t: Tier): nat
  {
    if |pins| < 2 then 0
    else
      var moved := PinnedModel(pins[|pins| - 2], t) != PinnedModel(pins[|pins| - 1], t);
      Migrations(DropLast(pins), t) + if moved then 1 else 0
  }

  lemma SteadyRefreshStep(models: seq<CatalogModel>, routing: Routing, t: Tier,
      before: Pins, price: real, after: Pins, newPrice: real)
    requires SteadyRefresh(models, routing, t, before, price, after, newPrice)
    ensures if PinnedModel(before, t) == PinnedModel(after, t) then newPrice == price
            else newPrice <= CutPrice(price, routing)
  {
    hide Pool;
    hide RefreshedPins;
    hide Chosen;
    hide Find;
    hide IsDisqualified;
    hide CutPrice;
    var pool := Pool(models, routing, t);
    RefreshedPin(models, routing, before, before, t);
    MigrationSaves(pool, t, routing, before[t], Find(pool, HasId(before[t].model)).value);
  }

  lemma SteadyRunPrefix(catalogs: seq<seq<CatalogModel>>, routing: Routing, t: Tier, pins: seq<Pins>, prices: seq<real>)
    requires SteadyRun(catalogs, routing, t, pins, prices) && catalogs != []
    ensures SteadyRun(DropLast(catalogs), routing, t, DropLast(pins), DropLast(prices))
    ensures |pins| == |prices| == |catalogs| + 1
    ensures var n := |catalogs|;
      SteadyRefresh(catalogs[n - 1], routing, t, pins[n - 1], prices[n - 1], pins[n], prices[n])
  {
    hide SteadyRefresh;
  }

  /** Hysteresis over any number of refreshes: `k` migrations cut the pinned price geometrically, so
      price noise cannot make a pin thrash. */
  lemma {:induction false} MigrationsCutThePrice(catalogs: seq<seq<CatalogModel>>, routing: Routing, t: Tier,
      pins: seq<Pins>, prices: seq<real>)
    requires |pins| == |prices| == |catalogs| + 1
    requires SteadyRun(catalogs, routing, t, pins, prices)
    requires routing.switchSavingRatio <= 1.0
    ensures Last(prices) <= Discounted(prices[0], routing, Migrations(pins, t))
  {
    if catalogs != [] {
      hide SteadyRun;
      SteadyRunPrefix(catalogs, routing, t, pins, prices);
      MigrationsCutThePrice(DropLast(catalogs), routing, t, DropLast(pins), DropLast(prices));
      var n := |catalogs|;
      SteadyRefreshCuts(catalogs[n - 1], routing, t, pins, prices[n - 1], prices[n], prices[0]);
    }
  }

  lemma SteadyRefreshCuts(models: seq<CatalogModel>, routing: Routing, t: Tier, pins: seq<Pins>,
      price: real, newPrice: real, start: real)
    requires |pins| >= 2 && routing.switchSavingRatio <= 1.0
    requires SteadyRefresh(models, routing, t, pins[|pins| - 2], price, pins[|pins| - 1], newPrice)
    requires price <= Discounted(start, routing, Migrations(DropLast(pins), t))
    ensures newPrice <= Discounted(start, routing, Migrations(pins, t))
  {
    hide SteadyRefresh;
    hide CutPrice;
    hide Discounted;
    SteadyRefreshStep(models, routing, t, pins[|pins| - 2], price, pins[|pins| - 1], newPrice);
    DiscountStep(start, price, routing, Migrations(DropLast(pins), t));
  }

  lemma DiscountStep(start: real, price: real, routing: Routing, k: nat)
    requires routing.switchSavingRatio <= 1.0 && price <= Discounted(start, routing, k)
    ensures CutPrice(price, routing) <= Discounted(start, routing, k + 1)
  {
    CutPriceMonotone(price, Discounted(start, routing, k), routing);
  }

  lemma CutPriceMonotone(a: real, b: real, routing: Routing)
    requires a <= b && routing.switchSavingRatio <= 1.0
    ensures CutPrice(a, routing) <= CutPrice(b, routing)
  {
  }

  // ----- reasoning ------------------------------------------------------------------------------------

  /** Every failover candidate of the Reasoning tier stands for a reasoning-capable model. */
  ghost predicate ReasoningOnly(pin: TierPin, models: seq<CatalogModel>)
  {
    pin.model in pin.candidates && forall c <- pin.candidates :: exists m <- models :: m.id == c && m.reasoning
  }

  lemma RefreshPinsReasoning(models: seq<CatalogModel>, routing: Routing, held: Pins, carried: Pins)
    requires routing.filters.preferReasoningPin
    requires exists m <- Pool(models, routing, Reasoning) :: m.reasoning
    ensures var pins := RefreshedPins(models, routing, held, carried);
      Reasoning in pins && ReasoningOnly(pins[Reasoning], models)
  {
    var pool := Pool(models, routing, Reasoning);
    RefreshedPin(models, routing, held, carried, Reasoning);
    PoolMeaning(models, routing, Reasoning);
    var previous := Lookup(held, Reasoning);
    PinChoiceMeaning(pool, Reasoning, routing.filters);
    var capable :| capable in pool && capable.reasoning;
    forall c <- PinFor(pool, Reasoning, routing, previous).candidates
      ensures exists m <- models :: m.id == c && m.reasoning
    {
      CandidateFromPool(pool, Reasoning, routing, previous, c);
    }
  }
}
