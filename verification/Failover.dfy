/** What failover guarantees over any run of outcome reports between two commits. */
module Failover {
  import opened Basics
  import opened Tiers
  import opened Catalog
  import opened CatalogProperties
  import opened Router

  datatype Report = Succeeded(tier: Tier, model: string) | Failed(tier: Tier, model: string)

  function Step(st: RouterState, r: Report, threshold: nat): RouterState
  {
    match r
    case Succeeded(tier, model) => SuccessStep(st, tier, model)
    case Failed(tier, model) => FailureStep(st, tier, model, threshold)
  }

  function Run(st: RouterState, rs: seq<Report>, threshold: nat): RouterState
  {
    if rs == [] then st else Step(Run(st, DropLast(rs), threshold), Last(rs), threshold)
  }

  // ----- the streak a report log shows ---------------------------------------------------------

  /** Failures of `model` on `t` after its last success. */
  function TrailingFailures(rs: seq<Report>, t: Tier, model: string): nat
  {
    if rs == [] then 0
    else if Last(rs) == Failed(t, model) then TrailingFailures(DropLast(rs), t, model) + 1
    else if Last(rs) == Succeeded(t, model) then 0
    else TrailingFailures(DropLast(rs), t, model)
  }

  /** How many times the active model of `t` changed. */
  function Promotions(st: RouterState, rs: seq<Report>, threshold: nat, t: Tier): nat
  {
    if rs == [] then 0
    else
      var promoted := Lookup(Run(st, rs, threshold).active, t) != Lookup(Run(st, DropLast(rs), threshold).active, t);
      Promotions(st, DropLast(rs), threshold, t) + if promoted then 1 else 0
  }

  /** The number of reports up to and including the one that last changed the active model of `t`. */
  function LastPromotion(st: RouterState, rs: seq<Report>, threshold: nat, t: Tier): (n: nat)
    ensures n <= |rs|
  {
    if rs == [] then 0
    else if Lookup(Run(st, rs, threshold).active, t) != Lookup(Run(st, DropLast(rs), threshold).active, t) then |rs|
    else LastPromotion(st, DropLast(rs), threshold, t)
  }

  /** The reports since the active model of `t` became active. */
  function SinceActive(st: RouterState, rs: seq<Report>, threshold: nat, t: Tier): seq<Report>
  {
    rs[LastPromotion(st, rs, threshold, t)..]
  }

  // ----- positions in a failover list -------------------------------------------------------------

  lemma {:induction false} IndexOfMeaning(list: seq<string>, x: string)
    ensures IndexOf(list, x).None? <==> x !in list
    ensures IndexOf(list, x).Some? ==>
      var i := IndexOf(list, x).value; i < |list| && list[i] == x && x !in list[..i]
  {
    if list != [] && list[0] != x {
      IndexOfMeaning(list[1..], x);
      assert list == [list[0]] + list[1..];
      if x in list[1..] {
        var i := IndexOf(list[1..], x).value;
        assert list[..i + 1] == [list[0]] + list[1..][..i];
      }
    }
  }

  lemma IndexOfUnique(list: seq<string>, i: nat)
    requires NoDuplicates(list) && i < |list|
    ensures IndexOf(list, list[i]) == Some(i)
  {
    IndexOfMeaning(list, list[i]);
  }

  /** Promoting from position `i` really moves the active model to position `i + 1`. */
  ghost predicate MovesForward(list: seq<string>, i: nat)
  {
    i + 1 < |list| ==> IndexOf(list, list[i + 1]) == Some(i + 1)
  }

  /** A promotion moves forward from every position exactly when the list has no repeats. */
  lemma ForwardIffNoDuplicates(list: seq<string>)
    ensures (forall i: nat :: MovesForward(list, i)) <==> NoDuplicates(list)
  {
    hide IndexOf;
    if NoDuplicates(list) {
      forall i: nat
        ensures MovesForward(list, i)
      {
        if i + 1 < |list| {
          IndexOfUnique(list, i + 1);
        }
      }
    } else {
      var i, j :| 0 <= i < j < |list| && list[i] == list[j];
      IndexOfMeaning(list, list[j]);
      assert list[i] in list[..j];
      assert !MovesForward(list, j - 1);
    }
  }

  /** Failures of whatever is active, `n` times over. */
  function ActiveFailures(st: RouterState, n: nat, threshold: nat, t: Tier): seq<Report>
    requires t in st.active
    decreases n
  {
    if n == 0 then []
    else
      var rs := ActiveFailures(st, n - 1, threshold, t);
      var now := Run(st, rs, threshold);
      if t in now.active then rs + [Failed(t, now.active[t])] else rs
  }

  lemma PromotedAtOnce(now: RouterState, t: Tier)
    requires t in now.active && FailureCount(now.failures, t) == 0 && Successor(now, t).Some?
    ensures FailureStep(now, t, now.active[t], 1)
         == now.(active := now.active[t := Successor(now, t).value], failures := now.failures[t := 0])
  {
    hide IndexOf;
  }

  /** After `n` failures the tier is at `model`, newly promoted. */
  ghost predicate StandsAt(st: RouterState, t: Tier, n: nat, model: string)
    requires t in st.active
  {
    var now := Run(st, ActiveFailures(st, n, 1, t), 1);
    now.snapshot == st.snapshot && Lookup(now.active, t) == Some(model) && FailureCount(now.failures, t) == 0
  }

  lemma PromotionStep(st: RouterState, t: Tier, n: nat, model: string, i: nat)
    requires t in st.active && t in st.snapshot.pins && StandsAt(st, t, n, model)
    requires IndexOf(ListOf(st, t), model) == Some(i) && i + 1 < |ListOf(st, t)|
    ensures StandsAt(st, t, n + 1, ListOf(st, t)[i + 1])
  {
    hide FailureStep;
    hide IndexOf;
    var rs := ActiveFailures(st, n, 1, t);
    var now := Run(st, rs, 1);
    assert DropLast(rs + [Failed(t, now.active[t])]) == rs;
    assert ActiveFailures(st, n + 1, 1, t) == rs + [Failed(t, now.active[t])];
    hide ActiveFailures;
    PromotedAtOnce(now, t);
  }

  /** A list with a repeat: after the third failure the tier is back where it was after the first. */
  lemma RepeatedIdMovesBack(st: RouterState, t: Tier, p: string, x: string, y: string)
    requires p != x && p != y && x != y && t in st.snapshot.pins && ListOf(st, t) == [p, x, y, x]
    requires st.active == PinnedModels(st.snapshot.pins) && st.snapshot.pins[t].model == p && t !in st.failures
    ensures var second, third := Run(st, ActiveFailures(st, 2, 1, t), 1), Run(st, ActiveFailures(st, 3, 1, t), 1);
      Position(second, t) == Some(2) && Position(third, t) == Some(1) && third.active[t] == x
  {
    hide IndexOf;
    PositionsInRepeat(p, x, y);
    NoFailuresYet(st, t);
    assert StandsAt(st, t, 0, p);
    hide Run;
    hide ActiveFailures;
    ThreeSteps(st, t, p, x, y);
  }

  lemma ThreeSteps(st: RouterState, t: Tier, p: string, x: string, y: string)
    requires t in st.active && t in st.snapshot.pins && ListOf(st, t) == [p, x, y, x] && StandsAt(st, t, 0, p)
    requires var list := [p, x, y, x];
      IndexOf(list, p) == Some(0) && IndexOf(list, x) == Some(1) && IndexOf(list, y) == Some(2)
    ensures StandsAt(st, t, 2, y) && StandsAt(st, t, 3, x)
  {
    hide StandsAt;
    hide IndexOf;
    PromotionStep(st, t, 0, p, 0);
    PromotionStep(st, t, 1, x, 1);
    PromotionStep(st, t, 2, y, 2);
  }

  lemma PositionsInRepeat(p: string, x: string, y: string)
    requires p != x && p != y && x != y
    ensures var list := [p, x, y, x];
      IndexOf(list, p) == Some(0) && IndexOf(list, x) == Some(1) && IndexOf(list, y) == Some(2)
  {
    var list := [p, x, y, x];
    assert list[1..] == [x, y, x] && list[1..][1..] == [y, x];
    assert IndexOf([y, x], y) == Some(0);
    assert IndexOf([x, y, x], x) == Some(0) && IndexOf([x, y, x], y) == Some(1);
  }

  lemma NoFailuresYet(st: RouterState, t: Tier)
    requires t in st.active
    ensures Run(st, ActiveFailures(st, 0, 1, t), 1) == st
  {
  }

  /** ... and the split builds such a list: a catalog that lists `x` at two prices around `y` sends failover back
      from `y` to `x`. */
  lemma RepeatedIdInCatalogMovesBack(routing: Routing, p: CatalogModel, x: CatalogModel, y: CatalogModel, z: CatalogModel)
    requires p.id != x.id && p.id != y.id && x.id != y.id && z.id == x.id
    requires p.inputPrice < x.inputPrice < y.inputPrice < z.inputPrice
    requires forall m <- [p, x, y, z] :: InPool(routing, Trivial)(m)
    ensures var st := Fresh(Partition([p, x, y, z], routing, map[]));
      Trivial in st.active
      && var second, third := Run(st, ActiveFailures(st, 2, 1, Trivial), 1), Run(st, ActiveFailures(st, 3, 1, Trivial), 1);
      Position(second, Trivial) == Some(2) && Position(third, Trivial) == Some(1)
  {
    hide Run;
    hide ActiveFailures;
    hide Position;
    hide Partition;
    RepeatedIdInList(routing, p, x, y, z);
    RepeatedIdMovesBack(Fresh(Partition([p, x, y, z], routing, map[])), Trivial, p.id, x.id, y.id);
  }

  lemma RepeatedIdInList(routing: Routing, p: CatalogModel, x: CatalogModel, y: CatalogModel, z: CatalogModel)
    requires p.id != x.id && p.id != y.id && x.id != y.id && z.id == x.id
    requires p.inputPrice < x.inputPrice < y.inputPrice < z.inputPrice
    requires forall m <- [p, x, y, z] :: InPool(routing, Trivial)(m)
    ensures var pins := Partition([p, x, y, z], routing, map[]).pins;
      Trivial in pins && pins[Trivial] == TierPin(p.id, [p.id, x.id, y.id, x.id])
  {
    hide InPool;
    hide Partition;
    var models := [p, x, y, z];
    assert InPoolOrder(models);
    hide InPoolOrder;
    ListOfSortedCatalog(models, routing);
    assert Ids(models) == [p.id, x.id, y.id, x.id];
  }

  // ----- single steps ------------------------------------------------------------------------------

  /** Outcomes of a model the tier has moved off, or of another tier, leave the tier untouched. */
  lemma SupersededReportsChangeNothing(st: RouterState, r: Report, threshold: nat, t: Tier)
    requires r.tier != t || Lookup(st.active, t) != Some(r.model)
    ensures var next := Step(st, r, threshold);
      Lookup(next.active, t) == Lookup(st.active, t) && Lookup(next.failures, t) == Lookup(st.failures, t)
      && (r.tier == t ==> next == st)
  {
  }

  lemma StepKeepsSnapshot(st: RouterState, r: Report, threshold: nat)
    ensures Step(st, r, threshold).snapshot == st.snapshot
  {
  }

  lemma {:induction false} RunKeepsSnapshot(st: RouterState, rs: seq<Report>, threshold: nat)
    ensures Run(st, rs, threshold).snapshot == st.snapshot
  {
    if rs != [] {
      RunKeepsSnapshot(st, DropLast(rs), threshold);
    }
  }

  /** A tier whose active model stands in its own failover list. */
  ghost predicate OnList(st: RouterState, t: Tier)
  {
    t in st.active && t in st.snapshot.pins && st.active[t] in st.snapshot.pins[t].candidates
  }

  lemma StepStaysOnList(st: RouterState, r: Report, threshold: nat, t: Tier)
    requires OnList(st, t)
    ensures OnList(Step(st, r, threshold), t)
  {
  }

  lemma {:induction false} RunStaysOnList(st: RouterState, rs: seq<Report>, threshold: nat, t: Tier)
    requires OnList(st, t)
    ensures OnList(Run(st, rs, threshold), t)
  {
    if rs != [] {
      RunStaysOnList(st, DropLast(rs), threshold, t);
      StepStaysOnList(Run(st, DropLast(rs), threshold), Last(rs), threshold, t);
    }
  }

  // ----- whole runs ----------------------------------------------------------------------------------

  /** A freshly committed tier with a repeat-free list. */
  ghost predicate FreshTier(st: RouterState, t: Tier)
  {
    OnList(st, t) && NoDuplicates(st.snapshot.pins[t].candidates) && t !in st.failures
  }

  function ListOf(st: RouterState, t: Tier): seq<string>
    requires t in st.snapshot.pins
  {
    st.snapshot.pins[t].candidates
  }

  function PositionOf(st: RouterState, t: Tier): nat
    requires OnList(st, t)
  {
    IndexOfMeaning(ListOf(st, t), st.active[t]);
    IndexOf(ListOf(st, t), st.active[t]).value
  }

  /** What a report log says about a tier: promotions so far, and the streak of its active model. */
  datatype Standing = Standing(promotions: nat, streak: nat)

  function StandingOf(start: RouterState, rs: seq<Report>, threshold: nat, t: Tier): Standing
  {
    Standing(Promotions(start, rs, threshold, t),
      match Lookup(Run(start, rs, threshold).active, t)
      case None => 0
      case Some(model) => TrailingFailures(SinceActive(start, rs, threshold, t), t, model))
  }

  /** The report that completes the streak of an active model which has a successor. */
  ghost predicate Completes(st: RouterState, t: Tier, r: Report, streak: nat, threshold: nat)
    requires OnList(st, t)
  {
    r == Failed(t, st.active[t])
    && PositionOf(st, t) + 1 < |ListOf(st, t)| && streak + 1 == AtLeastOne(threshold)
  }

  ghost function Advance(st: RouterState, t: Tier, r: Report, s: Standing, threshold: nat): Standing
    requires OnList(st, t)
  {
    if Completes(st, t, r, s.streak, threshold) then Standing(s.promotions + 1, 0)
    else if r == Failed(t, st.active[t]) then s.(streak := s.streak + 1)
    else if r == Succeeded(t, st.active[t]) then s.(streak := 0)
    else s
  }

  /** The router agrees with the log about a tier: the active position has advanced once per
      promotion, and the counter is the streak. */
  ghost predicate Agrees(start: RouterState, st: RouterState, t: Tier, s: Standing, threshold: nat)
    requires OnList(start, t)
  {
    OnList(st, t) && st.snapshot == start.snapshot
    && PositionOf(st, t) == PositionOf(start, t) + s.promotions
    && FailureCount(st.failures, t) == s.streak % U32
    && (PositionOf(st, t) + 1 < |ListOf(st, t)| ==> s.streak < AtLeastOne(threshold))
  }

  lemma CountFollowsStreak(failures: map<Tier, nat>, t: Tier, streak: nat)
    requires FailureCount(failures, t) == streak % U32
    ensures NextCount(failures, t) == (streak + 1) % U32
  {
  }

  /** A failure of the active model: the streak grows, and completing it promotes the next candidate. */
  lemma ActiveFailure(start: RouterState, st: RouterState, t: Tier, s: Standing, threshold: nat)
    requires FreshTier(start, t) && threshold < U32 && Agrees(start, st, t, s, threshold)
    ensures var r := Failed(t, st.active[t]);
      var next := Step(st, r, threshold);
      (Lookup(next.active, t) != Lookup(st.active, t) <==> Completes(st, t, r, s.streak, threshold))
      && Agrees(start, next, t, Advance(st, t, r, s, threshold), threshold)
  {
    hide IndexOf;
    hide NextCount;
    var list := ListOf(st, t);
    IndexOfMeaning(list, st.active[t]);
    CountFollowsStreak(st.failures, t, s.streak);
    var p := PositionOf(st, t);
    if p + 1 < |list| {
      IndexOfUnique(list, p + 1);
      assert list[p] != list[p + 1];
      assert (s.streak + 1) % U32 == s.streak + 1;
    }
  }

  lemma TierStep(start: RouterState, st: RouterState, r: Report, t: Tier, s: Standing, threshold: nat)
    requires FreshTier(start, t) && threshold < U32 && Agrees(start, st, t, s, threshold)
    ensures var next := Step(st, r, threshold);
      (Lookup(next.active, t) != Lookup(st.active, t) <==> Completes(st, t, r, s.streak, threshold))
      && Agrees(start, next, t, Advance(st, t, r, s, threshold), threshold)
  {
    hide IndexOf;
    if r == Failed(t, st.active[t]) {
      ActiveFailure(start, st, t, s, threshold);
    } else if r != Succeeded(t, st.active[t]) {
      SupersededReportsChangeNothing(st, r, threshold, t);
      StepKeepsSnapshot(st, r, threshold);
      hide Step;
    }
  }

  lemma TrailingStep(rs: seq<Report>, r: Report, t: Tier, model: string)
    ensures TrailingFailures(rs + [r], t, model)
         == if r == Failed(t, model) then TrailingFailures(rs, t, model) + 1
            else if r == Succeeded(t, model) then 0 else TrailingFailures(rs, t, model)
  {
    assert DropLast(rs + [r]) == rs;
  }

  /** The standing read off a longer log is the standing read off the shorter one, advanced. */
  lemma StandingAdvances(start: RouterState, before: seq<Report>, r: Report, threshold: nat, t: Tier)
    requires var st := Run(start, before, threshold);
      var s := StandingOf(start, before, threshold, t);
      OnList(st, t) && OnList(Step(st, r, threshold), t)
      && (Lookup(Step(st, r, threshold).active, t) != Lookup(st.active, t) <==> Completes(st, t, r, s.streak, threshold))
    ensures Run(start, before + [r], threshold) == Step(Run(start, before, threshold), r, threshold)
    ensures StandingOf(start, before + [r], threshold, t)
         == Advance(Run(start, before, threshold), t, r, StandingOf(start, before, threshold, t), threshold)
  {
    hide IndexOf;
    hide Step;
    hide TrailingFailures;
    var rs := before + [r];
    assert DropLast(rs) == before && Last(rs) == r;
    var n := LastPromotion(start, before, threshold, t);
    assert rs[n..] == before[n..] + [r];
    TrailingStep(before[n..], r, t, Run(start, before, threshold).active[t]);
    assert rs[|rs|..] == [];
    TrailingOfNothing(t, Step(Run(start, before, threshold), r, threshold).active[t]);
  }

  lemma TrailingOfNothing(t: Tier, model: string)
    ensures TrailingFailures([], t, model) == 0
  {
  }

  /** Along every run the counter of a tier is the true streak of its active model since that became
      active, and the active position has advanced by one per promotion. */
  lemma {:induction false} RunAgreesWithLog(start: RouterState, rs: seq<Report>, threshold: nat, t: Tier)
    requires FreshTier(start, t) && threshold < U32
    ensures Agrees(start, Run(start, rs, threshold), t, StandingOf(start, rs, threshold, t), threshold)
  {
    if rs != [] {
      var before, r := DropLast(rs), Last(rs);
      assert rs == before + [r];
      RunAgreesWithLog(start, before, threshold, t);
      hide Step;
      hide Run;
      hide StandingOf;
      hide Completes;
      hide Advance;
      var st := Run(start, before, threshold);
      TierStep(start, st, r, t, StandingOf(start, before, threshold, t), threshold);
      StandingAdvances(start, before, r, threshold, t);
    }
  }

  /** Failover in full: the next report changes the active model exactly when it completes the active
      model's streak of `threshold` failures and a candidate is left, and it moves on by one position;
      at most `candidates - 1` promotions ever happen. */
  lemma PromotionExactlyAtThreshold(start: RouterState, rs: seq<Report>, r: Report, threshold: nat, t: Tier)
    requires FreshTier(start, t) && threshold < U32
    ensures var st, next := Run(start, rs, threshold), Run(start, rs + [r], threshold);
      OnList(st, t) && OnList(next, t)
      && var active := st.active[t];
      var streak := TrailingFailures(SinceActive(start, rs, threshold, t), t, active);
      (next.active[t] != active <==>
        r == Failed(t, active) && active != Last(ListOf(start, t)) && streak + 1 == AtLeastOne(threshold))
      && PositionOf(next, t) == PositionOf(st, t) + (if next.active[t] != active then 1 else 0)
      && PositionOf(start, t) + Promotions(start, rs, threshold, t) <= |ListOf(start, t)| - 1
  {
    RunAgreesWithLog(start, rs, threshold, t);
    hide Step;
    hide IndexOf;
    var st := Run(start, rs, threshold);
    TierStep(start, st, r, t, StandingOf(start, rs, threshold, t), threshold);
    assert DropLast(rs + [r]) == rs;
    var list := ListOf(start, t);
    IndexOfMeaning(list, st.active[t]);
    assert list[PositionOf(st, t)] == st.active[t];
    assert PositionOf(st, t) + 1 < |list| <==> st.active[t] != Last(list);
  }

  // ----- when failover can fire at all ---------------------------------------------------------------

  /** Whether the active model of `t` is still the one the run started with. */
  ghost predicate Unmoved(start: RouterState, rs: seq<Report>, threshold: nat, t: Tier)
  {
    Lookup(Run(start, rs, threshold).active, t) == Lookup(start.active, t)
    && SinceActive(start, rs, threshold, t) == rs
  }

  lemma FirstPromotion(start: RouterState, rs: seq<Report>, r: Report, threshold: nat, t: Tier)
    requires FreshTier(start, t) && threshold < U32 && Unmoved(start, rs, threshold, t)
    ensures var m := start.active[t];
      Unmoved(start, rs + [r], threshold, t) <==>
      !(r == Failed(t, m) && m != Last(ListOf(start, t)) && TrailingFailures(rs, t, m) + 1 == AtLeastOne(threshold))
    ensures !Unmoved(start, rs + [r], threshold, t) ==>
      Lookup(Run(start, rs + [r], threshold).active, t) != Lookup(start.active, t)
  {
    RunKeepsSnapshot(start, rs, threshold);
    hide Step;
    hide Run;
    hide FreshTier;
    hide PositionOf;
    hide TrailingFailures;
    hide SinceActive;
    hide AtLeastOne;
    PromotionExactlyAtThreshold(start, rs, r, threshold, t);
    if Lookup(Run(start, rs + [r], threshold).active, t) == Lookup(start.active, t) {
      HistoryStep(start, rs, r, threshold, t);
    }
  }

  lemma HistoryStep(start: RouterState, rs: seq<Report>, r: Report, threshold: nat, t: Tier)
    requires Lookup(Run(start, rs + [r], threshold).active, t) == Lookup(Run(start, rs, threshold).active, t)
    ensures SinceActive(start, rs + [r], threshold, t) == SinceActive(start, rs, threshold, t) + [r]
  {
    hide Run;
    assert DropLast(rs + [r]) == rs;
  }

  /** A report that does not complete the streak leaves the active model in place. */
  lemma StaysUnmoved(start: RouterState, rs: seq<Report>, r: Report, threshold: nat, t: Tier, m: string)
    requires FreshTier(start, t) && threshold < U32 && Unmoved(start, rs, threshold, t) && start.active[t] == m
    requires r != Failed(t, m) || TrailingFailures(rs, t, m) + 1 < AtLeastOne(threshold)
    ensures Unmoved(start, rs + [r], threshold, t)
  {
    hide FreshTier;
    hide Unmoved;
    hide TrailingFailures;
    FirstPromotion(start, rs, r, threshold, t);
  }

  /** `n` failures in a row of one model. */
  function Failures(t: Tier, model: string, n: nat): seq<Report>
  {
    if n == 0 then [] else Failures(t, model, n - 1) + [Failed(t, model)]
  }

  /** Short of the threshold, failures in a row only build up the streak. */
  lemma {:induction false} FailuresAccumulate(start: RouterState, t: Tier, m: string, n: nat, threshold: nat)
    requires FreshTier(start, t) && threshold < U32 && start.active[t] == m && n < AtLeastOne(threshold)
    ensures Unmoved(start, Failures(t, m, n), threshold, t)
    ensures TrailingFailures(Failures(t, m, n), t, m) == n
  {
    hide FreshTier;
    hide Unmoved;
    hide TrailingFailures;
    hide AtLeastOne;
    if n == 0 {
      NothingReported(start, threshold, t);
      TrailingOfNothing(t, m);
    } else {
      var before := Failures(t, m, n - 1);
      FailuresAccumulate(start, t, m, n - 1, threshold);
      TrailingStep(before, Failed(t, m), t, m);
      StaysUnmoved(start, before, Failed(t, m), threshold, t, m);
    }
  }

  lemma NothingReported(start: RouterState, threshold: nat, t: Tier)
    ensures Unmoved(start, [], threshold, t)
  {
  }

  /** Whatever is reported, a tier whose active model is not on its list, or ends it, stays where it is. */
  lemma {:induction false} NoSuccessorNoPromotion(start: RouterState, rs: seq<Report>, threshold: nat, t: Tier)
    requires Successor(start, t).None?
    ensures var st := Run(start, rs, threshold);
      Lookup(st.active, t) == Lookup(start.active, t) && st.snapshot == start.snapshot && Successor(st, t).None?
  {
    if rs != [] {
      hide IndexOf;
      NoSuccessorNoPromotion(start, DropLast(rs), threshold, t);
    }
  }

  lemma SuccessorMeaning(start: RouterState, t: Tier)
    requires t in start.snapshot.pins ==> NoDuplicates(start.snapshot.pins[t].candidates)
    ensures Successor(start, t).Some? <==> OnList(start, t) && start.active[t] != Last(ListOf(start, t))
  {
    if t in start.snapshot.pins && t in start.active {
      var list := ListOf(start, t);
      IndexOfMeaning(list, start.active[t]);
    }
  }

  ghost predicate EverMoves(start: RouterState, threshold: nat, t: Tier)
  {
    exists rs :: Lookup(Run(start, rs, threshold).active, t) != Lookup(start.active, t)
  }

  /** A tier can be moved off its model by some run of reports exactly when its active model is on its
      own failover list and does not end it. */
  lemma FailoverIsPossible(start: RouterState, threshold: nat, t: Tier)
    requires t in start.active && t !in start.failures && threshold < U32
    requires t in start.snapshot.pins ==> NoDuplicates(start.snapshot.pins[t].candidates)
    ensures EverMoves(start, threshold, t) <==> OnList(start, t) && start.active[t] != Last(ListOf(start, t))
  {
    SuccessorMeaning(start, t);
    hide Successor;
    hide NoDuplicates;
    if Successor(start, t).Some? {
      FailoverHappens(start, threshold, t);
    } else {
      hide OnList;
      forall rs
        ensures Lookup(Run(start, rs, threshold).active, t) == Lookup(start.active, t)
      {
        NoSuccessorNoPromotion(start, rs, threshold, t);
      }
    }
  }

  lemma FailoverHappens(start: RouterState, threshold: nat, t: Tier)
    requires FreshTier(start, t) && threshold < U32 && start.active[t] != Last(ListOf(start, t))
    ensures EverMoves(start, threshold, t)
  {
    var m := start.active[t];
    var n := AtLeastOne(threshold) - 1;
    FailuresAccumulate(start, t, m, n, threshold);
    CompletedStreakMoves(start, Failures(t, m, n), threshold, t);
  }

  lemma CompletedStreakMoves(start: RouterState, rs: seq<Report>, threshold: nat, t: Tier)
    requires FreshTier(start, t) && threshold < U32 && Unmoved(start, rs, threshold, t)
    requires start.active[t] != Last(ListOf(start, t))
    requires TrailingFailures(rs, t, start.active[t]) + 1 == AtLeastOne(threshold)
    ensures EverMoves(start, threshold, t)
  {
    hide Run;
    hide Unmoved;
    hide TrailingFailures;
    FirstPromotion(start, rs, Failed(t, start.active[t]), threshold, t);
  }

  /** A model outside its own list is never left, and its streak starts over each time it reaches the threshold. */
  lemma {:induction false} OffListStreakRestarts(st: RouterState, t: Tier, m: string, n: nat, threshold: nat)
    requires Lookup(st.active, t) == Some(m) && Position(st, t).None? && t !in st.failures && threshold < U32
    ensures var after := Run(st, Failures(t, m, n), threshold);
      Lookup(after.active, t) == Some(m) && after.snapshot == st.snapshot
      && FailureCount(after.failures, t) == n % AtLeastOne(threshold)
  {
    hide Position;
    hide Run;
    hide FailureStep;
    var k := AtLeastOne(threshold);
    assert k > 0;
    hide AtLeastOne;
    if n == 0 {
      NoFailures(st, t, m, threshold);
    } else {
      OffListStreakRestarts(st, t, m, n - 1, threshold);
      OneMoreFailure(st, t, m, n, threshold);
      var before := Run(st, Failures(t, m, n - 1), threshold);
      SamePosition(st, before, t);
      NextRemainder(n - 1, k);
      OffListStep(before, t, m, threshold);
    }
  }

  lemma NoFailures(st: RouterState, t: Tier, m: string, threshold: nat)
    ensures Run(st, Failures(t, m, 0), threshold) == st && 0 % AtLeastOne(threshold) == 0
  {
  }

  lemma OneMoreFailure(st: RouterState, t: Tier, m: string, n: nat, threshold: nat)
    requires n > 0
    ensures Run(st, Failures(t, m, n), threshold) == FailureStep(Run(st, Failures(t, m, n - 1), threshold), t, m, threshold)
  {
    hide FailureStep;
    assert DropLast(Failures(t, m, n)) == Failures(t, m, n - 1);
  }

  lemma SamePosition(a: RouterState, b: RouterState, t: Tier)
    requires a.snapshot == b.snapshot && Lookup(a.active, t) == Lookup(b.active, t)
    ensures Position(a, t) == Position(b, t)
  {
  }

  lemma OffListStep(st: RouterState, t: Tier, m: string, threshold: nat)
    requires Lookup(st.active, t) == Some(m) && Position(st, t).None? && threshold < U32
    requires FailureCount(st.failures, t) < AtLeastOne(threshold)
    ensures var after, count := FailureStep(st, t, m, threshold), FailureCount(st.failures, t) + 1;
      after.active == st.active && after.snapshot == st.snapshot
      && FailureCount(after.failures, t) == if count < AtLeastOne(threshold) then count else 0
  {
    hide IndexOf;
  }

  lemma NextRemainder(n: nat, k: nat)
    requires k > 0
    ensures n % k < k && (n + 1) % k == if n % k + 1 < k then n % k + 1 else 0
  {
    var q, r := n / k, n % k;
    assert n == k * q + r;
    if r + 1 < k {
      QuotientUnique(n + 1, k, q, r + 1);
    } else {
      QuotientUnique(n + 1, k, q + 1, 0);
    }
  }

  /** Streams served one after the other that all die mid-body: each reports the success of its headers
      first and the broken body later. */
  function StreamDeaths(t: Tier, model: string, n: nat): seq<Report>
  {
    if n == 0 then [] else (StreamDeaths(t, model, n - 1) + [Succeeded(t, model)]) + [Failed(t, model)]
  }

  lemma StreamDeathStaysUnmoved(start: RouterState, rs: seq<Report>, threshold: nat, t: Tier, m: string)
    requires FreshTier(start, t) && 2 <= threshold < U32 && start.active[t] == m
    requires Unmoved(start, rs, threshold, t)
    ensures Unmoved(start, (rs + [Succeeded(t, m)]) + [Failed(t, m)], threshold, t)
  {
    hide FreshTier;
    hide Unmoved;
    hide TrailingFailures;
    StaysUnmoved(start, rs, Succeeded(t, m), threshold, t, m);
    TrailingStep(rs, Succeeded(t, m), t, m);
    StaysUnmoved(start, rs + [Succeeded(t, m)], Failed(t, m), threshold, t, m);
  }

  lemma {:induction false} StreamDeathsKeepStreakAtOne(start: RouterState, t: Tier, m: string, n: nat, threshold: nat)
    requires FreshTier(start, t) && 2 <= threshold < U32 && start.active[t] == m
    ensures Unmoved(start, StreamDeaths(t, m, n), threshold, t)
  {
    hide FreshTier;
    hide Unmoved;
    if n == 0 {
      NothingReported(start, threshold, t);
    } else {
      StreamDeathsKeepStreakAtOne(start, t, m, n - 1, threshold);
      StreamDeathStaysUnmoved(start, StreamDeaths(t, m, n - 1), threshold, t, m);
    }
  }

  lemma OneStreamDeath(start: RouterState, t: Tier, threshold: nat)
    requires FreshTier(start, t) && threshold <= 1 && start.active[t] != Last(ListOf(start, t))
    ensures !Unmoved(start, StreamDeaths(t, start.active[t], 1), threshold, t)
  {
    var m := start.active[t];
    assert StreamDeaths(t, m, 0) == [];
    assert Unmoved(start, [], threshold, t);
    hide FreshTier;
    hide Unmoved;
    FirstPromotion(start, [], Succeeded(t, m), threshold, t);
    TrailingStep([], Succeeded(t, m), t, m);
    FirstPromotion(start, [] + [Succeeded(t, m)], Failed(t, m), threshold, t);
  }

  /** Serial mid-stream deaths retire a model with a successor exactly when one failure is enough. */
  lemma StreamDeathsPromoteOnlyAtThresholdOne(start: RouterState, t: Tier, threshold: nat)
    requires FreshTier(start, t) && threshold < U32 && start.active[t] != Last(ListOf(start, t))
    ensures (exists n: nat :: !Unmoved(start, StreamDeaths(t, start.active[t], n), threshold, t)) <==> threshold <= 1
  {
    hide Unmoved;
    if threshold <= 1 {
      OneStreamDeath(start, t, threshold);
    } else {
      forall n: nat
        ensures Unmoved(start, StreamDeaths(t, start.active[t], n), threshold, t)
      {
        StreamDeathsKeepStreakAtOne(start, t, start.active[t], n, threshold);
      }
    }
  }

  // ----- reasoning capability ---------------------------------------------------------------------------

  /** After a refresh that found a reasoning-capable model, no run of reports routes the Reasoning tier
      to a model that cannot reason. */
  lemma ReasoningTierKeepsReasoning(models: seq<CatalogModel>, routing: Routing, held: Pins, now: nat,
      rs: seq<Report>, threshold: nat)
    requires routing.filters.preferReasoningPin
    requires exists m <- Pool(models, routing, Reasoning) :: m.reasoning
    ensures var st := Run(Fresh(RefreshSnapshot(models, routing, held, held, now)), rs, threshold);
      Reasoning in st.active && exists m <- models :: m.id == st.active[Reasoning] && m.reasoning
  {
    hide RefreshedPins;
    hide Step;
    var start := Fresh(RefreshSnapshot(models, routing, held, held, now));
    RefreshPinsReasoning(models, routing, held, held);
    RunStaysOnList(start, rs, threshold, Reasoning);
    RunKeepsSnapshot(start, rs, threshold);
  }

  lemma FailoverListHeadsItself(pin: TierPin, pool: seq<CatalogModel>, t: Tier, filters: Filters)
    requires IsFailoverList(pin, pool, t, filters)
    ensures pin.model in pin.candidates && NoDuplicates(pin.candidates)
  {
    assert pin.candidates[0] in pin.candidates;
  }

  lemma RefreshedListIsClean(models: seq<CatalogModel>, routing: Routing, held: Pins, t: Tier)
    requires UniqueIds(models) && Pool(models, routing, t) != []
    ensures var pins := RefreshedPins(models, routing, held, held);
      t in pins && pins[t].model in pins[t].candidates && NoDuplicates(pins[t].candidates)
  {
    PoolMeaning(models, routing, t);
    hide *;
    RefreshedPin(models, routing, held, held, t);
    PinForIsFailoverList(Pool(models, routing, t), t, routing, Lookup(held, t));
    FailoverListHeadsItself(PinFor(Pool(models, routing, t), t, routing, Lookup(held, t)), Pool(models, routing, t), t, routing.filters);
  }

  /** A refresh of a tier with unique-id candidates starts it fresh, so the run laws above apply to it. */
  lemma RefreshStartsFresh(models: seq<CatalogModel>, routing: Routing, held: Pins, now: nat, t: Tier)
    requires UniqueIds(models) && Pool(models, routing, t) != []
    ensures FreshTier(Fresh(RefreshSnapshot(models, routing, held, held, now)), t)
  {
    hide RefreshedPins;
    RefreshedListIsClean(models, routing, held, t);
  }
}
