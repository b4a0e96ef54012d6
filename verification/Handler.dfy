/** The request handler as it is written, one request from its cache lookup to its answer (`completions_inner`
    in main.rs), and the steps of the interleaved model it amounts to. */
module Handler {
  import opened Basics
  import opened Tiers
  import opened Permissions
  import opened Quota
  import opened QualityGate
  import opened Gateway
  import opened OldestFirst
  import Session
  import Router
  import Outcomes
  import Failover
  import SpendLedger
  import Exact = ResponseCache
  import Semantic = SemanticCache

  /** What one request meets: the clock at each step that reads it, and what lies outside the gateway. */
  datatype Encounter = Encounter(
    exactNow: nat, similarNow: nat, storeNow: nat, storeSimilarNow: nat, firstMonth: nat, retryMonth: nat,
    isEquivalent: Option<bool>, classified: Option<Classification>, session: Option<Tier>,
    reply: Reply, score: Option<real>, retryReply: Reply, retryScore: Option<real>)

  /** The active models the catalog router gives for the request's tier and for the tier above. */
  datatype Actives = Actives(own: Option<string>, above: Option<string>)

  // ----- the ten steps, in order -----------------------------------------------------------------------

  ghost function ActOn(cfg: Settings, e: Effect, a: Action): Effect
  {
    Act(cfg, e.task, e.exact, e.similar, a)
  }

  ghost function Looked(cfg: Settings, e: Effect, x: Encounter): Effect
  {
    ActOn(cfg, ActOn(cfg, e, LookUpExact(x.exactNow)), LookUpSimilar(x.similarNow, x.isEquivalent))
  }

  ghost function Forwarded(cfg: Settings, e: Effect, x: Encounter, own: Option<string>): Effect
  {
    ActOn(cfg, ActOn(cfg, e, Classify(x.classified, x.session)), Forward(own, x.reply))
  }

  ghost function Settled(cfg: Settings, e: Effect, x: Encounter, above: Option<string>): Effect
  {
    var read := ActOn(cfg, ActOn(cfg, e, Charge), ReadBody);
    ActOn(cfg, ActOn(cfg, read, Judge(x.score, above, x.retryReply)), ChargeRetry(x.retryScore))
  }

  ghost function Kept(cfg: Settings, e: Effect, x: Encounter, kept: Exact.Entries): Effect
  {
    ActOn(cfg, ActOn(cfg, e, StoreExact(x.storeNow, kept)), StoreSimilar(x.storeSimilarNow))
  }

  /** A request served with no other in between; `kept` is what the exact cache keeps when it makes room. */
  ghost function Serially(cfg: Settings, e: Effect, x: Encounter, m: Actives, kept: Exact.Entries): Effect
  {
    Kept(cfg, Settled(cfg, Forwarded(cfg, Looked(cfg, e, x), x, m.own), x, m.above), x, kept)
  }

  /** The first charge falls in the month of the first call, the second in that of the retry. */
  function Charged(spend: map<string, Spend>, key: Option<ApiKey>, tariff: Tariff, x: Encounter, times: nat): map<string, Spend>
  {
    var once := ChargeStep(spend, key, tariff, x.firstMonth);
    if times == 0 then spend else if times == 1 then once else ChargeStep(once, key, tariff, x.retryMonth)
  }

  lemma DoneStays(cfg: Settings, e: Effect, x: Encounter, m: Actives, kept: Exact.Entries)
    requires e.task.phase.Done?
    ensures Forwarded(cfg, e, x, m.own) == e && Settled(cfg, e, x, m.above) == e && Kept(cfg, e, x, kept) == e
  {
    assert forall a :: ActOn(cfg, e, a) == e;
    hide Act;
    hide ActOn;
  }

  lemma LookedMeaning(cfg: Settings, e: Effect, x: Encounter)
    requires e.task.phase == LookingUpExact
    ensures var exact := Exact.GetStep(e.exact, e.task.request.hash, x.exactNow, cfg.exactTtl);
      var first := ExactStep(cfg, e.task, e.exact, x.exactNow);
      Looked(cfg, e, x) ==
        if first.Done? then Effect(e.task.(phase := first), exact, e.similar)
        else if !MayBeSimilar(cfg, e.task.request) then Effect(e.task.(phase := Classifying), exact, e.similar)
        else
          var live := LiveEntries(cfg, e.similar, x.similarNow);
          Effect(e.task.(phase := SimilarStep(cfg, e.task, live, x.isEquivalent)), exact, live)
  {
    hide LiveEntries;
    hide Semantic.Best;
    hide MayBeSimilar;
    hide IsPermitted;
  }

  lemma ForwardedMeaning(cfg: Settings, e: Effect, x: Encounter, own: Option<string>)
    requires e.task.phase == Classifying
    ensures var p := ClassifyStep(cfg, e.task, x.classified, x.session);
      Forwarded(cfg, e, x, own) ==
        if !p.Forwarding? then e.(task := e.task.(phase := p))
        else
          var call := Call(p.tier, RouteModel(cfg.gate, p.tier, own), x.reply);
          e.(task := e.task.(calls := e.task.calls + [call], phase := ReplyStep(cfg, e.task, p.c, call)))
  {
    hide EffectiveTier;
    hide IsPermitted;
  }

  function InputsOf(task: Task, x: Encounter, above: Option<string>): Inputs
    requires task.phase.Charging?
  {
    Inputs(task.key, task.request.shape, task.phase.c, task.phase.first, x.score, above, x.retryReply, x.retryScore)
  }

  lemma SettledMeaning(cfg: Settings, e: Effect, x: Encounter, above: Option<string>)
    requires e.task.phase.Charging? && Succeeds(e.task.phase.first.reply)
    ensures var i := InputsOf(e.task, x, above);
      var after := Settled(cfg, e, x, above);
      after.exact == e.exact && after.similar == e.similar
      && after.task.key == e.task.key && after.task.request == e.task.request
      && (i.first.reply.complete ==>
            after.task.phase == StoringExact(AnswerOf(cfg.gate, ServedCall(cfg.gate, i)))
            && after.task.charges == e.task.charges + (if IsRetryBilled(cfg.gate, i) then 2 else 1)
            && after.task.calls == e.task.calls + Retries(cfg, i))
      && (!i.first.reply.complete ==>
            after.task == e.task.(phase := Done(Failed), charges := e.task.charges + 1))
  {
    hide RetryTier;
    hide FirstCheck;
    hide Keeps;
    hide AnswerOf;
    var i := InputsOf(e.task, x, above);
    var unscored := i.(retryScore := None);
    assert RetryOf(cfg.gate, unscored) == RetryOf(cfg.gate, i);
    assert unscored.(retryScore := x.retryScore) == i;
    assert e.task.calls + [] == e.task.calls;
  }

  function Retries(cfg: Settings, i: Inputs): seq<Call>
    requires i.first.reply.Reply?
  {
    var retry := RetryOf(cfg.gate, i);
    if retry.Some? then [retry.value] else []
  }

  lemma KeptMeaning(cfg: Settings, e: Effect, x: Encounter, kept: Exact.Entries)
    requires e.task.phase.StoringExact? && Evicts(e.exact, kept, cfg.exactCapacity)
    ensures var stored := Stored(e.task.phase.answer);
      Kept(cfg, e, x, kept) == Effect(
        e.task.(phase := Done(Served(Fresh, stored))),
        kept[e.task.request.hash := Stamped(stored, x.storeNow)],
        SimilarStore(cfg, e.task, e.similar, e.task.phase.answer, x.storeSimilarNow))
  {
    hide Evicts;
  }

  // ----- the handler --------------------------------------------------------------------------------------

  /** The two cache lookups; a hit ends the request. */
  method LookUp(cfg: Settings, exact: Exact.ResponseCache, similar: Semantic.SemanticCache, task: Task, x: Encounter)
    returns (hit: Option<Result>)
    requires exact.ttl == cfg.exactTtl && similar.ttl == cfg.semanticTtl
    requires similar.threshold == cfg.candidateThreshold && similar.similarity == cfg.similarity
    requires task.phase == LookingUpExact
    modifies exact`entries, similar`entries
    ensures Looked(cfg, Effect(task, old(exact.entries), old(similar.entries)), x)
         == Effect(task.(phase := if hit.Some? then Done(hit.value) else Classifying), exact.entries, similar.entries)
  {
    hide Looked;
    hide IsPermitted;
    hide Filter;
    hide Semantic.Best;
    LookedMeaning(cfg, Effect(task, exact.entries, similar.entries), x);
    var request := task.request;
    var cached := exact.Get(request.hash, x.exactNow);
    if cached.Some? {
      var isAllowed := TierPermitted(task.key, cached.value.tier);
      if isAllowed {
        return Some(Served(ExactHit, cached.value));
      }
    }
    if MayBeSimilar(cfg, request) {
      var best := similar.Lookup(cfg.embed(TextOf(request)), Tenant(task.key), x.similarNow);
      if best.Some? {
        var isAllowed := TierPermitted(task.key, best.value.entry.response.tier);
        if IsEquivalent(cfg, x.isEquivalent, best.value) && isAllowed {
          return Some(Served(SemanticHit, best.value.entry.response));
        }
      }
    }
    return None;
  }

  /** Classification, session continuity, the permission gate, the first upstream call and the report of its outcome. */
  method Route(cfg: Settings, router: Router.CatalogRouter, threshold: nat, task: Task, x: Encounter,
      ghost exact: Exact.Entries, ghost similar: seq<Semantic.Entry>)
    returns (after: Task, own: Option<string>)
    requires task.phase == Classifying && task.calls == [] && task.charges == 0
    modifies router`failures, router`active
    ensures Forwarded(cfg, Effect(task, exact, similar), x, own) == Effect(after, exact, similar)
    ensures after.key == task.key && after.request == task.request && after.charges == 0
    ensures after.phase.Done? || (after.phase.Charging? && Succeeds(after.phase.first.reply) && after.calls == [after.phase.first])
    ensures after.phase.Charging? ==> after.phase.first.tier in cfg.gate.routes
    ensures |after.calls| <= 1
    ensures after.calls != [] ==> own == ActiveFor(old(router.State()), after.calls[0].tier)
    ensures router.State() == AfterCalls(cfg, old(router.State()), after.calls, threshold)
  {
    hide Forwarded;
    hide IsPermitted;
    hide EffectiveTier;
    hide Outcomes.ReportsOf;
    hide AfterCalls;
    hide Failover.Run;
    hide AnswerOf;
    hide RouteModel;
    hide FormatTier;
    after, own := task, None;
    ghost var begin := router.State();
    NothingReported(cfg, begin, threshold);
    if x.classified.None? {
      ForwardedMeaning(cfg, Effect(task, exact, similar), x, own);
      after := task.(phase := Done(Failed));
      return;
    }
    var c := Session.Continued(x.classified.value, x.session);
    var tier := ComputeEffectiveTier(task.request.shape, c, cfg.gate.confidenceThreshold);
    own := router.ActiveModel(tier);
    ForwardedMeaning(cfg, Effect(task, exact, similar), x, own);
    if tier !in cfg.gate.routes {
      after := task.(phase := Done(Failed));
      return;
    }
    var isAllowed := TierPermitted(task.key, FormatTier(tier));
    if !isAllowed {
      after := task.(phase := Done(Refused));
      return;
    }
    var call := Call(tier, RouteModel(cfg.gate, tier, own), x.reply);
    assert task.calls + [call] == [call];
    after := task.(calls := [call]);
    OneCallReported(cfg, begin, call, threshold);
    Outcomes.ReportOutcome(router, cfg.gate.catalogEnabled, tier, call.model, Outcomes.StatusOf(x.reply), threshold);
    if x.reply.Unreachable? {
      after := after.(phase := Done(Failed));
    } else if Succeeds(x.reply) && !task.request.isStream {
      after := after.(phase := Charging(c, call));
    } else {
      after := after.(phase := Done(Served(Relayed, Stored(AnswerOf(cfg.gate, call)))));
    }
  }

  function ActiveFor(st: Router.RouterState, tier: Tier): Option<string>
  {
    if tier in st.active then Some(st.active[tier]) else None
  }

  /** The router once the outcome of each of these calls is reported, in order. */
  function AfterCalls(cfg: Settings, st: Router.RouterState, calls: seq<Call>, threshold: nat): Router.RouterState
  {
    Failover.Run(st, Outcomes.ReportsOfCalls(cfg.gate.catalogEnabled, calls), threshold)
  }

  /** Charging, the quality gate and its retry, and the report of the retry's outcome. */
  method SettleAndReport(cfg: Settings, router: Router.CatalogRouter, quotas: QuotaEnforcer, threshold: nat,
      tariff: Tariff, task: Task, x: Encounter)
    returns (settled: Option<Settlement>, above: Option<string>)
    requires task.phase.Charging? && Succeeds(task.phase.first.reply) && task.calls == [task.phase.first] && task.charges == 0
    modifies router`failures, router`active, quotas`spend
    ensures var i := InputsOf(task, x, above);
      (settled.Some? <==> i.first.reply.complete)
      && (settled.Some? ==> settled.value.answer == AnswerOf(cfg.gate, ServedCall(cfg.gate, i)))
      && quotas.spend == Charged(old(quotas.spend), task.key, tariff, x,
           if settled.Some? && IsRetryBilled(cfg.gate, i) then 2 else 1)
      && router.State() == Failover.Run(old(router.State()), RetryReports(cfg, i), threshold)
      && (RetryOf(cfg.gate, i).Some? ==> above == ActiveFor(old(router.State()), RetryOf(cfg.gate, i).value.tier))
  {
    hide EffectiveTier;
    hide FirstCheck;
    hide ChargeStep;
    hide AnswerOf;
    hide BilledCalls;
    hide PromptTokens;
    hide CompletionTokens;
    hide IsPermitted;
    hide Outcomes.ReportsOf;
    var next := NextTier(ComputedTier(cfg, task));
    above := None;
    if next.Some? {
      above := router.ActiveModel(next.value);
    }
    var i := InputsOf(task, x, above);
    var reported;
    settled, reported := Settle(cfg.gate, quotas, tariff, i, x.firstMonth, x.retryMonth);
    if reported.Some? {
      var o := reported.value;
      Outcomes.ReportOutcome(router, cfg.gate.catalogEnabled, o.tier, o.model, o.status, threshold);
    }
  }

  function ComputedTier(cfg: Settings, task: Task): Tier
    requires task.phase.Charging?
  {
    EffectiveTier(task.request.shape, task.phase.c, cfg.gate.confidenceThreshold)
  }

  /** What the retry, if there is one, makes the gateway report. */
  function RetryReports(cfg: Settings, i: Inputs): seq<Failover.Report>
    requires i.first.reply.Reply?
  {
    if !i.first.reply.complete then []
    else
      match RetryOf(cfg.gate, i)
      case None => []
      case Some(call) => Outcomes.ReportsOf(cfg.gate.catalogEnabled, call.tier, call.model, Outcomes.StatusOf(call.reply))
  }

  lemma ReportsOfRetry(cfg: Settings, i: Inputs, st: Router.RouterState, threshold: nat)
    requires i.first.reply.Reply? && i.first.reply.complete
    ensures AfterCalls(cfg, st, [i.first] + Retries(cfg, i), threshold)
         == Failover.Run(AfterCalls(cfg, st, [i.first], threshold), RetryReports(cfg, i), threshold)
  {
    hide RetryOf;
    hide Outcomes.ReportsOf;
    if RetryOf(cfg.gate, i).Some? {
      Outcomes.OneMoreCall(st, cfg.gate.catalogEnabled, [i.first], RetryOf(cfg.gate, i).value, threshold);
    } else {
      assert [i.first] + [] == [i.first];
    }
  }

  /** The settled answer goes to the exact cache and, if it calls no tools, to the semantic one. */
  method Keep(cfg: Settings, exact: Exact.ResponseCache, similar: Semantic.SemanticCache, task: Task, x: Encounter)
    returns (ghost kept: Exact.Entries)
    requires exact.capacity == cfg.exactCapacity && similar.capacity == cfg.semanticCapacity
    requires task.phase.StoringExact?
    modifies exact`entries, similar`entries
    ensures Evicts(old(exact.entries), kept, cfg.exactCapacity)
    ensures Kept(cfg, Effect(task, old(exact.entries), old(similar.entries)), x, kept)
         == Effect(task.(phase := Done(Served(Fresh, Stored(task.phase.answer)))), exact.entries, similar.entries)
  {
    hide Kept;
    hide Semantic.StoreStep;
    ghost var e := Effect(task, exact.entries, similar.entries);
    var answer := task.phase.answer;
    exact.Store(task.request.hash, Stored(answer), x.storeNow);
    kept :| Evicts(e.exact, kept, cfg.exactCapacity) && exact.entries == kept[task.request.hash := Stamped(Stored(answer), x.storeNow)];
    KeptMeaning(cfg, e, x, kept);
    if cfg.cacheEnabled && cfg.semanticEnabled && !cfg.gate.parse(answer.body).hasToolCalls {
      var text := TextOf(Sent(cfg, task));
      similar.Store(cfg.embed(text), text, Stored(answer), Tenant(task.key), x.storeSimilarNow);
    }
  }

  /** One admitted request, start to finish. Its answer, both caches, the budget record and the catalog router are
      those of the ten steps taken in order, with every call's outcome reported once and each active model read
      when its call is made. */
  method Complete(cfg: Settings, exact: Exact.ResponseCache, similar: Semantic.SemanticCache, quotas: QuotaEnforcer,
      router: Router.CatalogRouter, threshold: nat, price: Option<real>, key: Option<ApiKey>, request: Request, x: Encounter)
    returns (result: Result, ghost m: Actives, ghost kept: Exact.Entries)
    requires exact.capacity == cfg.exactCapacity && exact.ttl == cfg.exactTtl
    requires similar.capacity == cfg.semanticCapacity && similar.ttl == cfg.semanticTtl
    requires similar.threshold == cfg.candidateThreshold && similar.similarity == cfg.similarity
    modifies exact`entries, similar`entries, quotas`spend, router`failures, router`active
    ensures var start := Effect(Task(key, request, LookingUpExact, [], 0), old(exact.entries), old(similar.entries));
      var end := Serially(cfg, start, x, m, kept);
      var calls := end.task.calls;
      end.task.phase == Done(result) && exact.entries == end.exact && similar.entries == end.similar
      && quotas.spend == Charged(old(quotas.spend), key, Tariff(price, Estimate(Sent(cfg, end.task))), x, end.task.charges)
      && router.State() == AfterCalls(cfg, old(router.State()), calls, threshold)
      && (|calls| >= 1 ==> m.own == ActiveFor(old(router.State()), calls[0].tier))
      && (|calls| >= 2 ==> m.above == ActiveFor(AfterCalls(cfg, old(router.State()), calls[..1], threshold), calls[1].tier))
  {
    hide Looked;
    hide Forwarded;
    hide Settled;
    hide Kept;
    hide IsRetryBilled;
    hide AnswerOf;
    hide ServedCall;
    hide SimilarStore;
    hide RetryOf;
    hide RetryReports;
    hide AfterCalls;
    hide ChargeStep;
    var task := Task(key, request, LookingUpExact, [], 0);
    kept := exact.entries;
    m := Actives(None, None);
    ghost var begin := router.State();
    var hit := LookUp(cfg, exact, similar, task, x);
    ghost var looked := Effect(task.(phase := if hit.Some? then Done(hit.value) else Classifying), exact.entries, similar.entries);
    if hit.Some? {
      DoneStays(cfg, looked, x, m, kept);
      NothingReported(cfg, begin, threshold);
      return hit.value, m, kept;
    }
    var own;
    task, own := Route(cfg, router, threshold, task.(phase := Classifying), x, exact.entries, similar.entries);
    ghost var routed := Effect(task, exact.entries, similar.entries);
    m := Actives(own, None);
    if task.phase.Done? {
      DoneStays(cfg, routed, x, m, kept);
      return task.phase.result, m, kept;
    }
    var tariff := Tariff(price, Estimate(Sent(cfg, task)));
    ghost var between := router.State();
    var settled, above := SettleAndReport(cfg, router, quotas, threshold, tariff, task, x);
    m := Actives(own, above);
    ghost var i := InputsOf(task, x, above);
    SettledMeaning(cfg, routed, x, above);
    ghost var after := Settled(cfg, routed, x, above);
    if settled.None? {
      DoneStays(cfg, after, x, m, kept);
      BrokenBodyReportsNothing(cfg, i, between, threshold);
      return Failed, m, kept;
    }
    ReportsOfRetry(cfg, i, begin, threshold);
    task := task.(phase := StoringExact(settled.value.answer));
    kept := Keep(cfg, exact, similar, task, x);
    KeptIgnoresHistory(cfg, after, Effect(task, after.exact, after.similar), x, kept);
    RetryIsLast(cfg, i, after.task.calls);
    return Served(Fresh, Stored(settled.value.answer)), m, kept;
  }

  lemma OneCallReported(cfg: Settings, st: Router.RouterState, call: Call, threshold: nat)
    ensures AfterCalls(cfg, st, [call], threshold)
         == Failover.Run(st, Outcomes.ReportsOf(cfg.gate.catalogEnabled, call.tier, call.model, Outcomes.StatusOf(call.reply)), threshold)
  {
    hide Outcomes.ReportsOf;
    NothingReported(cfg, st, threshold);
    Outcomes.OneMoreCall(st, cfg.gate.catalogEnabled, [], call, threshold);
    assert [] + [call] == [call];
  }

  lemma NothingReported(cfg: Settings, st: Router.RouterState, threshold: nat)
    ensures AfterCalls(cfg, st, [], threshold) == st
  {
  }

  lemma BrokenBodyReportsNothing(cfg: Settings, i: Inputs, st: Router.RouterState, threshold: nat)
    requires i.first.reply.Reply? && !i.first.reply.complete
    ensures Failover.Run(st, RetryReports(cfg, i), threshold) == st
  {
  }

  lemma RetryIsLast(cfg: Settings, i: Inputs, calls: seq<Call>)
    requires i.first.reply.Reply? && calls == [i.first] + Retries(cfg, i)
    ensures |calls| >= 2 ==> RetryOf(cfg.gate, i).Some? && calls[1] == RetryOf(cfg.gate, i).value
    ensures calls[..1] == [i.first]
  {
    hide RetryOf;
  }

  /** Storing an answer looks at the request and the answer, not at how it was come by. */
  lemma KeptIgnoresHistory(cfg: Settings, e: Effect, f: Effect, x: Encounter, kept: Exact.Entries)
    requires e.exact == f.exact && e.similar == f.similar
    requires e.task.key == f.task.key && e.task.request == f.task.request && e.task.phase == f.task.phase
    requires e.task.phase.StoringExact? && Sent(cfg, e.task) == Sent(cfg, f.task)
    requires Evicts(e.exact, kept, cfg.exactCapacity)
    ensures var a, b := Kept(cfg, e, x, kept), Kept(cfg, f, x, kept);
      a.exact == b.exact && a.similar == b.similar && a.task.phase == b.task.phase && a.task.charges == e.task.charges
      && Sent(cfg, a.task) == Sent(cfg, e.task) && a.task.calls == e.task.calls
  {
    hide Kept;
    hide Evicts;
    hide SimilarStore;
    KeptMeaning(cfg, e, x, kept);
    KeptMeaning(cfg, f, x, kept);
    SimilarStoreSame(cfg, e.task, f.task, e.similar, e.task.phase.answer, x.storeSimilarNow);
  }

  lemma SimilarStoreSame(cfg: Settings, a: Task, b: Task, similar: seq<Semantic.Entry>, answer: Answer, now: nat)
    requires a.key == b.key && Sent(cfg, a) == Sent(cfg, b)
    ensures SimilarStore(cfg, a, similar, answer, now) == SimilarStore(cfg, b, similar, answer, now)
  {
    hide Semantic.StoreStep;
  }

  // ----- what is called, and for how much --------------------------------------------------------------

  /** The first call goes to the lowest tier at or above the session's, the classifier's and every floor, and to that
      tier's active model when the catalog routes, else to its configured one. */
  lemma FirstCallIsRouted(cfg: Settings, e: Effect, x: Encounter, own: Option<string>)
    requires e.task.phase == Classifying && e.task.calls == []
    ensures var calls := Forwarded(cfg, e, x, own).task.calls;
      calls != [] ==>
        |calls| == 1 && x.classified.Some? && calls[0].reply == x.reply && calls[0].tier in cfg.gate.routes
        && calls[0].tier == EffectiveTier(e.task.request.shape, Session.Continued(x.classified.value, x.session), cfg.gate.confidenceThreshold)
        && (x.session.Some? ==> Rank(x.session.value) <= Rank(calls[0].tier))
        && (cfg.gate.catalogEnabled && own.Some? ==> calls[0].model == own.value)
        && (!cfg.gate.catalogEnabled || own.None? ==> calls[0].model == cfg.gate.routes[calls[0].tier].model)
  {
    hide Forwarded;
    hide IsPermitted;
    hide AnswerOf;
    ForwardedMeaning(cfg, e, x, own);
  }

  /** A request that nothing keeps from being served is called: it is classified, its tier is configured and permitted. */
  lemma RoutableRequestIsCalled(cfg: Settings, e: Effect, x: Encounter, own: Option<string>)
    requires e.task.phase == Classifying && e.task.calls == [] && x.classified.Some?
    requires var tier := EffectiveTier(e.task.request.shape, Session.Continued(x.classified.value, x.session), cfg.gate.confidenceThreshold);
      tier in cfg.gate.routes && IsPermitted(e.task.key, FormatTier(tier))
    ensures |Forwarded(cfg, e, x, own).task.calls| == 1
  {
    hide Forwarded;
    hide IsPermitted;
    hide EffectiveTier;
    hide AnswerOf;
    ForwardedMeaning(cfg, e, x, own);
  }

  /** A request whose tier its key may not use is refused without a call, one whose tier is not configured fails. */
  lemma ForbiddenTierIsRefused(cfg: Settings, e: Effect, x: Encounter, own: Option<string>)
    requires e.task.phase == Classifying && e.task.calls == [] && x.classified.Some?
    ensures var tier := EffectiveTier(e.task.request.shape, Session.Continued(x.classified.value, x.session), cfg.gate.confidenceThreshold);
      var after := Forwarded(cfg, e, x, own).task;
      (tier in cfg.gate.routes && !IsPermitted(e.task.key, FormatTier(tier)) ==> after.calls == [] && after.phase == Done(Refused))
      && (tier !in cfg.gate.routes ==> after.calls == [] && after.phase == Done(Failed))
  {
    hide Forwarded;
    hide IsPermitted;
    hide EffectiveTier;
    hide AnswerOf;
    ForwardedMeaning(cfg, e, x, own);
  }

  /** A call is charged for the limit the request sets, else the one its route sets, else 512 tokens. */
  lemma ChargedForTheLimit(request: Request, route: Route)
    ensures request.prompt.maxTokens.Some? ==> Estimate(Filled(request, route)) == request.prompt.maxTokens.value
    ensures request.prompt.maxTokens.None? && route.maxTokens.Some? ==> Estimate(Filled(request, route)) == route.maxTokens.value
    ensures request.prompt.maxTokens.None? && route.maxTokens.None? ==> Estimate(Filled(request, route)) == 512
  {
  }

  // ----- the handler's charges in the ledger ---------------------------------------------------------------

  /** The ledger operations of a request's charges. */
  function ChargeOps(key: ApiKey, estimate: nat, x: Encounter, times: nat): seq<SpendLedger.Op>
  {
    var first := SpendLedger.Charge(key.id, x.firstMonth, estimate);
    if times == 0 then [] else if times == 1 then [first] else [first] + [SpendLedger.Charge(key.id, x.retryMonth, estimate)]
  }

  lemma ChargesAreLedgerOps(spend: map<string, Spend>, key: ApiKey, tariff: Tariff, x: Encounter, times: nat)
    requires tariff.price.Some?
    ensures Charged(spend, Some(key), tariff, x, times)
         == SpendLedger.Adjusted(spend, ChargeOps(key, tariff.estimate, x, times), tariff.price.value)
  {
    hide SpendStep;
    hide SpendLedger.Cost;
    var ops, price := ChargeOps(key, tariff.estimate, x, times), tariff.price.value;
    if times >= 1 {
      SpendLedger.OneMoreOp(spend, [], ops[0], price);
      assert [] + [ops[0]] == [ops[0]];
    }
    if times >= 2 {
      SpendLedger.OneMoreOp(spend, [ops[0]], ops[1], price);
    }
  }

  /** The charges of a plain request continue a conserving ledger: in its months' order, whatever was in the ledger
      before, the key's record is then what the ledger owes with those charges in it. */
  lemma PlainRequestConserves(log: seq<SpendLedger.Op>, key: ApiKey, tariff: Tariff, x: Encounter, times: nat, window: nat)
    requires tariff.price.Some? && 0.0 <= tariff.price.value && x.firstMonth <= x.retryMonth <= window
    requires SpendLedger.WellFormed(log) && SpendLedger.Quiet(log)
    requires forall p <- log :: p.key == key.id ==> p.window <= x.firstMonth
    ensures var price := tariff.price.value;
      var longer := log + ChargeOps(key, tariff.estimate, x, times);
      SpendLedger.WellFormed(longer) && SpendLedger.Quiet(longer)
      && Recorded(Charged(SpendLedger.SpendAfter(log, price), Some(key), tariff, x, times), key.id, window)
         == SpendLedger.Owed(longer, price, key.id, window)
  {
    hide Charged;
    hide SpendLedger.Owed;
    hide SpendLedger.Adjusted;
    var ops, price := ChargeOps(key, tariff.estimate, x, times), tariff.price.value;
    ChargesFollow(log, key, tariff.estimate, x, times);
    ChargesAreLedgerOps(SpendLedger.SpendAfter(log, price), key, tariff, x, times);
    SpendLedger.AdjustedIsSpendAfter(log, ops, price);
    assert forall p <- log + ops :: p in log || p in ops;
    hide SpendLedger.WellFormed;
    SpendLedger.RecordIsOwed(log + ops, price, key.id, window);
  }

  lemma ChargesFollow(log: seq<SpendLedger.Op>, key: ApiKey, estimate: nat, x: Encounter, times: nat)
    requires SpendLedger.WellFormed(log) && SpendLedger.Quiet(log) && x.firstMonth <= x.retryMonth
    requires forall p <- log :: p.key == key.id ==> p.window <= x.firstMonth
    ensures SpendLedger.WellFormed(log + ChargeOps(key, estimate, x, times))
    ensures SpendLedger.Quiet(log + ChargeOps(key, estimate, x, times))
  {
    var ops := ChargeOps(key, estimate, x, times);
    if times == 0 {
      assert log + ops == log;
    } else {
      ChargeFollows(log, ops[0]);
      if times >= 2 {
        assert forall p <- log + [ops[0]] :: p in log || p == ops[0];
        ChargeFollows(log + [ops[0]], ops[1]);
        assert log + [ops[0]] + [ops[1]] == log + ops;
      }
    }
  }

  lemma ChargeFollows(log: seq<SpendLedger.Op>, op: SpendLedger.Op)
    requires SpendLedger.WellFormed(log) && SpendLedger.Quiet(log) && op.Charge?
    requires forall p <- log :: p.key == op.key ==> p.window <= op.window
    ensures SpendLedger.WellFormed(log + [op]) && SpendLedger.Quiet(log + [op])
  {
    assert DropLast(log + [op]) == log;
    assert forall p <- log + [op] :: p in log || p == op;
  }

  // ----- the handler's runs are runs of the interleaved model ------------------------------------------------

  ghost function With(tasks: seq<Task>, e: Effect): Sys
  {
    Sys(tasks + [e.task], e.exact, e.similar)
  }

  lemma RunStep(cfg: Settings, run: seq<Event>, tasks: seq<Task>, e: Effect, a: Action) returns (longer: seq<Event>)
    requires Execute(cfg, run) == With(tasks, e)
    ensures run <= longer && Execute(cfg, longer) == With(tasks, ActOn(cfg, e, a))
  {
    hide Act;
    longer := run + [Step(|tasks|, a)];
    assert DropLast(longer) == run;
    assert (tasks + [e.task])[|tasks| := ActOn(cfg, e, a).task] == tasks + [ActOn(cfg, e, a).task];
  }

  /** Serving one more request without interruption is one of the runs of the interleaved model, so all that holds
      of every reachable state holds of what the handler leaves behind. */
  lemma SerialRunIsARun(cfg: Settings, run: seq<Event>, key: Option<ApiKey>, request: Request,
      x: Encounter, m: Actives, kept: Exact.Entries)
    ensures var s := Execute(cfg, run);
      var end := Serially(cfg, Effect(Task(key, request, LookingUpExact, [], 0), s.exact, s.similar), x, m, kept);
      exists longer :: run <= longer && Execute(cfg, longer) == With(s.tasks, end)
  {
    hide Act;
    hide ActOn;
    var s := Execute(cfg, run);
    var tasks := s.tasks;
    var e0 := Effect(Task(key, request, LookingUpExact, [], 0), s.exact, s.similar);
    var r0 := run + [Arrive(key, request)];
    assert DropLast(r0) == run;
    hide Execute;
    var r1 := RunStep(cfg, r0, tasks, e0, LookUpExact(x.exactNow));
    var e1 := ActOn(cfg, e0, LookUpExact(x.exactNow));
    var r2 := RunStep(cfg, r1, tasks, e1, LookUpSimilar(x.similarNow, x.isEquivalent));
    var e2 := Looked(cfg, e0, x);
    var r3 := RunStep(cfg, r2, tasks, e2, Classify(x.classified, x.session));
    var e3 := ActOn(cfg, e2, Classify(x.classified, x.session));
    var r4 := RunStep(cfg, r3, tasks, e3, Forward(m.own, x.reply));
    var e4 := Forwarded(cfg, e2, x, m.own);
    var r5 := RunStep(cfg, r4, tasks, e4, Charge);
    var e5 := ActOn(cfg, e4, Charge);
    var r6 := RunStep(cfg, r5, tasks, e5, ReadBody);
    var e6 := ActOn(cfg, e5, ReadBody);
    var r7 := RunStep(cfg, r6, tasks, e6, Judge(x.score, m.above, x.retryReply));
    var e7 := ActOn(cfg, e6, Judge(x.score, m.above, x.retryReply));
    var r8 := RunStep(cfg, r7, tasks, e7, ChargeRetry(x.retryScore));
    var e8 := Settled(cfg, e4, x, m.above);
    var r9 := RunStep(cfg, r8, tasks, e8, StoreExact(x.storeNow, kept));
    var e9 := ActOn(cfg, e8, StoreExact(x.storeNow, kept));
    var r10 := RunStep(cfg, r9, tasks, e9, StoreSimilar(x.storeSimilarNow));
    assert run <= r10 && Execute(cfg, r10) == With(tasks, Serially(cfg, e0, x, m, kept));
  }
}
