/** How the outcome of an upstream call reaches the catalog router (`report_upstream_outcome` in main.rs). */
module Outcomes {
  import opened Basics
  import opened Tiers
  import opened Router
  import opened Failover
  import QualityGate

  /** What a call's outcome says about its model. A transport error, a server error and a rate limit (429) are the
      provider's failures, any other error is the caller's own. No status stands for a call that did not complete. */
  function ReportsOf(isEnabled: bool, tier: Tier, model: string, status: Option<nat>): seq<Report>
  {
    if !isEnabled then []
    else if status.None? || 500 <= status.value < 600 || status.value == 429 then [Failed(tier, model)]
    else if 200 <= status.value < 300 then [Succeeded(tier, model)]
    else []
  }

  method ReportOutcome(router: CatalogRouter, isEnabled: bool, tier: Tier, model: string, status: Option<nat>, threshold: nat)
    modifies router`failures, router`active
    ensures router.State() == Run(old(router.State()), ReportsOf(isEnabled, tier, model, status), threshold)
  {
    hide SuccessStep;
    hide FailureStep;
    ghost var before := router.State();
    assert Run(before, [], threshold) == before;
    if !isEnabled {
      return;
    }
    if status.Some? && 200 <= status.value < 300 {
      router.ReportSuccess(tier, model);
      OneReport(before, Succeeded(tier, model), threshold);
      return;
    }
    var isProviderFailure := status.None? || 500 <= status.value < 600 || status.value == 429;
    if !isProviderFailure {
      return;
    }
    var _ := router.ReportFailure(tier, model, threshold);
    OneReport(before, Failed(tier, model), threshold);
  }

  lemma OneReport(st: RouterState, r: Report, threshold: nat)
    ensures Run(st, [r], threshold) == Step(st, r, threshold)
  {
    assert DropLast([r]) == [];
  }

  function StatusOf(reply: QualityGate.Reply): Option<nat>
  {
    if reply.Reply? then Some(reply.status) else None
  }

  /** The reports a list of calls makes, each call exactly once. */
  function ReportsOfCalls(isEnabled: bool, calls: seq<QualityGate.Call>): seq<Report>
  {
    if calls == [] then []
    else
      var call := Last(calls);
      ReportsOfCalls(isEnabled, DropLast(calls)) + ReportsOf(isEnabled, call.tier, call.model, StatusOf(call.reply))
  }

  lemma {:induction false} RunConcat(st: RouterState, a: seq<Report>, b: seq<Report>, threshold: nat)
    ensures Run(st, a + b, threshold) == Run(Run(st, a, threshold), b, threshold)
  {
    if b == [] {
      assert a + b == a;
    } else {
      hide Step;
      RunConcat(st, a, DropLast(b), threshold);
      assert DropLast(a + b) == a + DropLast(b);
    }
  }

  lemma OneMoreCall(st: RouterState, isEnabled: bool, calls: seq<QualityGate.Call>, call: QualityGate.Call, threshold: nat)
    ensures Run(st, ReportsOfCalls(isEnabled, calls + [call]), threshold)
         == Run(Run(st, ReportsOfCalls(isEnabled, calls), threshold),
              ReportsOf(isEnabled, call.tier, call.model, StatusOf(call.reply)), threshold)
  {
    hide ReportsOf;
    assert DropLast(calls + [call]) == calls;
    RunConcat(st, ReportsOfCalls(isEnabled, calls), ReportsOf(isEnabled, call.tier, call.model, StatusOf(call.reply)), threshold);
  }

  // ----- what counts against a model ------------------------------------------------------------------------

  /** The statuses that are the provider's fault: none at all, 429, and the server errors. */
  predicate IsProviderFault(status: Option<nat>)
  {
    match status
    case None => true
    case Some(code) => code == 429 || (500 <= code && code <= 599)
  }

  /** What one outcome does to the router, status by status: a provider's fault is a failure of the model, a 2xx a success,
      and every other reply, a caller's error above all, leaves the router as it was; so does everything in fixed mode. */
  lemma OutcomeMeaning(st: RouterState, tier: Tier, model: string, status: Option<nat>, threshold: nat)
    ensures var after := Run(st, ReportsOf(true, tier, model, status), threshold);
      (IsProviderFault(status) ==> after == FailureStep(st, tier, model, threshold))
      && (status.Some? && 200 <= status.value <= 299 ==> after == SuccessStep(st, tier, model))
      && (!IsProviderFault(status) && !(200 <= status.value <= 299) ==> after == st)
    ensures Run(st, ReportsOf(false, tier, model, status), threshold) == st
  {
    hide SuccessStep;
    hide FailureStep;
    assert Run(st, [], threshold) == st;
    OneReport(st, Failed(tier, model), threshold);
    OneReport(st, Succeeded(tier, model), threshold);
  }

  /** A call that was not answered, or answered 429 or 5xx, is a failure of its model, one answered 2xx a success, and any
      other leaves the router as it was. */
  lemma CallMeaning(st: RouterState, call: QualityGate.Call, threshold: nat)
    ensures var after := Run(st, ReportsOfCalls(true, [call]), threshold);
      var reply := call.reply;
      (reply.Unreachable? ==> after == FailureStep(st, call.tier, call.model, threshold))
      && (reply.Reply? && (reply.status == 429 || 500 <= reply.status <= 599) ==>
            after == FailureStep(st, call.tier, call.model, threshold))
      && (reply.Reply? && 200 <= reply.status <= 299 ==> after == SuccessStep(st, call.tier, call.model))
      && (reply.Reply? && reply.status != 429 && !(200 <= reply.status <= 299) && !(500 <= reply.status <= 599) ==> after == st)
  {
    hide SuccessStep;
    hide FailureStep;
    hide ReportsOf;
    assert [] + [call] == [call] && Run(st, [], threshold) == st;
    OneMoreCall(st, true, [], call, threshold);
    OutcomeMeaning(st, call.tier, call.model, StatusOf(call.reply), threshold);
    hide Run;
  }

  /** The reports of a series of outcomes of one model. */
  function ReportsOfAll(tier: Tier, model: string, statuses: seq<Option<nat>>): seq<Report>
  {
    if statuses == [] then []
    else ReportsOfAll(tier, model, DropLast(statuses)) + ReportsOf(true, tier, model, Last(statuses))
  }

  /** No number of a caller's errors moves a model off its tier, or brings it closer to that. */
  lemma {:induction false} CallerErrorsChangeNothing(st: RouterState, tier: Tier, model: string, statuses: seq<Option<nat>>,
      threshold: nat)
    requires forall s <- statuses :: s.Some? && 400 <= s.value < 500 && s.value != 429
    ensures Run(st, ReportsOfAll(tier, model, statuses), threshold) == st
  {
    if statuses != [] {
      CallerErrorsChangeNothing(st, tier, model, DropLast(statuses), threshold);
      assert Last(statuses) in statuses;
      hide ReportsOf;
      hide Run;
      RunConcat(st, ReportsOfAll(tier, model, DropLast(statuses)), ReportsOf(true, tier, model, Last(statuses)), threshold);
      OutcomeMeaning(st, tier, model, Last(statuses), threshold);
    }
  }

  lemma {:induction false} FaultsAreFailures(tier: Tier, model: string, statuses: seq<Option<nat>>)
    requires forall s <- statuses :: IsProviderFault(s)
    ensures ReportsOfAll(tier, model, statuses) == Failures(tier, model, |statuses|)
  {
    if statuses != [] {
      FaultsAreFailures(tier, model, DropLast(statuses));
      assert Last(statuses) in statuses;
    }
  }

  /** A provider that keeps failing is failed over: as many faults of the active model as the threshold, one after the
      other, and not fewer, move a fresh tier on to the next candidate of its list. */
  lemma ProviderFaultsPromote(st: RouterState, t: Tier, statuses: seq<Option<nat>>, threshold: nat)
    requires FreshTier(st, t) && threshold < U32 && st.active[t] != Last(ListOf(st, t))
    requires |statuses| <= AtLeastOne(threshold) && forall s <- statuses :: IsProviderFault(s)
    ensures var after := Run(st, ReportsOfAll(t, st.active[t], statuses), threshold);
      OnList(after, t)
      && (|statuses| == AtLeastOne(threshold) ==> PositionOf(after, t) == PositionOf(st, t) + 1)
      && (|statuses| < AtLeastOne(threshold) ==> after.active[t] == st.active[t])
  {
    var m := st.active[t];
    var n := |statuses|;
    FaultsAreFailures(t, m, statuses);
    RunStaysOnList(st, Failures(t, m, n), threshold, t);
    if n < AtLeastOne(threshold) {
      FailuresAccumulate(st, t, m, n, threshold);
    } else {
      FailuresAccumulate(st, t, m, n - 1, threshold);
      var before := Failures(t, m, n - 1);
      RunKeepsSnapshot(st, before, threshold);
      hide Run;
      hide PositionOf;
      hide TrailingFailures;
      hide FreshTier;
      hide SinceActive;
      FirstPromotion(st, before, Failed(t, m), threshold, t);
      PromotionExactlyAtThreshold(st, before, Failed(t, m), threshold, t);
      SamePlace(st, Run(st, before, threshold), t);
    }
  }

  lemma SamePlace(a: RouterState, b: RouterState, t: Tier)
    requires OnList(a, t) && OnList(b, t) && a.active[t] == b.active[t] && ListOf(a, t) == ListOf(b, t)
    ensures PositionOf(a, t) == PositionOf(b, t)
  {
  }
}
