/** Reserve and reconcile: the relay of a response body from its reservation to its settlement (the streaming part of
    `completions_inner` in main.rs). */
module StreamRelay {
  import opened Basics
  import opened Tiers
  import opened Permissions
  import opened Quota
  import opened SpendLedger
  import opened Metering
  import Router
  import Failover
  import Outcomes

  /** What the relay of one response carries from its start to its end. `id` tells the responses apart. */
  datatype Terms = Terms(
    key: Option<ApiKey>, price: Option<real>, isSuccess: bool, window: nat, estimate: nat, id: nat,
    tier: Tier, model: string)

  /** The tokens a tail reports, if it does. */
  function TokensOf(r: Reader, tail: seq<Byte>): Option<nat>
  {
    var usage := UsageFromSse(r, tail);
    if usage.Some? then Some(usage.value.prompt + usage.value.completion) else None
  }

  predicate IsMetered(t: Terms)
  {
    t.key.Some? && t.price.Some?
  }

  /** A successful stream reserves its estimate before its first byte. */
  function StartOps(t: Terms): seq<Op>
  {
    if IsMetered(t) && t.isSuccess then [Reserve(t.key.value.id, t.window, t.estimate, t.id)] else []
  }

  /** The settlement of a body that ended with this tail, in the window it was reserved in. */
  function EndOp(r: Reader, t: Terms, tail: seq<Byte>): Op
    requires IsMetered(t)
  {
    var key, tokens := t.key.value.id, TokensOf(r, tail);
    if t.isSuccess then Settle(key, t.window, t.estimate, t.id, Resolved(tokens, t.estimate))
    else Op.Relay(key, t.window, t.estimate, tokens)
  }

  /** Everything one relayed response does to its key's record. */
  function OpsOf(r: Reader, t: Terms, polls: seq<Poll>): seq<Op>
  {
    StartOps(t)
    + if IsMetered(t) && HasEnded(polls) then [EndOp(r, t, LastBytes(Relayed(BeforeEnd(polls)), USAGE_TAIL_BYTES))] else []
  }

  /** Every break of the transport is reported against the model; its headers were reported before. */
  function BreakReports(isEnabled: bool, t: Terms, polls: seq<Poll>): seq<Failover.Report>
  {
    if polls == [] then []
    else
      BreakReports(isEnabled, t, DropLast(polls))
      + if Last(polls).Broken? then Outcomes.ReportsOf(isEnabled, t.tier, t.model, None) else []
  }

  /** Relays a body poll by poll. */
  method RelayBody(quotas: QuotaEnforcer, router: Router.CatalogRouter, isEnabled: bool, threshold: nat, r: Reader,
      t: Terms, polls: seq<Poll>)
    modifies quotas`spend, router`failures, router`active
    ensures t.price.Some? ==> quotas.spend == Adjusted(old(quotas.spend), OpsOf(r, t, polls), t.price.value)
    ensures t.price.None? ==> quotas.spend == old(quotas.spend)
    ensures router.State() == Failover.Run(old(router.State()), BreakReports(isEnabled, t, polls), threshold)
  {
    hide Delta;
    hide EndOp;
    hide SpendStep;
    hide HasEnded;
    hide LastBytes;
    hide RelayAfter;
    hide OpsOf;
    hide Outcomes.ReportsOf;
    hide PollStep;
    hide Adjusted;
    hide BreakReports;
    hide UsageFromSse;
    hide Cost;
    ghost var spent, begun := quotas.spend, router.State();
    NothingRelayed(spent, begun, isEnabled, threshold, r, t);
    var stream := new MeteredStream();
    if IsMetered(t) && t.isSuccess {
      quotas.AdjustSpend(t.key.value.id, Cost(t.estimate as real, t.price.value), t.window);
    }
    for i := 0 to |polls|
      invariant stream.State() == RelayAfter(polls[..i])
      invariant t.price.Some? ==> quotas.spend == Adjusted(spent, OpsOf(r, t, polls[..i]), t.price.value)
      invariant t.price.None? ==> quotas.spend == spent
      invariant router.State() == Failover.Run(begun, BreakReports(isEnabled, t, polls[..i]), threshold)
      invariant fresh(stream)
    {
      var item := polls[i];
      assert polls[..i + 1] == polls[..i] + [item];
      OnePollReports(begun, isEnabled, threshold, t, polls[..i], item);
      OnePollOps(spent, r, t, polls[..i], item);
      if item.Broken? {
        Outcomes.ReportOutcome(router, isEnabled, t.tier, t.model, None, threshold);
      }
      var settledBefore := |stream.calls|;
      var _ := stream.PollNext(item);
      if |stream.calls| > settledBefore && IsMetered(t) {
        var usage := ScanUsage(r, stream.calls[settledBefore]);
        var resolved := if usage.Some? then usage.value.prompt + usage.value.completion else t.estimate;
        quotas.AdjustSpend(t.key.value.id, Cost(resolved as real - t.estimate as real, t.price.value), t.window);
      }
    }
    assert polls[..|polls|] == polls;
  }

  lemma NothingRelayed(spend: map<string, Spend>, st: Router.RouterState, isEnabled: bool, threshold: nat, r: Reader, t: Terms)
    ensures RelayAfter([]) == Metering.Relay([], true, [])
    ensures t.price.Some? ==>
      Adjusted(spend, OpsOf(r, t, []), t.price.value) ==
        if IsMetered(t) && t.isSuccess
        then SpendStep(spend, t.key.value.id, Cost(t.estimate as real, t.price.value), t.window) else spend
    ensures Failover.Run(st, BreakReports(isEnabled, t, []), threshold) == st
  {
    hide SpendStep;
    hide Cost;
    hide EndOp;
    hide Relayed;
    hide BeforeEnd;
    hide LastBytes;
    assert OpsOf(r, t, []) == StartOps(t);
    hide OpsOf;
    if IsMetered(t) && t.isSuccess {
      OneMoreOp(spend, [], StartOps(t)[0], t.price.value);
      assert [] + [StartOps(t)[0]] == StartOps(t);
    }
  }

  lemma OnePollReports(st: Router.RouterState, isEnabled: bool, threshold: nat, t: Terms, polls: seq<Poll>, p: Poll)
    ensures Failover.Run(st, BreakReports(isEnabled, t, polls + [p]), threshold)
         == var before := Failover.Run(st, BreakReports(isEnabled, t, polls), threshold);
            if p.Broken? then Failover.Run(before, Outcomes.ReportsOf(isEnabled, t.tier, t.model, None), threshold) else before
  {
    hide Outcomes.ReportsOf;
    assert DropLast(polls + [p]) == polls;
    var reports := BreakReports(isEnabled, t, polls);
    if p.Broken? {
      Outcomes.RunConcat(st, reports, Outcomes.ReportsOf(isEnabled, t.tier, t.model, None), threshold);
    } else {
      assert reports + [] == reports;
    }
  }

  predicate IsFirstEnd(polls: seq<Poll>, p: Poll)
  {
    IsEnd(p) && !HasEnded(polls)
  }

  /** A poll calls the finalizer exactly when it is the first end of the body. */
  lemma OnePollCalls(polls: seq<Poll>, p: Poll)
    ensures RelayAfter(polls + [p]) == PollStep(RelayAfter(polls), p)
    ensures RelayAfter(polls + [p]).calls
         == RelayAfter(polls).calls + if IsFirstEnd(polls, p) then [LastBytes(Relayed(polls), USAGE_TAIL_BYTES)] else []
  {
    hide LastBytes;
    hide HasEnded;
    assert DropLast(polls + [p]) == polls;
    FinalizedOnceOnTail(polls);
    FinalizedOnceOnTail(polls + [p]);
    BeforeEndStep(polls, p);
    hide RelayAfter;
    hide PollStep;
  }

  /** ... and then it adds the settlement. */
  lemma OnePollOp(r: Reader, t: Terms, polls: seq<Poll>, p: Poll)
    ensures OpsOf(r, t, polls + [p]) == OpsOf(r, t, polls)
      + if IsMetered(t) && IsFirstEnd(polls, p) then [EndOp(r, t, LastBytes(Relayed(polls), USAGE_TAIL_BYTES))] else []
  {
    hide LastBytes;
    hide HasEnded;
    hide EndOp;
    hide StartOps;
    BeforeEndStep(polls, p);
  }

  lemma EndDelta(r: Reader, t: Terms, tail: seq<Byte>, price: real)
    requires IsMetered(t)
    ensures var op := EndOp(r, t, tail);
      op.key == t.key.value.id && op.window == t.window
      && Delta(op, price) == Cost(Resolved(TokensOf(r, tail), t.estimate) as real - t.estimate as real, price)
  {
    hide TokensOf;
    hide Cost;
  }

  lemma OnePollOps(spend: map<string, Spend>, r: Reader, t: Terms, polls: seq<Poll>, p: Poll)
    ensures RelayAfter(polls + [p]) == PollStep(RelayAfter(polls), p)
    ensures var before, after := RelayAfter(polls).calls, RelayAfter(polls + [p]).calls;
      |before| <= |after|
      && (t.price.Some? ==>
            Adjusted(spend, OpsOf(r, t, polls + [p]), t.price.value)
            == var spent := Adjusted(spend, OpsOf(r, t, polls), t.price.value);
               if |before| < |after| && IsMetered(t)
               then SpendStep(spent, t.key.value.id,
                 Cost(Resolved(TokensOf(r, after[|before|]), t.estimate) as real - t.estimate as real, t.price.value), t.window)
               else spent)
  {
    hide SpendStep;
    hide Cost;
    hide LastBytes;
    hide TokensOf;
    hide IsFirstEnd;
    hide EndOp;
    hide OpsOf;
    hide Delta;
    hide Resolved;
    hide Adjusted;
    hide RelayAfter;
    hide PollStep;
    OnePollCalls(polls, p);
    OnePollOp(r, t, polls, p);
    var ops := OpsOf(r, t, polls);
    if IsMetered(t) && IsFirstEnd(polls, p) {
      var tail := LastBytes(Relayed(polls), USAGE_TAIL_BYTES);
      OneMoreOp(spend, ops, EndOp(r, t, tail), t.price.value);
      EndDelta(r, t, tail, t.price.value);
    } else {
      assert ops + [] == ops;
    }
  }

  // ----- what a relay does to the books -----------------------------------------------------------------------

  /** The operations of a relay belong in any log that knows nothing else of it: the reservation while its id is new,
      the settlement while the reservation is open, whatever other requests did in between. */
  lemma RelayBelongs(r: Reader, t: Terms, polls: seq<Poll>, log: seq<Op>)
    requires IsMetered(t) && HasEnded(polls)
    ensures var ops := OpsOf(r, t, polls);
      (t.isSuccess ==>
        |ops| == 2
        && ((forall p <- log :: IsStream(p) ==> p.id != t.id) ==> Belongs(log, ops[0]))
        && (ops[0] in log && (forall p <- log :: p.Settle? ==> p.id != t.id) ==> Belongs(log, ops[1])))
      && (!t.isSuccess ==> |ops| == 1 && Belongs(log, ops[0]))
  {
    hide UsageFromSse;
    hide HasEnded;
  }

  /** End to end: while the budget month lasts, one stream relayed between other requests leaves its key's record at
      what it owed before plus the real cost of the stream's body, reported in its final 8192 bytes. */
  lemma StreamCostsItsUsage(r: Reader, t: Terms, polls: seq<Poll>, log: seq<Op>)
    requires IsMetered(t) && t.isSuccess && HasEnded(polls) && 0.0 <= t.price.value
    requires WellFormed(log) && Quiet(log)
    requires forall p <- log :: (IsStream(p) ==> p.id != t.id) && (p.key == t.key.value.id ==> p.window <= t.window)
    requires var body := Relayed(BeforeEnd(polls));
      var tail := LastBytes(body, USAGE_TAIL_BYTES);
      LastUsage(r, LinesInTail(body[..|body| - |tail|], tail)).Some?
    ensures var body, key, price := Relayed(BeforeEnd(polls)), t.key.value.id, t.price.value;
      var spend := Adjusted(SpendAfter(log, price), OpsOf(r, t, polls), price);
      var u := UsageFromSse(r, body);
      u.Some?
      && Recorded(spend, key, t.window)
         == Recorded(SpendAfter(log, price), key, t.window) + Cost((u.value.prompt + u.value.completion) as real, price)
  {
    hide LastBytes;
    hide Relayed;
    hide BeforeEnd;
    hide UsageFromSse;
    hide LastUsage;
    hide LinesInTail;
    hide RelayAfter;
    hide HasEnded;
    hide Adjusted;
    hide SpendAfter;
    hide Cost;
    var key, price := t.key.value.id, t.price.value;
    var ops := OpsOf(r, t, polls);
    StreamSettlesOnItsUsage(r, polls);
    FinalizedOnceOnTail(polls);
    var tail := LastBytes(Relayed(BeforeEnd(polls)), USAGE_TAIL_BYTES);
    TailHasUsage(r, polls);
    TokensAreBoth(r, tail);
    TokensAreBoth(r, Relayed(BeforeEnd(polls)));
    assert ops == [Reserve(key, t.window, t.estimate, t.id)] + [EndOp(r, t, tail)];
    hide OpsOf;
    ReserveThenSettle(log, key, t.window, t.estimate, t.id, TokensOf(r, tail).value, price);
    AdjustedIsSpendAfter(log, ops, price);
  }

  /** Prompt and completion tokens both count. */
  lemma TokensAreBoth(r: Reader, body: seq<Byte>)
    ensures var u := UsageFromSse(r, body);
      TokensOf(r, body) == if u.Some? then Some(u.value.prompt + u.value.completion) else None
  {
    hide UsageFromSse;
  }

  /** A stream that reports no usage in its tail keeps what it reserved: it costs its estimate. */
  lemma SilentStreamCostsItsEstimate(r: Reader, t: Terms, polls: seq<Poll>, log: seq<Op>)
    requires IsMetered(t) && t.isSuccess && HasEnded(polls) && 0.0 <= t.price.value
    requires WellFormed(log) && Quiet(log)
    requires forall p <- log :: (IsStream(p) ==> p.id != t.id) && (p.key == t.key.value.id ==> p.window <= t.window)
    requires UsageFromSse(r, LastBytes(Relayed(BeforeEnd(polls)), 8192)).None?
    ensures var key, price := t.key.value.id, t.price.value;
      var spend := Adjusted(SpendAfter(log, price), OpsOf(r, t, polls), price);
      Recorded(spend, key, t.window) == Recorded(SpendAfter(log, price), key, t.window) + Cost(t.estimate as real, price)
  {
    hide LastBytes;
    hide Relayed;
    hide BeforeEnd;
    hide UsageFromSse;
    hide HasEnded;
    hide Adjusted;
    hide SpendAfter;
    hide Cost;
    var key, price := t.key.value.id, t.price.value;
    var ops := OpsOf(r, t, polls);
    var tail := LastBytes(Relayed(BeforeEnd(polls)), USAGE_TAIL_BYTES);
    TokensAreBoth(r, tail);
    assert ops == [Reserve(key, t.window, t.estimate, t.id)] + [EndOp(r, t, tail)];
    hide OpsOf;
    ReserveThenSettle(log, key, t.window, t.estimate, t.id, t.estimate, price);
    AdjustedIsSpendAfter(log, ops, price);
  }

  /** While the body lasts, or is dropped before its end, the reservation stands. */
  lemma OpenStreamHoldsItsReservation(r: Reader, t: Terms, polls: seq<Poll>, spend: map<string, Spend>)
    requires IsMetered(t) && t.isSuccess && !HasEnded(polls)
    ensures Adjusted(spend, OpsOf(r, t, polls), t.price.value)
         == SpendStep(spend, t.key.value.id, Cost(t.estimate as real, t.price.value), t.window)
  {
    hide SpendStep;
    hide Cost;
    hide HasEnded;
    hide EndOp;
    hide Relayed;
    hide BeforeEnd;
    hide LastBytes;
    hide Adjusted;
    var op := Reserve(t.key.value.id, t.window, t.estimate, t.id);
    assert OpsOf(r, t, polls) == [] + [op];
    hide OpsOf;
    OneMoreOp(spend, [], op, t.price.value);
    AdjustedByNothing(spend, t.price.value);
  }

  lemma AdjustedByNothing(spend: map<string, Spend>, price: real)
    ensures Adjusted(spend, [], price) == spend
  {
  }

  function Breaks(polls: seq<Poll>): nat
  {
    if polls == [] then 0 else Breaks(DropLast(polls)) + if Last(polls).Broken? then 1 else 0
  }

  /** With the catalog enabled every break of the transport is one failure of the model. */
  lemma {:induction false} BreaksAreFailures(t: Terms, polls: seq<Poll>)
    ensures BreakReports(true, t, polls) == Failover.Failures(t.tier, t.model, Breaks(polls))
    ensures BreakReports(false, t, polls) == []
  {
    if polls != [] {
      BreaksAreFailures(t, DropLast(polls));
    }
  }

  lemma TailHasUsage(r: Reader, polls: seq<Poll>)
    requires var body := Relayed(BeforeEnd(polls));
      var tail := LastBytes(body, USAGE_TAIL_BYTES);
      LastUsage(r, LinesInTail(body[..|body| - |tail|], tail)).Some?
    ensures UsageFromSse(r, Relayed(BeforeEnd(polls))).Some?
  {
    var body := Relayed(BeforeEnd(polls));
    var tail := LastBytes(body, USAGE_TAIL_BYTES);
    var front := body[..|body| - |tail|];
    assert front + tail == body;
    UsageOfBodyAndTail(r, front, tail);
    hide UsageFromSse;
    hide LastUsage;
  }

  lemma ReserveThenSettle(log: seq<Op>, key: string, window: nat, estimate: nat, id: nat, tokens: nat, price: real)
    requires WellFormed(log) && Quiet(log) && 0.0 <= price
    requires forall p <- log :: (IsStream(p) ==> p.id != id) && (p.key == key ==> p.window <= window)
    ensures var ops := [Reserve(key, window, estimate, id)] + [Settle(key, window, estimate, id, tokens)];
      Recorded(SpendAfter(log + ops, price), key, window)
      == Recorded(SpendAfter(log, price), key, window) + Cost(tokens as real, price)
  {
    hide Cost;
    hide SpendAfter;
    hide Recorded;
    hide WellFormed;
    hide Quiet;
    hide Belongs;
    hide Owed;
    var a, b := Reserve(key, window, estimate, id), Settle(key, window, estimate, id, tokens);
    assert log + ([a] + [b]) == log + [a] + [b];
    ReserveFollows(log, key, window, estimate, id);
    SettleFollows(log + [a], key, window, estimate, id, tokens);
    RecordIsOwed(log, price, key, window);
    RecordIsOwed(log + [a] + [b], price, key, window);
    StreamOwes(log, a, b, price);
  }

  lemma StreamOwes(log: seq<Op>, a: Op, b: Op, price: real)
    requires WellFormed(log) && WellFormed(log + [a]) && Belongs(log, a) && Belongs(log + [a], b)
    requires a.Reserve? && b.Settle? && a.key == b.key && a.window == b.window && a.estimate == b.estimate
    ensures Owed(log + [a] + [b], price, a.key, a.window) == Owed(log, price, a.key, a.window) + Cost(b.resolved as real, price)
  {
    hide Cost;
    hide WellFormed;
    hide Belongs;
    hide Owed;
    OwedStep(log, a, price, a.key, a.window);
    OwedStep(log + [a], b, price, a.key, a.window);
    CostOfDifference(b.resolved as real, b.estimate as real, price);
  }

  lemma ReserveFollows(log: seq<Op>, key: string, window: nat, estimate: nat, id: nat)
    requires WellFormed(log) && Quiet(log)
    requires forall p <- log :: (IsStream(p) ==> p.id != id) && (p.key == key ==> p.window <= window)
    ensures var a := Reserve(key, window, estimate, id);
      Belongs(log, a) && WellFormed(log + [a]) && Quiet(log + [a])
      && a in log + [a] && id !in SettledIds(log + [a])
      && forall p <- log + [a] :: p.key == key ==> p.window <= window
  {
    var a := Reserve(key, window, estimate, id);
    assert DropLast(log + [a]) == log;
    assert forall p :: p in log + [a] <==> p in log || p == a;
  }

  lemma SettleFollows(log: seq<Op>, key: string, window: nat, estimate: nat, id: nat, tokens: nat)
    requires WellFormed(log) && Quiet(log) && Reserve(key, window, estimate, id) in log && id !in SettledIds(log)
    requires forall p <- log :: p.key == key ==> p.window <= window
    ensures var b := Settle(key, window, estimate, id, tokens);
      Belongs(log, b) && WellFormed(log + [b]) && Quiet(log + [b])
      && forall p <- log + [b] :: p.key == key ==> p.window <= window
  {
    var b := Settle(key, window, estimate, id, tokens);
    assert DropLast(log + [b]) == log;
    assert forall p :: p in log + [b] <==> p in log || p == b;
  }
}
