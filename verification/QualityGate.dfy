/** The quality gate: what a plain answer is worth, when one retry a tier up is made, and which of the
    two answers is kept (main.rs, miser-policy/src/quality.rs). */
module QualityGate {
  import opened Basics
  import opened Tiers
  import opened Permissions
  import opened Quota
  import SpendLedger

  /** What the gate reads in a payload; a payload that does not parse reads as empty. */
  datatype Reading = Reading(content: string, hasToolCalls: bool, prompt: nat, completion: nat)

  /** A configured route of a tier; the settings stand in for those a request leaves out. */
  datatype Route = Route(model: string, maxTokens: Option<nat>, temperature: Option<string>)

  /** The gate's settings, and the library functions it calls. */
  datatype Config = Config(
    enabled: bool, minimumScore: real, escalates: bool, hasJudge: bool, confidenceThreshold: real,
    catalogEnabled: bool, routes: map<Tier, Route>,
    parse: string -> Reading, isBlank: string -> bool, isJson: string -> bool, byteLength: string -> nat,
    isSafe: string -> bool)

  datatype Check = Check(score: real, passed: bool)

  predicate Contains(s: string, part: string)
  {
    part <= s || (s != [] && Contains(s[1..], part))
  }

  predicate HasCode(content: string)
  {
    Contains(content, "```") || Contains(content, "fn ") || Contains(content, "function ") || Contains(content, "def ")
    || Contains(content, "tool_call") || Contains(content, "```shell") || Contains(content, "```bash")
  }

  /** The score of an answer nobody judged. */
  function DeterministicQuality(cfg: Config, shape: Shape, c: Classification, r: Reading): Check
  {
    if !cfg.enabled then Check(1.0, true)
    else if cfg.isBlank(r.content) then (if r.hasToolCalls then Check(0.85, true) else Check(0.0, false))
    else if shape.hasResponseFormat && !cfg.isJson(r.content) then Check(0.2, false)
    else if (c.task == Some(CodingTask) || c.task == Some(AgenticTask) || Contains(r.content, "```"))
            && !HasCode(r.content) && cfg.byteLength(r.content) < 80 then Check(0.3, false)
    else
      var score := if cfg.byteLength(r.content) >= 40 then 0.85 else 0.65;
      Check(score, score >= cfg.minimumScore)
  }

  predicate OnlyCallsTools(cfg: Config, r: Reading)
  {
    cfg.isBlank(r.content) && r.hasToolCalls
  }

  /** The judge's score, when there is a judge, it is asked and it answers; the deterministic one otherwise. */
  function FirstCheck(cfg: Config, shape: Shape, c: Classification, r: Reading, judged: Option<real>): Check
  {
    if cfg.hasJudge && !OnlyCallsTools(cfg, r) && judged.Some? then Check(judged.value, judged.value >= cfg.minimumScore)
    else DeterministicQuality(cfg, shape, c, r)
  }

  // ----- upstream calls --------------------------------------------------------------------------------

  /** An upstream reply; `complete` says that the whole body could be read. */
  datatype Reply = Unreachable | Reply(status: nat, headers: seq<string>, body: string, complete: bool)

  datatype Call = Call(tier: Tier, model: string, reply: Reply)

  predicate Succeeds(reply: Reply)
  {
    reply.Reply? && 200 <= reply.status < 300
  }

  predicate Delivers(reply: Reply)
  {
    Succeeds(reply) && reply.complete
  }

  /** An answer as it is served, stored and recorded. */
  datatype Answer = Answer(body: string, status: nat, headers: seq<string>, tier: Tier, model: string)

  function AnswerOf(cfg: Config, call: Call): Answer
    requires call.reply.Reply?
  {
    Answer(call.reply.body, call.reply.status, Filter(call.reply.headers, cfg.isSafe), call.tier, call.model)
  }

  // ----- the retry -------------------------------------------------------------------------------------

  /** The tier a failing answer is retried on: the one above the request's own, if the key may use it. */
  function RetryTier(cfg: Config, key: Option<ApiKey>, shape: Shape, c: Classification, check: Check): Option<Tier>
  {
    match NextTier(EffectiveTier(shape, c, cfg.confidenceThreshold))
    case Some(tier) =>
      if cfg.enabled && !check.passed && cfg.escalates && IsPermitted(key, FormatTier(tier)) && tier in cfg.routes
      then Some(tier) else None
    case None => None
  }

  function RouteModel(cfg: Config, tier: Tier, active: Option<string>): string
    requires tier in cfg.routes
  {
    if cfg.catalogEnabled && active.Some? then active.value else cfg.routes[tier].model
  }

  /** The retry is kept unless the judge scored it below the first answer. */
  predicate Keeps(cfg: Config, check: Check, judged: Option<real>)
  {
    cfg.hasJudge && judged.Some? ==> judged.value >= check.score
  }

  /** Everything one settlement depends on that the gateway does not choose. */
  datatype Inputs = Inputs(key: Option<ApiKey>, shape: Shape, c: Classification, first: Call,
    firstScore: Option<real>, active: Option<string>, retryReply: Reply, retryScore: Option<real>)

  function CheckOf(cfg: Config, i: Inputs): Check
    requires i.first.reply.Reply?
  {
    FirstCheck(cfg, i.shape, i.c, cfg.parse(i.first.reply.body), i.firstScore)
  }

  /** The second upstream call, if one is made. */
  function RetryOf(cfg: Config, i: Inputs): Option<Call>
    requires i.first.reply.Reply?
  {
    match RetryTier(cfg, i.key, i.shape, i.c, CheckOf(cfg, i))
    case None => None
    case Some(tier) => Some(Call(tier, RouteModel(cfg, tier, i.active), i.retryReply))
  }

  predicate IsRetryBilled(cfg: Config, i: Inputs)
    requires i.first.reply.Reply?
  {
    RetryOf(cfg, i).Some? && Delivers(i.retryReply)
  }

  predicate IsRetryServed(cfg: Config, i: Inputs)
    requires i.first.reply.Reply?
  {
    IsRetryBilled(cfg, i) && Keeps(cfg, CheckOf(cfg, i), i.retryScore)
  }

  /** The call whose answer is served. */
  function ServedCall(cfg: Config, i: Inputs): (call: Call)
    requires Delivers(i.first.reply)
    ensures Delivers(call.reply)
  {
    if IsRetryServed(cfg, i) then RetryOf(cfg, i).value else i.first
  }

  /** The calls the provider bills for, in order. */
  function BilledCalls(cfg: Config, i: Inputs): seq<Call>
    requires i.first.reply.Reply?
  {
    [i.first] + if IsRetryBilled(cfg, i) then [RetryOf(cfg, i).value] else []
  }

  function PromptTokens(cfg: Config, calls: seq<Call>): nat
    requires forall call <- calls :: call.reply.Reply?
  {
    if calls == [] then 0 else PromptTokens(cfg, DropLast(calls)) + cfg.parse(Last(calls).reply.body).prompt
  }

  function CompletionTokens(cfg: Config, calls: seq<Call>): nat
    requires forall call <- calls :: call.reply.Reply?
  {
    if calls == [] then 0 else CompletionTokens(cfg, DropLast(calls)) + cfg.parse(Last(calls).reply.body).completion
  }

  // ----- charging --------------------------------------------------------------------------------------

  datatype Tariff = Tariff(price: Option<real>, estimate: nat)

  function ChargeStep(spend: map<string, Spend>, key: Option<ApiKey>, tariff: Tariff, month: nat): map<string, Spend>
  {
    if key.Some? && tariff.price.Some?
    then SpendStep(spend, key.value.id, SpendLedger.Cost(tariff.estimate as real, tariff.price.value), month)
    else spend
  }

  method ChargeBudget(quotas: QuotaEnforcer, key: Option<ApiKey>, tariff: Tariff, month: nat)
    modifies quotas`spend
    ensures quotas.spend == ChargeStep(old(quotas.spend), key, tariff, month)
  {
    hide SpendLedger.Cost;
    hide SpendStep;
    if key.Some? && tariff.price.Some? {
      quotas.AdjustSpend(key.value.id, SpendLedger.Cost(tariff.estimate as real, tariff.price.value), month);
    }
  }

  datatype Settlement = Settlement(answer: Answer, prompt: nat, completion: nat, isEscalated: bool)

  /** The model and tier whose outcome is reported to the catalog, with the status if there was one. */
  datatype Outcome = Outcome(tier: Tier, model: string, status: Option<nat>)

  /** From a successful first call to the settled response. A body that cannot be read ends the request,
      with its call charged. */
  method Settle(cfg: Config, quotas: QuotaEnforcer, tariff: Tariff, i: Inputs, firstMonth: nat, retryMonth: nat)
    returns (settled: Option<Settlement>, reported: Option<Outcome>)
    requires Succeeds(i.first.reply)
    modifies quotas`spend
    ensures settled.Some? <==> i.first.reply.complete
    ensures settled.Some? ==> settled.value.answer == AnswerOf(cfg, ServedCall(cfg, i))
    ensures settled.Some? ==> settled.value.isEscalated == IsRetryServed(cfg, i)
    ensures settled.Some? ==> settled.value.prompt == PromptTokens(cfg, BilledCalls(cfg, i))
    ensures settled.Some? ==> settled.value.completion == CompletionTokens(cfg, BilledCalls(cfg, i))
    ensures reported == if settled.Some? then ReportOf(cfg, i) else None
    ensures quotas.spend == SpendAfter(old(quotas.spend), cfg, tariff, i, firstMonth, retryMonth)
  {
    hide DeterministicQuality;
    hide EffectiveTier;
    hide PromptTokens;
    hide CompletionTokens;
    hide SpendStep;
    hide SpendLedger.Cost;
    hide IsPermitted;
    hide Filter;
    ChargeBudget(quotas, i.key, tariff, firstMonth);
    var status, headers := i.first.reply.status, Filter(i.first.reply.headers, cfg.isSafe);
    if !i.first.reply.complete {
      return None, None;
    }
    var payload := i.first.reply.body;
    var reading := cfg.parse(payload);
    var prompt, completion := reading.prompt, reading.completion;
    var model, tier, isEscalated := i.first.model, i.first.tier, false;
    reported := None;
    BilledTokens(cfg, i);
    if cfg.enabled {
      var check := DeterministicQuality(cfg, i.shape, i.c, reading);
      if !(cfg.isBlank(reading.content) && reading.hasToolCalls) && cfg.hasJudge && i.firstScore.Some? {
        check := Check(i.firstScore.value, i.firstScore.value >= cfg.minimumScore);
      }
      if !check.passed && cfg.escalates {
        var above := NextTier(EffectiveTier(i.shape, i.c, cfg.confidenceThreshold));
        if above.Some? {
          var isAllowed := TierPermitted(i.key, FormatTier(above.value));
          if isAllowed && above.value in cfg.routes {
            var retryModel := if cfg.catalogEnabled && i.active.Some? then i.active.value else cfg.routes[above.value].model;
            var reply := i.retryReply;
            if reply.Unreachable? {
              reported := Some(Outcome(above.value, retryModel, None));
            } else {
              reported := Some(Outcome(above.value, retryModel, Some(reply.status)));
              if Succeeds(reply) && reply.complete {
                ChargeBudget(quotas, i.key, tariff, retryMonth);
                var retryReading := cfg.parse(reply.body);
                prompt, completion := prompt + retryReading.prompt, completion + retryReading.completion;
                var score := if cfg.hasJudge then i.retryScore else None;
                if score.None? || score.value >= check.score {
                  payload := reply.body;
                  status, headers := reply.status, Filter(reply.headers, cfg.isSafe);
                  model, tier, isEscalated := retryModel, above.value, true;
                }
              }
            }
          }
        }
      }
    }
    settled := Some(Settlement(Answer(payload, status, headers, tier, model), prompt, completion, isEscalated));
  }

  lemma TokensOfOne(cfg: Config, call: Call)
    requires call.reply.Reply?
    ensures PromptTokens(cfg, [call]) == cfg.parse(call.reply.body).prompt
    ensures CompletionTokens(cfg, [call]) == cfg.parse(call.reply.body).completion
  {
    assert DropLast([call]) == [];
  }

  /** The usage of a settlement counts a discarded attempt too. */
  lemma BilledTokens(cfg: Config, i: Inputs)
    requires i.first.reply.Reply?
    ensures var one, two := cfg.parse(i.first.reply.body), if IsRetryBilled(cfg, i) then Some(cfg.parse(i.retryReply.body)) else None;
      PromptTokens(cfg, BilledCalls(cfg, i)) == one.prompt + (if two.Some? then two.value.prompt else 0)
      && CompletionTokens(cfg, BilledCalls(cfg, i)) == one.completion + (if two.Some? then two.value.completion else 0)
  {
    hide RetryTier;
    TokensOfOne(cfg, i.first);
    if IsRetryBilled(cfg, i) {
      assert DropLast(BilledCalls(cfg, i)) == [i.first];
    } else {
      assert BilledCalls(cfg, i) == [i.first];
    }
  }

  function ReportOf(cfg: Config, i: Inputs): Option<Outcome>
    requires i.first.reply.Reply?
  {
    match RetryOf(cfg, i)
    case None => None
    case Some(call) => Some(Outcome(call.tier, call.model, if call.reply.Reply? then Some(call.reply.status) else None))
  }

  /** One charge for the first call, and one for a retry whose body was read. */
  function SpendAfter(spend: map<string, Spend>, cfg: Config, tariff: Tariff, i: Inputs, firstMonth: nat, retryMonth: nat)
    : map<string, Spend>
    requires i.first.reply.Reply?
  {
    var once := ChargeStep(spend, i.key, tariff, firstMonth);
    if i.first.reply.complete && IsRetryBilled(cfg, i) then ChargeStep(once, i.key, tariff, retryMonth) else once
  }

  // ----- what the gate promises -----------------------------------------------------------------------

  /** When an answer nobody judged passes: only the listed defects fail it outright, and a code fence, which the code
      also looks for to demand code, never makes a difference. A failing defect scores below every other answer. */
  lemma UnjudgedAnswerPasses(cfg: Config, shape: Shape, c: Classification, r: Reading)
    requires cfg.enabled
    ensures var check, length := DeterministicQuality(cfg, shape, c, r), cfg.byteLength(r.content);
      var isSound := !cfg.isBlank(r.content) && (shape.hasResponseFormat ==> cfg.isJson(r.content))
        && (c.task in {Some(CodingTask), Some(AgenticTask)} && length < 80 ==> HasCode(r.content));
      (check.passed <==>
        OnlyCallsTools(cfg, r) || (isSound && cfg.minimumScore <= if length < 40 then 0.65 else 0.85))
      && (check.score >= 0.65 <==> OnlyCallsTools(cfg, r) || isSound)
  {
    hide Contains;
  }

  lemma {:induction false} ContainsMeaning(s: string, part: string)
    ensures Contains(s, part) <==> exists i :: 0 <= i <= |s| && part <= s[i..]
  {
    if s == "" {
      assert s[0..] == s;
    } else {
      ContainsMeaning(s[1..], part);
      assert s[0..] == s;
      assert forall i :: 1 <= i <= |s| ==> s[1..][i - 1..] == s[i..];
      if i :| 1 <= i <= |s| && part <= s[i..] {
        assert part <= s[1..][i - 1..];
      }
    }
  }

  lemma LongerMarker(s: string, part: string, longer: string)
    requires part <= longer && Contains(s, longer)
    ensures Contains(s, part)
  {
    ContainsMeaning(s, part);
    ContainsMeaning(s, longer);
    var i :| 0 <= i <= |s| && longer <= s[i..];
    assert part <= s[i..];
  }

  const CODE_MARKERS: seq<string> := ["```", "fn ", "function ", "def ", "tool_call"]

  /** An answer counts as code if one of five markers occurs in it; the other two add nothing. */
  lemma HasCodeMeaning(content: string)
    ensures HasCode(content) <==> exists i, k :: 0 <= i < 5 && 0 <= k <= |content| && CODE_MARKERS[i] <= content[k..]
  {
    if Contains(content, "```shell") {
      LongerMarker(content, "```", "```shell");
    }
    if Contains(content, "```bash") {
      LongerMarker(content, "```", "```bash");
    }
    hide Contains;
    forall i | 0 <= i < 5
      ensures Contains(content, CODE_MARKERS[i]) <==> exists k :: 0 <= k <= |content| && CODE_MARKERS[i] <= content[k..]
    {
      ContainsMeaning(content, CODE_MARKERS[i]);
    }
    assert CODE_MARKERS[0] == "```" && CODE_MARKERS[1] == "fn " && CODE_MARKERS[2] == "function ";
    assert CODE_MARKERS[3] == "def " && CODE_MARKERS[4] == "tool_call";
    assert HasCode(content) <==> exists i :: 0 <= i < 5 && Contains(content, CODE_MARKERS[i]);
  }

  /** With both answers judged the retry is served if and only if it scored no less than the first. */
  lemma RetryKeptUnlessWorse(cfg: Config, i: Inputs)
    requires Delivers(i.first.reply) && IsRetryBilled(cfg, i) && ScoredFirst(cfg, i) && ScoredRetry(cfg, i)
    ensures IsRetryServed(cfg, i) <==> i.firstScore.value <= i.retryScore.value
  {
    hide EffectiveTier;
    hide IsPermitted;
    hide DeterministicQuality;
  }

  /** A judged answer is retried if and only if its score is short of the minimum, when a retry is wanted at all and
      there is a permitted, configured tier above. */
  lemma JudgeDecidesRetry(cfg: Config, i: Inputs, up: Tier)
    requires i.first.reply.Reply? && cfg.enabled && cfg.escalates && cfg.hasJudge && i.firstScore.Some?
    requires var r := cfg.parse(i.first.reply.body); !(cfg.isBlank(r.content) && r.hasToolCalls)
    requires Rank(up) == Rank(EffectiveTier(i.shape, i.c, cfg.confidenceThreshold)) + 1
    requires IsPermitted(i.key, FormatTier(up)) && up in cfg.routes
    ensures RetryOf(cfg, i).Some? <==> i.firstScore.value < cfg.minimumScore
    ensures RetryOf(cfg, i).Some? ==> RetryOf(cfg, i).value.tier == up
  {
    hide EffectiveTier;
    hide IsPermitted;
    hide DeterministicQuality;
  }

  /** A retry is one tier up, permitted and configured, and goes to that tier's active model when the catalog routes. */
  lemma RetryIsRouted(cfg: Config, i: Inputs)
    requires i.first.reply.Reply? && RetryOf(cfg, i).Some?
    ensures var call := RetryOf(cfg, i).value;
      Rank(call.tier) == Rank(EffectiveTier(i.shape, i.c, cfg.confidenceThreshold)) + 1
      && IsPermitted(i.key, FormatTier(call.tier)) && call.tier in cfg.routes && call.reply == i.retryReply
      && (cfg.catalogEnabled && i.active.Some? ==> call.model == i.active.value)
      && (!cfg.catalogEnabled || i.active.None? ==> call.model == cfg.routes[call.tier].model)
  {
    hide EffectiveTier;
    hide IsPermitted;
    hide FirstCheck;
  }

  /** Without a judge's word the deterministic checks decide: an answer is retried if and only if it does not pass them. */
  lemma ChecksDecideRetry(cfg: Config, i: Inputs, up: Tier)
    requires i.first.reply.Reply? && cfg.enabled && cfg.escalates && (!cfg.hasJudge || i.firstScore.None?)
    requires Rank(up) == Rank(EffectiveTier(i.shape, i.c, cfg.confidenceThreshold)) + 1
    requires IsPermitted(i.key, FormatTier(up)) && up in cfg.routes
    ensures RetryOf(cfg, i).Some?
      <==> !DeterministicQuality(cfg, i.shape, i.c, cfg.parse(i.first.reply.body)).passed
  {
    hide EffectiveTier;
    hide IsPermitted;
    hide DeterministicQuality;
  }

  /** A retry is one tier above the request's own, never lower, and one the key may use. */
  lemma RetryIsOneTierUp(cfg: Config, i: Inputs)
    requires i.first.reply.Reply? && i.first.tier == EffectiveTier(i.shape, i.c, cfg.confidenceThreshold)
    requires RetryOf(cfg, i).Some?
    ensures Rank(RetryOf(cfg, i).value.tier) == Rank(i.first.tier) + 1
    ensures IsPermitted(i.key, FormatTier(RetryOf(cfg, i).value.tier))
  {
  }

  /** A turn that only calls tools is never retried, whatever the judge would say. */
  lemma ToolTurnIsNotRetried(cfg: Config, i: Inputs)
    requires i.first.reply.Reply? && OnlyCallsTools(cfg, cfg.parse(i.first.reply.body))
    ensures RetryOf(cfg, i).None?
  {
  }

  /** The judge was asked about the first answer and scored it. */
  predicate ScoredFirst(cfg: Config, i: Inputs)
    requires i.first.reply.Reply?
  {
    cfg.hasJudge && !OnlyCallsTools(cfg, cfg.parse(i.first.reply.body)) && i.firstScore.Some?
  }

  predicate ScoredRetry(cfg: Config, i: Inputs)
    requires i.first.reply.Reply?
  {
    cfg.hasJudge && IsRetryBilled(cfg, i) && i.retryScore.Some?
  }

  /** A measure of answers that the judge's replies agree with. */
  predicate AgreesWithJudge(cfg: Config, i: Inputs, score: Call -> real)
    requires i.first.reply.Reply?
  {
    (ScoredFirst(cfg, i) ==> i.firstScore.value == score(i.first))
    && (ScoredRetry(cfg, i) ==> i.retryScore.value == score(RetryOf(cfg, i).value))
  }

  predicate ServesTheBest(cfg: Config, i: Inputs, score: Call -> real)
    requires Delivers(i.first.reply)
  {
    forall call <- BilledCalls(cfg, i) :: score(call) <= score(ServedCall(cfg, i))
  }

  lemma BilledCallsAre(cfg: Config, i: Inputs)
    requires i.first.reply.Reply?
    ensures forall call :: call in BilledCalls(cfg, i) <==> call == i.first || (IsRetryBilled(cfg, i) && call == RetryOf(cfg, i).value)
  {
    hide RetryTier;
    hide CheckOf;
    assert BilledCalls(cfg, i)[0] == i.first;
    if IsRetryBilled(cfg, i) {
      assert BilledCalls(cfg, i)[1] == RetryOf(cfg, i).value;
    }
  }

  /** The served answer is the best of those billed, by every measure the judge's replies leave open, exactly when the
      judge scored both, or there was no second answer: a judge that stays silent hands the retry the victory. */
  lemma ServedAnswerIsTheBetter(cfg: Config, i: Inputs)
    requires Delivers(i.first.reply) && i.first.tier == EffectiveTier(i.shape, i.c, cfg.confidenceThreshold)
    ensures (forall score :: AgreesWithJudge(cfg, i, score) ==> ServesTheBest(cfg, i, score))
      <==> (IsRetryBilled(cfg, i) ==> ScoredFirst(cfg, i) && ScoredRetry(cfg, i))
  {
    hide DeterministicQuality;
    hide EffectiveTier;
    hide IsPermitted;
    BilledCallsAre(cfg, i);
    hide BilledCalls;
    if IsRetryBilled(cfg, i) {
      RetryIsOneTierUp(cfg, i);
      var retry := RetryOf(cfg, i).value;
      assert retry != i.first;
      if !(ScoredFirst(cfg, i) && ScoredRetry(cfg, i)) {
        var score := UnluckyScore(cfg, i);
        assert i.first in BilledCalls(cfg, i) && retry in BilledCalls(cfg, i);
        assert AgreesWithJudge(cfg, i, score) && !ServesTheBest(cfg, i, score);
      }
    }
  }

  /** A measure that agrees with the judge and by which the answer that was not served is the better. */
  ghost function UnluckyScore(cfg: Config, i: Inputs): Call -> real
    requires Delivers(i.first.reply) && IsRetryBilled(cfg, i)
  {
    var loser := if IsRetryServed(cfg, i) then i.first else RetryOf(cfg, i).value;
    var first := if ScoredFirst(cfg, i) then i.firstScore.value else if ScoredRetry(cfg, i) then
      (if loser == i.first then i.retryScore.value + 1.0 else i.retryScore.value - 1.0) else 0.0;
    var other := if ScoredRetry(cfg, i) then i.retryScore.value else
      (if loser == i.first then first - 1.0 else first + 1.0);
    (call: Call) => if call == i.first then first else other
  }

  /** The input that shows it: the first answer scored 0.4 of the 0.5 asked for, the judge says nothing about the retry,
      and the retry is served, although it may be worth only 0.1. */
  lemma SilentJudgeServesWorse(cfg: Config, i: Inputs, score: Call -> real)
    requires cfg.enabled && cfg.escalates && cfg.hasJudge && cfg.minimumScore == 0.5 && cfg.confidenceThreshold == 0.0
    requires cfg.routes == map[Simple := Route("b", None, None)] && !cfg.catalogEnabled
    requires !cfg.isBlank(cfg.parse("first").content)
    requires i == Inputs(None, Shape(false, false, false), Classification(Trivial, 1.0, None),
      Call(Trivial, "a", Reply(200, [], "first", true)), Some(0.4), None, Reply(200, [], "second", true), None)
    requires score(i.first) == 0.4 && score(Call(Simple, "b", i.retryReply)) == 0.1
    ensures AgreesWithJudge(cfg, i, score) && !ServesTheBest(cfg, i, score)
    ensures ServedCall(cfg, i) == Call(Simple, "b", i.retryReply)
  {
    assert RetryOf(cfg, i) == Some(Call(Simple, "b", i.retryReply));
    BilledCallsAre(cfg, i);
  }
}
