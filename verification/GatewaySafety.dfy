/** What holds in every reachable state of the gateway, however its requests interleave. */
module GatewaySafety {
  import opened Basics
  import opened Tiers
  import opened Permissions
  import opened QualityGate
  import opened OldestFirst
  import opened Sorting
  import opened Gateway
  import opened EmbeddingText
  import Exact = ResponseCache
  import Semantic = SemanticCache

  // ----- one task ------------------------------------------------------------------------------------------

  /** Body, status, headers (the ones let through) and tier of the response are all those of this call. */
  predicate IsAnswerOf(cfg: Settings, response: Exact.Response, call: Call)
  {
    call.reply.Reply?
    && response.body == call.reply.body && response.status == call.reply.status
    && response.headers == Filter(call.reply.headers, cfg.gate.isSafe)
    && response.tier == FormatTier(call.tier)
  }

  /** The response is, whole, the answer of one successful, fully read call of this plain (non-streaming) request. */
  ghost predicate CameFrom(cfg: Settings, task: Task, response: Exact.Response)
  {
    !task.request.isStream
    && exists call <- task.calls :: IsAnswerOf(cfg, response, call) && 200 <= call.reply.status <= 299 && call.reply.complete
  }

  /** The response relays one call of this request, which asked for a stream or was not answered with success. */
  ghost predicate Relays(cfg: Settings, task: Task, response: Exact.Response)
  {
    exists call <- task.calls :: IsAnswerOf(cfg, response, call)
      && (task.request.isStream || !(200 <= call.reply.status <= 299))
  }

  /** At most two calls, each on a permitted tier, the second one tier above a first that was delivered. */
  ghost predicate CallsBounded(task: Task)
  {
    |task.calls| <= 2
    && (forall call <- task.calls :: IsPermitted(task.key, FormatTier(call.tier)))
    && (|task.calls| == 2 ==>
      Delivers(task.calls[0].reply) && Rank(task.calls[1].tier) == Rank(task.calls[0].tier) + 1 && !task.request.isStream)
  }

  /** Calls the budget is charged for: a plain request's first call once it succeeds, its retry once it is read. */
  function Chargeable(task: Task): nat
  {
    if task.request.isStream || task.calls == [] then 0
    else
      (if Succeeds(task.calls[0].reply) then 1 else 0)
      + (if |task.calls| >= 2 && Delivers(task.calls[1].reply) then 1 else 0)
  }

  ghost predicate IsFirst(cfg: Settings, task: Task, c: Classification, first: Call)
  {
    task.calls == [first] && Succeeds(first.reply) && !task.request.isStream
    && first.tier == EffectiveTier(task.request.shape, c, cfg.gate.confidenceThreshold)
  }

  ghost predicate IsRetry(cfg: Settings, task: Task, i: Inputs)
  {
    i.key == task.key && !task.request.isStream && Delivers(i.first.reply) && IsRetryBilled(cfg.gate, i)
    && task.calls == [i.first, RetryOf(cfg.gate, i).value]
  }

  ghost predicate PhaseOk(cfg: Settings, task: Task)
  {
    match task.phase
    case LookingUpExact => task.calls == [] && task.charges == 0
    case LookingUpSimilar => task.calls == [] && task.charges == 0
    case Classifying => task.calls == [] && task.charges == 0
    case Forwarding(c, tier) =>
      task.calls == [] && task.charges == 0 && IsPermitted(task.key, FormatTier(tier))
      && tier == EffectiveTier(task.request.shape, c, cfg.gate.confidenceThreshold)
    case Charging(c, first) => task.charges == 0 && IsFirst(cfg, task, c, first)
    case AwaitingBody(c, first) => task.charges == 1 && IsFirst(cfg, task, c, first)
    case Judging(c, first) => task.charges == 1 && IsFirst(cfg, task, c, first) && Delivers(first.reply)
    case ChargingRetry(i) => task.charges == 1 && IsRetry(cfg, task, i)
    case StoringExact(answer) => task.charges == Chargeable(task) && CameFrom(cfg, task, Stored(answer))
    case StoringSimilar(answer) => task.charges == Chargeable(task) && CameFrom(cfg, task, Stored(answer))
    case Done(result) => task.charges == Chargeable(task) && ResultOk(cfg, task, result)
  }

  ghost predicate ResultOk(cfg: Settings, task: Task, result: Result)
  {
    result.Served? ==>
      IsPermitted(task.key, result.response.tier)
      && (result.source == Fresh ==> CameFrom(cfg, task, result.response))
      && (result.source == Relayed ==> Relays(cfg, task, result.response))
      && (result.source in {ExactHit, SemanticHit} ==> task.calls == [])
      && (result.source == SemanticHit ==> MayBeSimilar(cfg, task.request))
  }

  ghost predicate TaskOk(cfg: Settings, task: Task)
  {
    CallsBounded(task) && PhaseOk(cfg, task)
  }

  /** A task keeps its key and its request, and only adds calls. */
  ghost predicate Grows(before: Task, after: Task)
  {
    after.key == before.key && after.request == before.request && before.calls <= after.calls
  }

  lemma CameFromGrows(cfg: Settings, before: Task, after: Task, response: Exact.Response)
    requires Grows(before, after) && CameFrom(cfg, before, response)
    ensures CameFrom(cfg, after, response)
  {
    hide Filter;
    var call :| call in before.calls && Delivers(call.reply) && response == Stored(AnswerOf(cfg.gate, call));
    assert call in after.calls;
  }

  /** A served, plain answer is on a permitted tier because its call was. */
  lemma CameFromPermitted(cfg: Settings, task: Task, response: Exact.Response)
    requires CallsBounded(task) && CameFrom(cfg, task, response)
    ensures IsPermitted(task.key, response.tier)
  {
  }

  lemma ForwardKeepsTask(cfg: Settings, task: Task, c: Classification, tier: Tier, active: Option<string>, reply: Reply)
    requires TaskOk(cfg, task) && task.phase == Forwarding(c, tier) && tier in cfg.gate.routes
    ensures var call := Call(tier, RouteModel(cfg.gate, tier, active), reply);
      TaskOk(cfg, task.(calls := task.calls + [call], phase := ReplyStep(cfg, task, c, call)))
  {
    hide EffectiveTier;
    hide IsPermitted;
    hide Filter;
    hide FormatTier;
    var call := Call(tier, RouteModel(cfg.gate, tier, active), reply);
    assert task.calls + [call] == [call];
    var after := task.(calls := [call], phase := ReplyStep(cfg, task, c, call));
    assert call in after.calls;
    assert CallsBounded(after);
    if reply.Reply? && after.phase.Done? {
      assert Relays(cfg, after, Stored(AnswerOf(cfg.gate, call)));
    }
  }

  lemma AnswerIsTheCalls(cfg: Settings, call: Call)
    requires call.reply.Reply?
    ensures IsAnswerOf(cfg, Stored(AnswerOf(cfg.gate, call)), call)
  {
  }

  lemma JudgeKeepsTask(cfg: Settings, task: Task, i: Inputs)
    requires TaskOk(cfg, task) && task.phase == Judging(i.c, i.first)
    requires i.key == task.key && i.shape == task.request.shape && i.retryScore.None?
    ensures TaskOk(cfg, JudgeStep(cfg, task, i)) && Grows(task, JudgeStep(cfg, task, i))
  {
    hide EffectiveTier;
    hide IsPermitted;
    hide Filter;
    hide FormatTier;
    hide RetryOf;
    var after := JudgeStep(cfg, task, i);
    assert after.calls[0] == i.first;
    AnswerIsTheCalls(cfg, i.first);
    if RetryOf(cfg.gate, i).Some? {
      RetryIsOneTierUp(cfg.gate, i);
      RetryReplies(cfg.gate, i);
      assert after.calls == [i.first, RetryOf(cfg.gate, i).value];
      assert CallsBounded(after);
    }
  }

  lemma RetryReplies(cfg: Config, i: Inputs)
    requires i.first.reply.Reply? && RetryOf(cfg, i).Some?
    ensures RetryOf(cfg, i).value.reply == i.retryReply
  {
  }

  lemma ChargeRetryKeepsTask(cfg: Settings, task: Task, i: Inputs, score: Option<real>)
    requires TaskOk(cfg, task) && task.phase == ChargingRetry(i)
    ensures var served := ServedCall(cfg.gate, i.(retryScore := score));
      TaskOk(cfg, task.(charges := task.charges + 1, phase := StoringExact(AnswerOf(cfg.gate, served))))
  {
    hide EffectiveTier;
    hide IsPermitted;
    hide Filter;
    hide FormatTier;
    hide Keeps;
    hide FirstCheck;
    hide RetryTier;
    RetryReplies(cfg.gate, i);
    var j := i.(retryScore := score);
    assert RetryOf(cfg.gate, j) == RetryOf(cfg.gate, i);
    var served := ServedCall(cfg.gate, j);
    assert served == task.calls[0] || served == task.calls[1];
    assert served in task.calls;
    AnswerIsTheCalls(cfg, served);
  }

  /** The steps before the first call: a hit is served only on a permitted tier, a miss moves on. */
  lemma LookUpKeepsTask(cfg: Settings, task: Task, exact: Exact.Entries, live: seq<Semantic.Entry>,
      now: nat, judged: Option<bool>, classified: Option<Classification>, session: Option<Tier>)
    requires TaskOk(cfg, task)
    requires task.phase.LookingUpExact? || task.phase.LookingUpSimilar? || task.phase.Classifying?
    ensures TaskOk(cfg, task.(phase := ExactStep(cfg, task, exact, now)))
    ensures MayBeSimilar(cfg, task.request) ==> TaskOk(cfg, task.(phase := SimilarStep(cfg, task, live, judged)))
    ensures TaskOk(cfg, task.(phase := ClassifyStep(cfg, task, classified, session)))
    ensures TaskOk(cfg, task.(phase := Classifying))
  {
    hide EffectiveTier;
    hide IsPermitted;
    hide FormatTier;
    hide BestMatch;
    hide MayBeSimilar;
  }

  lemma ReadKeepsTask(cfg: Settings, task: Task, c: Classification, first: Call)
    requires TaskOk(cfg, task)
    ensures task.phase == Charging(c, first) ==>
      TaskOk(cfg, task.(charges := task.charges + 1, phase := AwaitingBody(c, first)))
    ensures task.phase == AwaitingBody(c, first) ==>
      TaskOk(cfg, task.(phase := if Delivers(first.reply) then Judging(c, first) else Done(Failed)))
  {
    hide EffectiveTier;
    hide IsPermitted;
    hide FormatTier;
  }

  lemma StoreKeepsTask(cfg: Settings, task: Task, answer: Answer)
    requires TaskOk(cfg, task)
    ensures task.phase == StoringExact(answer) ==> TaskOk(cfg, task.(phase := StoringSimilar(answer)))
    ensures task.phase == StoringSimilar(answer) ==> TaskOk(cfg, task.(phase := Done(Served(Fresh, Stored(answer)))))
  {
    hide IsPermitted;
    hide FormatTier;
    hide Filter;
    if task.phase == StoringExact(answer) || task.phase == StoringSimilar(answer) {
      CameFromGrows(cfg, task, task.(phase := StoringSimilar(answer)), Stored(answer));
      CameFromGrows(cfg, task, task.(phase := Done(Served(Fresh, Stored(answer)))), Stored(answer));
      CameFromPermitted(cfg, task, Stored(answer));
    }
  }

  /** Whatever the step, a task stays in order and only adds calls. */
  lemma ActKeepsTask(cfg: Settings, task: Task, exact: Exact.Entries, similar: seq<Semantic.Entry>, a: Action)
    requires TaskOk(cfg, task)
    ensures var after := Act(cfg, task, exact, similar, a).task;
      TaskOk(cfg, after) && Grows(task, after)
  {
    hide JudgeStep;
    hide ReplyStep;
    hide ServedCall;
    hide ExactStep;
    hide SimilarStep;
    hide SimilarStore;
    hide ClassifyStep;
    hide MayBeSimilar;
    hide TaskOk;
    hide AnswerOf;
    hide LiveEntries;
    hide Evicts;
    hide RouteModel;
    hide Delivers;
    match (task.phase, a)
    case (LookingUpExact, LookUpExact(now)) =>
      LookUpKeepsTask(cfg, task, exact, similar, now, None, None, None);
    case (LookingUpSimilar, LookUpSimilar(now, judged)) =>
      LookUpKeepsTask(cfg, task, exact, LiveEntries(cfg, similar, now), now, judged, None, None);
    case (Classifying, Classify(classified, session)) =>
      LookUpKeepsTask(cfg, task, exact, similar, 0, None, classified, session);
    case (Forwarding(c, tier), Forward(active, reply)) =>
      if tier in cfg.gate.routes {
        ForwardKeepsTask(cfg, task, c, tier, active, reply);
      }
    case (Charging(c, first), Charge) =>
      ReadKeepsTask(cfg, task, c, first);
    case (AwaitingBody(c, first), ReadBody) =>
      ReadKeepsTask(cfg, task, c, first);
    case (Judging(c, first), Judge(score, active, reply)) =>
      JudgeKeepsTask(cfg, task, Inputs(task.key, task.request.shape, c, first, score, active, reply, None));
    case (ChargingRetry(i), ChargeRetry(score)) =>
      ChargeRetryKeepsTask(cfg, task, i, score);
    case (StoringExact(answer), StoreExact(_, _)) =>
      StoreKeepsTask(cfg, task, answer);
    case (StoringSimilar(answer), StoreSimilar(_)) =>
      StoreKeepsTask(cfg, task, answer);
    case _ =>
  }

  // ----- the caches -----------------------------------------------------------------------------------------

  /** The response is the whole answer of one successful call of one plain request with that hash. */
  ghost predicate IsWhole(cfg: Settings, tasks: seq<Task>, hash: nat, response: Exact.Response)
  {
    exists t :: 0 <= t < |tasks| && tasks[t].request.hash == hash && CameFrom(cfg, tasks[t], response)
  }

  /** The response is the whole answer of one successful call of a plain request of that tenant. */
  ghost predicate IsOwnWhole(cfg: Settings, tasks: seq<Task>, tenant: string, response: Exact.Response)
  {
    exists t :: 0 <= t < |tasks| && Tenant(tasks[t].key) == tenant && CameFrom(cfg, tasks[t], response)
  }

  /** The entry holds the whole answer, free of tool calls, of a call of this request, under the request's tenant and
      its text as sent. */
  ghost predicate Wrote(cfg: Settings, task: Task, e: Semantic.Entry)
  {
    CameFrom(cfg, task, e.response) && !cfg.gate.parse(e.response.body).hasToolCalls
    && e.tenant == Tenant(task.key)
    && e.prompt == TextOf(Sent(cfg, task)) && e.embedding == cfg.embed(e.prompt)
  }

  ghost predicate EntryOk(cfg: Settings, tasks: seq<Task>, e: Semantic.Entry)
  {
    exists t :: 0 <= t < |tasks| && Wrote(cfg, tasks[t], e)
  }

  ghost predicate HitOk(cfg: Settings, tasks: seq<Task>, task: Task)
  {
    task.phase.Done? && task.phase.result.Served? ==>
      var r := task.phase.result;
      (r.source == ExactHit ==> IsWhole(cfg, tasks, task.request.hash, r.response))
      && (r.source == SemanticHit ==>
        IsOwnWhole(cfg, tasks, Tenant(task.key), r.response) && !cfg.gate.parse(r.response.body).hasToolCalls)
  }

  ghost predicate Inv(cfg: Settings, s: Sys)
  {
    (forall t :: 0 <= t < |s.tasks| ==> TaskOk(cfg, s.tasks[t]) && HitOk(cfg, s.tasks, s.tasks[t]))
    && (forall hash <- s.exact :: IsWhole(cfg, s.tasks, hash, s.exact[hash].value))
    && (forall e <- s.similar :: EntryOk(cfg, s.tasks, e))
  }

  /** Tasks are never removed, and each one only grows. */
  ghost predicate AllGrow(before: seq<Task>, after: seq<Task>)
  {
    |before| <= |after| && forall t :: 0 <= t < |before| ==> Grows(before[t], after[t])
  }

  lemma WholeGrows(cfg: Settings, before: seq<Task>, after: seq<Task>, response: Exact.Response)
    requires AllGrow(before, after)
    ensures forall hash :: IsWhole(cfg, before, hash, response) ==> IsWhole(cfg, after, hash, response)
    ensures forall tenant :: IsOwnWhole(cfg, before, tenant, response) ==> IsOwnWhole(cfg, after, tenant, response)
  {
    hide CameFrom;
    forall t | 0 <= t < |before| && CameFrom(cfg, before[t], response)
      ensures CameFrom(cfg, after[t], response)
    {
      CameFromGrows(cfg, before[t], after[t], response);
    }
  }

  lemma WroteGrows(cfg: Settings, before: Task, after: Task, e: Semantic.Entry)
    requires Grows(before, after) && Wrote(cfg, before, e)
    ensures Wrote(cfg, after, e)
  {
    assert before.calls != [] && after.calls[0] == before.calls[0];
    CameFromGrows(cfg, before, after, e.response);
  }

  lemma EntryGrows(cfg: Settings, before: seq<Task>, after: seq<Task>, e: Semantic.Entry)
    requires AllGrow(before, after) && EntryOk(cfg, before, e)
    ensures EntryOk(cfg, after, e)
  {
    hide Wrote;
    hide Grows;
    var t :| 0 <= t < |before| && Wrote(cfg, before[t], e);
    WroteGrows(cfg, before[t], after[t], e);
  }

  lemma EntryIsOwnWhole(cfg: Settings, tasks: seq<Task>, e: Semantic.Entry)
    requires EntryOk(cfg, tasks, e)
    ensures IsOwnWhole(cfg, tasks, e.tenant, e.response) && !cfg.gate.parse(e.response.body).hasToolCalls
  {
    hide CameFrom;
    var t :| 0 <= t < |tasks| && Wrote(cfg, tasks[t], e);
  }

  /** What a step leaves in the exact cache was there before or is the request's own whole answer. */
  lemma ActExact(cfg: Settings, task: Task, exact: Exact.Entries, similar: seq<Semantic.Entry>, a: Action, hash: nat)
    requires TaskOk(cfg, task)
    ensures var effect := Act(cfg, task, exact, similar, a);
      hash in effect.exact ==>
        (hash in exact && effect.exact[hash] == exact[hash])
        || (hash == task.request.hash && CameFrom(cfg, effect.task, effect.exact[hash].value))
  {
    hide JudgeStep;
    hide ReplyStep;
    hide ClassifyStep;
    hide SimilarStep;
    hide SimilarStore;
    hide AnswerOf;
    hide CallsBounded;
    hide CameFrom;
    hide ServedCall;
    hide Evicts;
    match (task.phase, a)
    case (StoringExact(answer), StoreExact(now, kept)) =>
      if Evicts(exact, kept, cfg.exactCapacity) {
        SizeAfterEviction(exact, kept, cfg.exactCapacity);
        var after := Act(cfg, task, exact, similar, a).task;
        assert Grows(task, after);
        CameFromGrows(cfg, task, after, Stored(answer));
      }
    case _ =>
  }

  lemma StoreStepMembers(entries: seq<Semantic.Entry>, capacity: nat, stored: Semantic.Entry, e: Semantic.Entry)
    requires e in Semantic.StoreStep(entries, capacity, stored)
    ensures e in entries || e == stored
  {
    SortKeepsMembers(entries, Semantic.InsertedOrder());
  }

  /** What a step leaves in the semantic cache was there before or is the request's own whole, tool-free answer. */
  lemma ActSimilar(cfg: Settings, task: Task, exact: Exact.Entries, similar: seq<Semantic.Entry>, a: Action, e: Semantic.Entry)
    requires TaskOk(cfg, task)
    ensures var effect := Act(cfg, task, exact, similar, a);
      e in effect.similar && e !in similar ==> Wrote(cfg, effect.task, e)
  {
    hide JudgeStep;
    hide ReplyStep;
    hide ClassifyStep;
    hide ExactStep;
    hide SimilarStep;
    hide ServedCall;
    hide AnswerOf;
    hide CallsBounded;
    hide CameFrom;
    hide Evicts;
    hide Semantic.StoreStep;
    match (task.phase, a)
    case (LookingUpSimilar, LookUpSimilar(now, _)) =>
      FilterMembers(similar, Semantic.IsLive(now, cfg.semanticTtl));
    case (StoringSimilar(answer), StoreSimilar(now)) =>
      var stored := EntryOf(cfg, task, answer, now);
      if e in Semantic.StoreStep(similar, cfg.semanticCapacity, stored) {
        StoreStepMembers(similar, cfg.semanticCapacity, stored, e);
      }
      var after := Act(cfg, task, exact, similar, a).task;
      assert Grows(task, after);
      CameFromGrows(cfg, task, after, Stored(answer));
      assert Sent(cfg, after) == Sent(cfg, task);
    case _ =>
  }

  ghost predicate IsHit(p: Phase, source: Source)
  {
    p.Done? && p.result.Served? && p.result.source == source
  }

  /** What a step serves from a cache is the entry under the request's hash, or a semantic one of the tenant's own. */
  lemma ActHits(cfg: Settings, task: Task, exact: Exact.Entries, similar: seq<Semantic.Entry>, a: Action)
    requires TaskOk(cfg, task)
    ensures var p := Act(cfg, task, exact, similar, a).task.phase;
      var hash := task.request.hash;
      p == task.phase || (IsHit(p, ExactHit) ==> hash in exact && exact[hash].value == p.result.response)
    ensures var p := Act(cfg, task, exact, similar, a).task.phase;
      p == task.phase
      || (IsHit(p, SemanticHit) ==> exists e <- similar :: e.response == p.result.response && e.tenant == Tenant(task.key))
  {
    hide AnswerOf;
    hide ServedCall;
    hide SimilarStore;
    hide RetryOf;
    hide Semantic.Best;
    hide IsPermitted;
    hide EffectiveTier;
    hide TaskOk;
    match (task.phase, a)
    case (LookingUpSimilar, LookUpSimilar(now, judged)) =>
      if MayBeSimilar(cfg, task.request) && BestMatch(cfg, task, LiveEntries(cfg, similar, now)).Some? {
        var q := Semantic.Query(cfg.embed(TextOf(task.request)), Tenant(task.key), cfg.candidateThreshold, cfg.similarity);
        Semantic.HitIsLiveAndOwn(q, similar, now, cfg.semanticTtl);
      }
    case _ =>
  }

  // ----- every reachable state --------------------------------------------------------------------------------

  lemma StepKeepsTasks(cfg: Settings, s: Sys, t: nat, a: Action)
    requires Inv(cfg, s) && t < |s.tasks|
    ensures var after := Apply(cfg, s, Step(t, a));
      AllGrow(s.tasks, after.tasks)
      && forall u :: 0 <= u < |after.tasks| ==> TaskOk(cfg, after.tasks[u])
  {
    hide Act;
    hide TaskOk;
    ActKeepsTask(cfg, s.tasks[t], s.exact, s.similar, a);
  }

  lemma OwnIsWhole(cfg: Settings, tasks: seq<Task>, t: nat, response: Exact.Response)
    requires t < |tasks| && CameFrom(cfg, tasks[t], response)
    ensures IsWhole(cfg, tasks, tasks[t].request.hash, response)
    ensures IsOwnWhole(cfg, tasks, Tenant(tasks[t].key), response)
  {
  }

  lemma StepKeepsCaches(cfg: Settings, s: Sys, t: nat, a: Action)
    requires Inv(cfg, s) && t < |s.tasks|
    ensures var after := Apply(cfg, s, Step(t, a));
      (forall hash <- after.exact :: IsWhole(cfg, after.tasks, hash, after.exact[hash].value))
      && (forall e <- after.similar :: EntryOk(cfg, after.tasks, e))
  {
    hide Act;
    hide CameFrom;
    hide TaskOk;
    hide IsWhole;
    hide IsOwnWhole;
    hide HitOk;
    var after := Apply(cfg, s, Step(t, a));
    StepKeepsTasks(cfg, s, t, a);
    forall hash <- after.exact
      ensures IsWhole(cfg, after.tasks, hash, after.exact[hash].value)
    {
      ActExact(cfg, s.tasks[t], s.exact, s.similar, a, hash);
      var response := after.exact[hash].value;
      if hash == s.tasks[t].request.hash && CameFrom(cfg, after.tasks[t], response) {
        OwnIsWhole(cfg, after.tasks, t, response);
      }
      WholeGrows(cfg, s.tasks, after.tasks, response);
    }
    forall e <- after.similar
      ensures EntryOk(cfg, after.tasks, e)
    {
      ActSimilar(cfg, s.tasks[t], s.exact, s.similar, a, e);
      if e in s.similar {
        EntryGrows(cfg, s.tasks, after.tasks, e);
      }
    }
  }

  lemma HitGrows(cfg: Settings, before: seq<Task>, after: seq<Task>, task: Task)
    requires AllGrow(before, after) && HitOk(cfg, before, task)
    ensures HitOk(cfg, after, task)
  {
    hide AllGrow;
    hide IsWhole;
    hide IsOwnWhole;
    if task.phase.Done? && task.phase.result.Served? {
      WholeGrows(cfg, before, after, task.phase.result.response);
    }
  }

  lemma StepKeepsHits(cfg: Settings, s: Sys, t: nat, a: Action)
    requires Inv(cfg, s) && t < |s.tasks|
    ensures HitOk(cfg, s.tasks, Act(cfg, s.tasks[t], s.exact, s.similar, a).task)
  {
    hide Act;
    hide TaskOk;
    hide IsWhole;
    hide IsOwnWhole;
    var task := s.tasks[t];
    var after := Act(cfg, task, s.exact, s.similar, a).task;
    ActKeepsTask(cfg, task, s.exact, s.similar, a);
    ActHits(cfg, task, s.exact, s.similar, a);
    assert HitOk(cfg, s.tasks, task);
    if after.phase != task.phase && IsHit(after.phase, SemanticHit) {
      var e :| e in s.similar && e.response == after.phase.result.response && e.tenant == Tenant(task.key);
      EntryIsOwnWhole(cfg, s.tasks, e);
    }
    hide EntryOk;
  }

  lemma ApplyKeepsInv(cfg: Settings, s: Sys, e: Event)
    requires Inv(cfg, s)
    ensures Inv(cfg, Apply(cfg, s, e)) && AllGrow(s.tasks, Apply(cfg, s, e).tasks)
  {
    hide Act;
    hide TaskOk;
    hide HitOk;
    hide EntryOk;
    hide IsWhole;
    var after := Apply(cfg, s, e);
    match e
    case Arrive(key, request) =>
      ArrivalIsOk(cfg, after.tasks, Task(key, request, LookingUpExact, [], 0));
      assert AllGrow(s.tasks, after.tasks);
      EntriesGrow(cfg, s, after.tasks);
    case Step(t, a) =>
      if t < |s.tasks| {
        StepKeepsTasks(cfg, s, t, a);
        StepKeepsCaches(cfg, s, t, a);
        StepKeepsHits(cfg, s, t, a);
        forall u | 0 <= u < |after.tasks|
          ensures HitOk(cfg, after.tasks, after.tasks[u])
        {
          HitGrows(cfg, s.tasks, after.tasks, after.tasks[u]);
        }
      }
  }

  lemma ArrivalIsOk(cfg: Settings, tasks: seq<Task>, task: Task)
    requires task.phase == LookingUpExact && task.calls == [] && task.charges == 0
    ensures TaskOk(cfg, task) && HitOk(cfg, tasks, task)
  {
  }

  lemma EntriesGrow(cfg: Settings, s: Sys, tasks: seq<Task>)
    requires Inv(cfg, s) && AllGrow(s.tasks, tasks)
    ensures forall hash <- s.exact :: IsWhole(cfg, tasks, hash, s.exact[hash].value)
    ensures forall e <- s.similar :: EntryOk(cfg, tasks, e)
    ensures forall task <- s.tasks :: HitOk(cfg, tasks, task)
  {
    hide AllGrow;
    hide TaskOk;
    hide HitOk;
    hide IsWhole;
    hide IsOwnWhole;
    forall hash <- s.exact
      ensures IsWhole(cfg, tasks, hash, s.exact[hash].value)
    {
      WholeGrows(cfg, s.tasks, tasks, s.exact[hash].value);
    }
    forall e <- s.similar
      ensures EntryOk(cfg, tasks, e)
    {
      EntryGrows(cfg, s.tasks, tasks, e);
    }
    forall task <- s.tasks
      ensures HitOk(cfg, tasks, task)
    {
      HitGrows(cfg, s.tasks, tasks, task);
    }
  }

  lemma {:induction false} Reachable(cfg: Settings, events: seq<Event>)
    ensures Inv(cfg, Execute(cfg, events))
  {
    if events != [] {
      hide Inv;
      hide Apply;
      Reachable(cfg, DropLast(events));
      ApplyKeepsInv(cfg, Execute(cfg, DropLast(events)), Last(events));
    }
  }

  // ----- what follows ------------------------------------------------------------------------------------------

  /** Every entry of either cache is the whole answer (body, status, headers and tier) of one and the same successful
      call of a plain request: in the exact cache of one with the entry's hash, in the semantic cache of the entry's own
      tenant, under the text that request was sent with. */
  lemma StoredAnswersAreWhole(cfg: Settings, events: seq<Event>)
    ensures var s := Execute(cfg, events);
      (forall hash <- s.exact :: IsWhole(cfg, s.tasks, hash, s.exact[hash].value))
      && (forall e <- s.similar :: EntryOk(cfg, s.tasks, e))
  {
    Reachable(cfg, events);
  }

  /** A plain request that is answered with success is answered with one call's whole answer: fresh or from the exact
      cache, of a request with its own hash; from the semantic cache, of a request of its own tenant. */
  lemma PlainAnswersAreWhole(cfg: Settings, events: seq<Event>, t: nat)
    requires t < |Execute(cfg, events).tasks|
    ensures var s := Execute(cfg, events);
      var task := s.tasks[t];
      task.phase.Done? && task.phase.result.Served? && !task.request.isStream && 200 <= task.phase.result.response.status < 300
      ==>
        (task.phase.result.source == SemanticHit ==> IsOwnWhole(cfg, s.tasks, Tenant(task.key), task.phase.result.response))
        && (task.phase.result.source != SemanticHit ==> IsWhole(cfg, s.tasks, task.request.hash, task.phase.result.response))
  {
    Reachable(cfg, events);
    var s := Execute(cfg, events);
    hide Execute;
    hide TaskOk;
    hide IsWhole;
    hide IsOwnWhole;
    var task := s.tasks[t];
    assert TaskOk(cfg, task) && HitOk(cfg, s.tasks, task);
    if task.phase.Done? && task.phase.result.Served? {
      SourceOfResult(cfg, s.tasks, t);
    }
  }

  lemma SourceOfResult(cfg: Settings, tasks: seq<Task>, t: nat)
    requires t < |tasks| && TaskOk(cfg, tasks[t]) && tasks[t].phase.Done? && tasks[t].phase.result.Served?
    ensures var r := tasks[t].phase.result;
      (r.source == Fresh ==> IsWhole(cfg, tasks, tasks[t].request.hash, r.response))
      && (r.source == Relayed && !tasks[t].request.isStream ==> !(200 <= r.response.status < 300))
  {
    hide CallsBounded;
    hide IsPermitted;
    hide Filter;
  }

  /** Whatever way an answer reached a request, its tier is one the request's key may use. */
  lemma ServedTierIsPermitted(cfg: Settings, events: seq<Event>, t: nat)
    requires t < |Execute(cfg, events).tasks|
    ensures var task := Execute(cfg, events).tasks[t];
      task.phase.Done? && task.phase.result.Served? ==> IsPermitted(task.key, task.phase.result.response.tier)
  {
    Reachable(cfg, events);
    var task := Execute(cfg, events).tasks[t];
    assert TaskOk(cfg, task);
  }

  /** A request costs at most two upstream calls, both on permitted tiers, the second one tier above a first that
      was delivered; and once it is done its key has been charged once for each call that is charged for. */
  lemma CallsAndChargesBounded(cfg: Settings, events: seq<Event>, t: nat)
    requires t < |Execute(cfg, events).tasks|
    ensures var task := Execute(cfg, events).tasks[t];
      CallsBounded(task) && task.charges <= Chargeable(task) && (task.phase.Done? ==> task.charges == Chargeable(task))
  {
    Reachable(cfg, events);
    var task := Execute(cfg, events).tasks[t];
    assert TaskOk(cfg, task);
    hide Execute;
  }

  /** The caller of one request is the caller of another: the same key, or no key either time. */
  predicate IsSameCaller(a: Option<ApiKey>, b: Option<ApiKey>)
  {
    if a.Some? && b.Some? then a.value.id == b.value.id else a.None? && b.None?
  }

  /** A semantic hit answers a plain request without tools, tool choice, tool history or response format, with an answer
      that calls no tools, made for the same caller (as long as no key is named like the open tenant), and makes no
      upstream call or charge. */
  lemma SemanticHitsAreSafe(cfg: Settings, events: seq<Event>, t: nat)
    requires t < |Execute(cfg, events).tasks|
    ensures var s := Execute(cfg, events);
      var task := s.tasks[t];
      var r := task.request;
      IsHit(task.phase, SemanticHit) ==>
        IsMadeForCaller(cfg, s.tasks, task.key, task.phase.result.response)
        && !cfg.gate.parse(task.phase.result.response.body).hasToolCalls
        && cfg.cacheEnabled && cfg.semanticEnabled && !r.isStream
        && !r.shape.hasTools && !r.hasToolChoice && !r.shape.hasToolHistory && !r.shape.hasResponseFormat
        && task.calls == [] && task.charges == 0
  {
    Reachable(cfg, events);
    var s := Execute(cfg, events);
    hide Execute;
    hide TaskOk;
    hide HitOk;
    var task := s.tasks[t];
    assert TaskOk(cfg, task) && HitOk(cfg, s.tasks, task);
    hide Inv;
    hide MayBeSimilar;
    if IsHit(task.phase, SemanticHit) {
      HitFacts(cfg, s.tasks, task);
      OwnIsCallers(cfg, s.tasks, task.key, task.phase.result.response);
      SimilarFacts(cfg, task.request);
    }
  }

  lemma HitFacts(cfg: Settings, tasks: seq<Task>, task: Task)
    requires TaskOk(cfg, task) && HitOk(cfg, tasks, task) && IsHit(task.phase, SemanticHit)
    ensures IsOwnWhole(cfg, tasks, Tenant(task.key), task.phase.result.response)
    ensures !cfg.gate.parse(task.phase.result.response.body).hasToolCalls
    ensures MayBeSimilar(cfg, task.request) && task.calls == [] && task.charges == 0
  {
    hide CallsBounded;
    hide IsPermitted;
    hide IsOwnWhole;
    hide IsWhole;
    hide MayBeSimilar;
    hide CameFrom;
    hide Relays;
  }

  lemma SimilarFacts(cfg: Settings, r: Request)
    requires MayBeSimilar(cfg, r)
    ensures cfg.cacheEnabled && cfg.semanticEnabled && !r.isStream
    ensures !r.shape.hasTools && !r.hasToolChoice && !r.shape.hasToolHistory && !r.shape.hasResponseFormat
  {
  }

  ghost predicate IsMadeForCaller(cfg: Settings, tasks: seq<Task>, key: Option<ApiKey>, response: Exact.Response)
  {
    (forall u :: 0 <= u < |tasks| && tasks[u].key.Some? ==> tasks[u].key.value.id != "open-access")
    && (key.Some? ==> key.value.id != "open-access") ==>
      exists u :: 0 <= u < |tasks| && IsSameCaller(tasks[u].key, key) && CameFrom(cfg, tasks[u], response)
  }

  lemma OwnIsCallers(cfg: Settings, tasks: seq<Task>, key: Option<ApiKey>, response: Exact.Response)
    requires IsOwnWhole(cfg, tasks, Tenant(key), response)
    ensures IsMadeForCaller(cfg, tasks, key, response)
  {
    hide CameFrom;
  }

  // ----- when a lookup hits ---------------------------------------------------------------------------------

  /** An exact lookup answers if and only if a fresh entry stands under the request's hash and its tier is permitted. */
  lemma ExactHitExactly(cfg: Settings, task: Task, exact: Exact.Entries, similar: seq<Semantic.Entry>, now: nat)
    requires task.phase == LookingUpExact
    ensures var after, hash := Act(cfg, task, exact, similar, LookUpExact(now)).task.phase, task.request.hash;
      (after.Done? <==>
        hash in exact && Age(exact[hash].at, now) < cfg.exactTtl && IsPermitted(task.key, exact[hash].value.tier))
      && (after.Done? ==> after == Done(Served(ExactHit, exact[hash].value)))
  {
    hide IsPermitted;
  }

  /** A semantic lookup answers if and only if the tenant has a candidate, its tier is permitted, and the judge, if there
      is one, says that it answers the request; without a judge it must reach the similarity asked for. */
  lemma SemanticHitExactly(cfg: Settings, task: Task, exact: Exact.Entries, similar: seq<Semantic.Entry>, now: nat,
      judged: Option<bool>)
    requires task.phase == LookingUpSimilar && MayBeSimilar(cfg, task.request)
    ensures var after := Act(cfg, task, exact, similar, LookUpSimilar(now, judged)).task.phase;
      var best := BestMatch(cfg, task, LiveEntries(cfg, similar, now));
      (after.Done? <==>
        best.Some? && IsPermitted(task.key, best.value.entry.response.tier)
        && (cfg.gate.hasJudge ==> judged == Some(true))
        && (!cfg.gate.hasJudge ==> best.value.similarity >= cfg.similarityThreshold))
      && (after.Done? ==> after == Done(Served(SemanticHit, best.value.entry.response)))
  {
    hide BestMatch;
    hide LiveEntries;
    hide IsPermitted;
    hide MayBeSimilar;
  }

  /** The step that served a semantic hit: it found a live entry of the tenant, similar enough, and it was approved. */
  ghost predicate Approves(cfg: Settings, before: Sys, t: nat, e: Event, response: Exact.Response)
  {
    t < |before.tasks| && e.Step? && e.t == t && e.action.LookUpSimilar?
    && (cfg.gate.hasJudge ==> e.action.judged == Some(true))
    && exists entry <- before.similar :: entry.response == response && IsNear(cfg, before.tasks[t], entry, e.action.now)
  }

  predicate IsNear(cfg: Settings, task: Task, entry: Semantic.Entry, now: nat)
  {
    var similarity := cfg.similarity(cfg.embed(TextOf(task.request)), entry.embedding);
    entry.tenant == Tenant(task.key) && Age(entry.at, now) < cfg.semanticTtl
    && similarity >= cfg.candidateThreshold
    && (!cfg.gate.hasJudge ==> similarity >= cfg.similarityThreshold)
  }

  lemma MatchIsNear(cfg: Settings, task: Task, similar: seq<Semantic.Entry>, now: nat)
    requires BestMatch(cfg, task, LiveEntries(cfg, similar, now)).Some?
    requires !cfg.gate.hasJudge ==> BestMatch(cfg, task, LiveEntries(cfg, similar, now)).value.similarity >= cfg.similarityThreshold
    ensures var entry := BestMatch(cfg, task, LiveEntries(cfg, similar, now)).value.entry;
      entry in similar && IsNear(cfg, task, entry, now)
  {
    var q := Semantic.Query(cfg.embed(TextOf(task.request)), Tenant(task.key), cfg.candidateThreshold, cfg.similarity);
    var live := LiveEntries(cfg, similar, now);
    Semantic.HitIsLiveAndOwn(q, similar, now, cfg.semanticTtl);
    Semantic.BestMeaning(q, live);
    hide Semantic.Best;
    hide Filter;
    var i: nat :| Semantic.IsBestAt(q, live, i) && Semantic.Best(q, live) == Semantic.MatchAt(q, live, i);
  }

  lemma ActApproves(cfg: Settings, s: Sys, t: nat, a: Action)
    requires t < |s.tasks|
    ensures var p := Act(cfg, s.tasks[t], s.exact, s.similar, a).task.phase;
      p != s.tasks[t].phase && IsHit(p, SemanticHit) ==> Approves(cfg, s, t, Step(t, a), p.result.response)
  {
    hide AnswerOf;
    hide ServedCall;
    hide SimilarStore;
    hide RetryOf;
    hide BestMatch;
    hide LiveEntries;
    hide IsPermitted;
    hide EffectiveTier;
    hide IsNear;
    var task := s.tasks[t];
    match (task.phase, a)
    case (LookingUpSimilar, LookUpSimilar(now, judged)) =>
      if MayBeSimilar(cfg, task.request) {
        SemanticHitExactly(cfg, task, s.exact, s.similar, now, judged);
        if Act(cfg, task, s.exact, s.similar, a).task.phase.Done? {
          MatchIsNear(cfg, task, s.similar, now);
        }
      }
    case _ =>
  }

  /** In every run each semantic hit was served by a step that found a live, similar entry of the asking tenant, and with
      the judge's approval if there is a judge: what the judge rejects, or says nothing about, is never served. */
  lemma {:induction false} SemanticHitsWereApproved(cfg: Settings, events: seq<Event>, t: nat)
    requires t < |Execute(cfg, events).tasks| && IsHit(Execute(cfg, events).tasks[t].phase, SemanticHit)
    ensures var response := Execute(cfg, events).tasks[t].phase.result.response;
      exists i: nat :: i < |events| && Approves(cfg, Execute(cfg, events[..i]), t, events[i], response)
  {
    var earlier, e := DropLast(events), Last(events);
    var before := Execute(cfg, earlier);
    var phase := Execute(cfg, events).tasks[t].phase;
    hide Act;
    hide Approves;
    if t < |before.tasks| && before.tasks[t].phase == phase {
      SemanticHitsWereApproved(cfg, earlier, t);
      var i: nat :| i < |earlier| && Approves(cfg, Execute(cfg, earlier[..i]), t, earlier[i], phase.result.response);
      assert events[..i] == earlier[..i] && events[i] == earlier[i];
    } else {
      assert events[..|earlier|] == earlier;
      assert e.Step? && e.t == t;
      ActApproves(cfg, before, t, e.action);
    }
  }

  // ----- stored answers are used ----------------------------------------------------------------------------

  /** A fresh answer answers the same request again: until it expires, whoever may use its tier is served it. */
  lemma ExactAnswerIsReused(cfg: Settings, task: Task, other: Task, answer: Answer, exact: Exact.Entries, kept: Exact.Entries,
      similar: seq<Semantic.Entry>, now: nat, later: nat)
    requires task.phase == StoringExact(answer) && Evicts(exact, kept, cfg.exactCapacity)
    requires other.phase == LookingUpExact && other.request.hash == task.request.hash
    requires now <= later < now + cfg.exactTtl && IsPermitted(other.key, FormatTier(answer.tier))
    ensures var stored := Act(cfg, task, exact, similar, StoreExact(now, kept));
      var served := Act(cfg, other, stored.exact, similar, LookUpExact(later)).task.phase;
      served.Done? && served.result.Served? && served.result.source == ExactHit
      && served.result.response.body == answer.body && served.result.response.status == answer.status
      && served.result.response.headers == answer.headers
  {
    hide IsPermitted;
    hide Evicts;
  }

  /** A fresh answer without tool calls is a candidate for every later request of the tenant with the text it was sent
      with: a lookup finds it, or one at least as similar. */
  lemma SimilarAnswerIsReused(cfg: Settings, task: Task, other: Task, answer: Answer, exact: Exact.Entries,
      similar: seq<Semantic.Entry>, now: nat, later: nat)
    requires task.phase == StoringSimilar(answer) && !cfg.gate.parse(answer.body).hasToolCalls
    requires cfg.cacheEnabled && cfg.semanticEnabled && 0 < cfg.semanticCapacity
    requires Tenant(other.key) == Tenant(task.key) && TextOf(other.request) == TextOf(Sent(cfg, task))
    requires now <= later < now + cfg.semanticTtl
    requires var v := cfg.embed(TextOf(other.request)); cfg.similarity(v, v) >= cfg.candidateThreshold
    ensures var stored := Act(cfg, task, exact, similar, StoreSimilar(now));
      var best := BestMatch(cfg, other, LiveEntries(cfg, stored.similar, later));
      var v := cfg.embed(TextOf(other.request));
      best.Some? && best.value.similarity >= cfg.similarity(v, v)
  {
    hide LiveEntries;
    hide EntryOf;
    hide Semantic.StoreStep;
    hide Semantic.Best;
    hide Semantic.Qualifies;
    var entry := EntryOf(cfg, task, answer, now);
    var entries := Semantic.StoreStep(similar, cfg.semanticCapacity, entry);
    StoredIsThere(similar, cfg.semanticCapacity, entry);
    EntryIsFound(cfg, task, other, answer, entries, now, later);
  }

  lemma StoredIsThere(entries: seq<Semantic.Entry>, capacity: nat, entry: Semantic.Entry)
    requires 0 < capacity
    ensures entry in Semantic.StoreStep(entries, capacity, entry)
  {
    hide Sort;
    var after := Semantic.StoreStep(entries, capacity, entry);
    assert after[|after| - 1] == entry;
  }

  lemma EntryIsFound(cfg: Settings, task: Task, other: Task, answer: Answer, entries: seq<Semantic.Entry>, now: nat, later: nat)
    requires EntryOf(cfg, task, answer, now) in entries && now <= later < now + cfg.semanticTtl
    requires Tenant(other.key) == Tenant(task.key) && TextOf(other.request) == TextOf(Sent(cfg, task))
    requires var v := cfg.embed(TextOf(other.request)); cfg.similarity(v, v) >= cfg.candidateThreshold
    ensures var best := BestMatch(cfg, other, LiveEntries(cfg, entries, later));
      var v := cfg.embed(TextOf(other.request));
      best.Some? && best.value.similarity >= cfg.similarity(v, v)
  {
    hide Stored;
    hide TextOf;
    hide Tenant;
    hide Sent;
    hide Semantic.Best;
    hide Filter;
    var entry := EntryOf(cfg, task, answer, now);
    var live := LiveEntries(cfg, entries, later);
    FilterMembers(entries, Semantic.IsLive(later, cfg.semanticTtl));
    var q := Semantic.Query(cfg.embed(TextOf(other.request)), Tenant(other.key), cfg.candidateThreshold, cfg.similarity);
    BestBeats(q, live, entry);
  }

  lemma BestBeats(q: Semantic.Query, entries: seq<Semantic.Entry>, e: Semantic.Entry)
    requires e in entries && Semantic.Qualifies(q, e)
    ensures Semantic.Best(q, entries).Some?
    ensures Semantic.Best(q, entries).value.similarity >= q.similarity(q.embedding, e.embedding)
  {
    Semantic.BestMeaning(q, entries);
    hide Semantic.Best;
    var i: nat :| Semantic.IsBestAt(q, entries, i) && Semantic.Best(q, entries) == Semantic.MatchAt(q, entries, i);
  }

  /** An answer is stored under the text its own request is looked up by exactly when the route fills in nothing
      the request left out; otherwise the same request, repeated, looks for a different text. */
  lemma StoredUnderLookupText(request: Request, route: Route)
    ensures TextOf(Filled(request, route)) == TextOf(request)
      <==> (request.prompt.maxTokens.None? ==> route.maxTokens.None?)
           && (request.prompt.temperature.None? ==> route.temperature.None?)
  {
    FillingLengthens(request.prompt, Filled(request, route).prompt);
  }

  lemma FillingLengthens(p: Prompt, q: Prompt)
    requires q == p.(maxTokens := q.maxTokens, temperature := q.temperature)
    requires p.maxTokens.Some? ==> q.maxTokens == p.maxTokens
    requires p.temperature.Some? ==> q.temperature == p.temperature
    ensures |Text(q)| == |Text(p)| + (if p.maxTokens == q.maxTokens then 0 else |Setting(MAX_TOKENS, Written(q.maxTokens))|)
      + (if p.temperature == q.temperature then 0 else |Setting(TEMPERATURE, q.temperature)|)
    ensures p.maxTokens != q.maxTokens ==> |Setting(MAX_TOKENS, Written(q.maxTokens))| > 0
    ensures p.temperature != q.temperature ==> |Setting(TEMPERATURE, q.temperature)| > 0
  {
  }

  /** A request that leaves its limit to a route of 4096 tokens is looked up as one text and stored as another. */
  lemma UnsetLimitChangesText(request: Request)
    requires request.prompt == Prompt("hi", None, None, None, None, None)
    ensures TextOf(request) == "hi"
    ensures TextOf(Filled(request, Route("m", Some(4096), None))) == "hi max_tokens=4096"
  {
    WrittenLimit();
    hide Decimal;
    var p := Filled(request, Route("m", Some(4096), None)).prompt;
    assert SamplingText(p) == "" && SettingsText(p) == Setting(MAX_TOKENS, Written(p.maxTokens));
  }

  lemma WrittenLimit()
    ensures Decimal(4096) == "4096"
  {
    assert Decimal(40) == "40" && Decimal(409) == "409";
  }
}
