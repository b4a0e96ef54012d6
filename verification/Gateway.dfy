/** Requests as interleaved tasks over the two response caches (`completions_inner` in main.rs). Each action is
    one step of one request, atomic as the lock it holds makes it. */
module Gateway {
  import opened Basics
  import opened Tiers
  import opened Permissions
  import opened QualityGate
  import opened OldestFirst
  import opened EmbeddingText
  import Session
  import Exact = ResponseCache
  import Semantic = SemanticCache

  /** What the gateway looks at in a chat request. */
  datatype Request = Request(
    hash: nat, isStream: bool, shape: Shape, hasToolChoice: bool, prompt: Prompt)

  datatype Settings = Settings(gate: Config, cacheEnabled: bool, semanticEnabled: bool,
    exactCapacity: nat, exactTtl: nat, semanticCapacity: nat, semanticTtl: nat,
    candidateThreshold: real, similarityThreshold: real,
    embed: string -> Semantic.Embedding,
    similarity: (Semantic.Embedding, Semantic.Embedding) -> real)

  datatype Source = ExactHit | SemanticHit | Fresh | Relayed

  datatype Result = Refused | Failed | Served(source: Source, response: Exact.Response)

  datatype Phase =
    | LookingUpExact
    | LookingUpSimilar
    | Classifying
    | Forwarding(c: Classification, tier: Tier)
    | Charging(c: Classification, first: Call)
    | AwaitingBody(c: Classification, first: Call)
    | Judging(c: Classification, first: Call)
    | ChargingRetry(i: Inputs)
    | StoringExact(answer: Answer)
    | StoringSimilar(answer: Answer)
    | Done(result: Result)

  /** A request in flight, with the upstream calls made for it and the budget charges made on its account. */
  datatype Task = Task(key: Option<ApiKey>, request: Request, phase: Phase, calls: seq<Call>, charges: nat)

  /** One step of a task, with what it cannot choose: clocks, replies, scores, the other components' state. */
  datatype Action =
    | LookUpExact(now: nat)
    | LookUpSimilar(now: nat, judged: Option<bool>)
    | Classify(classified: Option<Classification>, session: Option<Tier>)
    | Forward(active: Option<string>, reply: Reply)
    | Charge
    | ReadBody
    | Judge(score: Option<real>, activeAbove: Option<string>, retryReply: Reply)
    | ChargeRetry(retryScore: Option<real>)
    | StoreExact(now: nat, kept: Exact.Entries)
    | StoreSimilar(now: nat)

  datatype Effect = Effect(task: Task, exact: Exact.Entries, similar: seq<Semantic.Entry>)

  datatype Sys = Sys(tasks: seq<Task>, exact: Exact.Entries, similar: seq<Semantic.Entry>)

  datatype Event = Arrive(key: Option<ApiKey>, request: Request) | Step(t: nat, action: Action)

  const OPEN_ACCESS_TENANT: string := "open-access"

  function Tenant(key: Option<ApiKey>): string
  {
    if key.Some? then key.value.id else OPEN_ACCESS_TENANT
  }

  /** Both caches keep a response with the name of the tier that produced it. */
  function Stored(a: Answer): Exact.Response
  {
    Exact.Response(a.body, a.status, a.headers, FormatTier(a.tier))
  }

  /** The text a request is compared by in the semantic cache: its messages and its generation settings. */
  function TextOf(r: Request): string
  {
    Text(r.prompt)
  }

  /** The request as it is sent upstream: the settings it leaves out come from its route. */
  function Filled(r: Request, route: Route): Request
  {
    var p := r.prompt;
    r.(prompt := p.(
      maxTokens := if p.maxTokens.Some? then p.maxTokens else route.maxTokens,
      temperature := if p.temperature.Some? then p.temperature else route.temperature))
  }

  function Sent(cfg: Settings, task: Task): Request
  {
    if task.calls != [] && task.calls[0].tier in cfg.gate.routes
    then Filled(task.request, cfg.gate.routes[task.calls[0].tier]) else task.request
  }

  /** The tokens a call is charged for before its real usage is known. */
  function Estimate(r: Request): nat
  {
    if r.prompt.maxTokens.Some? then r.prompt.maxTokens.value else 512
  }

  predicate MayBeSimilar(cfg: Settings, r: Request)
  {
    cfg.cacheEnabled && cfg.semanticEnabled && !r.shape.hasResponseFormat && !r.shape.hasTools
    && !r.hasToolChoice && !r.shape.hasToolHistory && !r.isStream
  }

  predicate IsEquivalent(cfg: Settings, judged: Option<bool>, hit: Semantic.Match)
  {
    if cfg.gate.hasJudge then judged == Some(true) else hit.similarity >= cfg.similarityThreshold
  }

  // ----- the steps --------------------------------------------------------------------------------------

  function ExactStep(cfg: Settings, task: Task, exact: Exact.Entries, now: nat): Phase
  {
    var hit := Exact.Hit(exact, task.request.hash, now, cfg.exactTtl);
    if hit.Some? && IsPermitted(task.key, hit.value.tier) then Done(Served(ExactHit, hit.value)) else LookingUpSimilar
  }

  function LiveEntries(cfg: Settings, similar: seq<Semantic.Entry>, now: nat): seq<Semantic.Entry>
  {
    Filter(similar, Semantic.IsLive(now, cfg.semanticTtl))
  }

  function BestMatch(cfg: Settings, task: Task, live: seq<Semantic.Entry>): Option<Semantic.Match>
  {
    Semantic.Best(Semantic.Query(cfg.embed(TextOf(task.request)), Tenant(task.key), cfg.candidateThreshold, cfg.similarity), live)
  }

  function SimilarStep(cfg: Settings, task: Task, live: seq<Semantic.Entry>, judged: Option<bool>): Phase
  {
    var hit := BestMatch(cfg, task, live);
    if hit.Some? && IsEquivalent(cfg, judged, hit.value) && IsPermitted(task.key, hit.value.entry.response.tier)
    then Done(Served(SemanticHit, hit.value.entry.response)) else Classifying
  }

  function ClassifyStep(cfg: Settings, task: Task, classified: Option<Classification>, session: Option<Tier>): Phase
  {
    if classified.None? then Done(Failed)
    else
      var c := Session.Continued(classified.value, session);
      var tier := EffectiveTier(task.request.shape, c, cfg.gate.confidenceThreshold);
      if tier !in cfg.gate.routes then Done(Failed)
      else if !IsPermitted(task.key, FormatTier(tier)) then Done(Refused)
      else Forwarding(c, tier)
  }

  /** A stream, and every reply that is not a success, is relayed as it comes. */
  function ReplyStep(cfg: Settings, task: Task, c: Classification, call: Call): Phase
  {
    if call.reply.Unreachable? then Done(Failed)
    else if Succeeds(call.reply) && !task.request.isStream then Charging(c, call)
    else Done(Served(Relayed, Stored(AnswerOf(cfg.gate, call))))
  }

  function JudgeStep(cfg: Settings, task: Task, i: Inputs): Task
    requires Delivers(i.first.reply)
  {
    var retry := RetryOf(cfg.gate, i);
    if retry.None? then task.(phase := StoringExact(AnswerOf(cfg.gate, i.first)))
    else if Delivers(i.retryReply) then task.(calls := task.calls + [retry.value], phase := ChargingRetry(i))
    else task.(calls := task.calls + [retry.value], phase := StoringExact(AnswerOf(cfg.gate, i.first)))
  }

  function SimilarStore(cfg: Settings, task: Task, similar: seq<Semantic.Entry>, answer: Answer, now: nat)
    : seq<Semantic.Entry>
  {
    if cfg.cacheEnabled && cfg.semanticEnabled && !cfg.gate.parse(answer.body).hasToolCalls
    then Semantic.StoreStep(similar, cfg.semanticCapacity, EntryOf(cfg, task, answer, now))
    else similar
  }

  /** The entry describes the request as it was sent, not as it was looked up. */
  function EntryOf(cfg: Settings, task: Task, answer: Answer, now: nat): Semantic.Entry
  {
    var text := TextOf(Sent(cfg, task));
    Semantic.Entry(cfg.embed(text), text, Stored(answer), Tenant(task.key), now)
  }

  /** An action that is not the request's next step has no effect. */
  ghost function Act(cfg: Settings, task: Task, exact: Exact.Entries, similar: seq<Semantic.Entry>, a: Action): Effect
  {
    match (task.phase, a)
    case (LookingUpExact, LookUpExact(now)) =>
      Effect(task.(phase := ExactStep(cfg, task, exact, now)),
        Exact.GetStep(exact, task.request.hash, now, cfg.exactTtl), similar)
    case (LookingUpSimilar, LookUpSimilar(now, judged)) =>
      if !MayBeSimilar(cfg, task.request) then Effect(task.(phase := Classifying), exact, similar)
      else
        var live := LiveEntries(cfg, similar, now);
        Effect(task.(phase := SimilarStep(cfg, task, live, judged)), exact, live)
    case (Classifying, Classify(classified, session)) =>
      Effect(task.(phase := ClassifyStep(cfg, task, classified, session)), exact, similar)
    case (Forwarding(c, tier), Forward(active, reply)) =>
      if tier !in cfg.gate.routes then Effect(task, exact, similar)
      else
        var call := Call(tier, RouteModel(cfg.gate, tier, active), reply);
        Effect(task.(calls := task.calls + [call], phase := ReplyStep(cfg, task, c, call)), exact, similar)
    case (Charging(c, first), Charge) =>
      Effect(task.(charges := task.charges + 1, phase := AwaitingBody(c, first)), exact, similar)
    case (AwaitingBody(c, first), ReadBody) =>
      Effect(task.(phase := if Delivers(first.reply) then Judging(c, first) else Done(Failed)), exact, similar)
    case (Judging(c, first), Judge(score, active, reply)) =>
      if !Delivers(first.reply) then Effect(task, exact, similar)
      else Effect(JudgeStep(cfg, task, Inputs(task.key, task.request.shape, c, first, score, active, reply, None)), exact, similar)
    case (ChargingRetry(i), ChargeRetry(score)) =>
      if !Delivers(i.first.reply) then Effect(task, exact, similar)
      else
        var served := ServedCall(cfg.gate, i.(retryScore := score));
        Effect(task.(charges := task.charges + 1, phase := StoringExact(AnswerOf(cfg.gate, served))), exact, similar)
    case (StoringExact(answer), StoreExact(now, kept)) =>
      if !Evicts(exact, kept, cfg.exactCapacity) then Effect(task, exact, similar)
      else
        Effect(task.(phase := StoringSimilar(answer)), kept[task.request.hash := Stamped(Stored(answer), now)], similar)
    case (StoringSimilar(answer), StoreSimilar(now)) =>
      Effect(task.(phase := Done(Served(Fresh, Stored(answer)))), exact, SimilarStore(cfg, task, similar, answer, now))
    case _ => Effect(task, exact, similar)
  }

  ghost function Apply(cfg: Settings, s: Sys, e: Event): Sys
  {
    match e
    case Arrive(key, request) => s.(tasks := s.tasks + [Task(key, request, LookingUpExact, [], 0)])
    case Step(t, a) =>
      if t >= |s.tasks| then s
      else
        var effect := Act(cfg, s.tasks[t], s.exact, s.similar, a);
        Sys(s.tasks[t := effect.task], effect.exact, effect.similar)
  }

  ghost function Execute(cfg: Settings, events: seq<Event>): Sys
  {
    if events == [] then Sys([], map[], []) else Apply(cfg, Execute(cfg, DropLast(events)), Last(events))
  }
}
