/** The five complexity tiers and the policy floors that raise a request's tier (miser-policy). */
module Tiers {
  import opened Basics

  datatype Tier = Trivial | Simple | Standard | Hard | Reasoning

  const ALL_TIERS: seq<Tier> := [Trivial, Simple, Standard, Hard, Reasoning]

  function Rank(t: Tier): nat
  {
    match t
    case Trivial => 0
    case Simple => 1
    case Standard => 2
    case Hard => 3
    case Reasoning => 4
  }

  function MaxTier(a: Tier, b: Tier): Tier
  {
    if Rank(a) < Rank(b) then b else a
  }

  function NextTier(t: Tier): Option<Tier>
  {
    match t
    case Trivial => Some(Simple)
    case Simple => Some(Standard)
    case Standard => Some(Hard)
    case Hard => Some(Reasoning)
    case Reasoning => None
  }

  /** The serialized, lower-case name of a tier. */
  function FormatTier(t: Tier): string
  {
    match t
    case Trivial => "trivial"
    case Simple => "simple"
    case Standard => "standard"
    case Hard => "hard"
    case Reasoning => "reasoning"
  }

  datatype TaskType = ReasoningTask | AgenticTask | CodingTask | OtherTask

  datatype Classification = Classification(tier: Tier, confidence: real, task: Option<TaskType>)

  /** What the policy looks at in a request. */
  datatype Shape = Shape(hasTools: bool, hasResponseFormat: bool, hasToolHistory: bool)

  /** The least tier a request may be served by, for each reason that applies to it. */
  function Floors(shape: Shape, c: Classification, confidenceThreshold: real): set<Tier>
  {
    (if c.confidence < confidenceThreshold || shape.hasTools || shape.hasResponseFormat then {Standard} else {})
    + (if c.task == Some(ReasoningTask) then {Reasoning} else {})
    + (if c.task == Some(AgenticTask) || shape.hasToolHistory then {Hard} else {})
  }

  /** The lowest tier at or above both the classifier's tier and every applicable floor. */
  function EffectiveTier(shape: Shape, c: Classification, confidenceThreshold: real): (tier: Tier)
    ensures tier in Floors(shape, c, confidenceThreshold) + {c.tier}
    ensures forall t <- Floors(shape, c, confidenceThreshold) + {c.tier} :: Rank(t) <= Rank(tier)
  {
    var reasons := Floors(shape, c, confidenceThreshold) + {c.tier};
    if Reasoning in reasons then Reasoning
    else if Hard in reasons then Hard
    else if Standard in reasons then Standard
    else c.tier
  }

  /** The policy engine's own computation: a local tier raised step by step. */
  method ComputeEffectiveTier(shape: Shape, c: Classification, confidenceThreshold: real) returns (tier: Tier)
    ensures tier == EffectiveTier(shape, c, confidenceThreshold)
  {
    tier := c.tier;
    if c.confidence < confidenceThreshold {
      tier := MaxTier(tier, Standard);
    }
    if shape.hasTools {
      tier := MaxTier(tier, Standard);
    }
    if shape.hasResponseFormat {
      tier := MaxTier(tier, Standard);
    }
    if c.task == Some(ReasoningTask) {
      tier := MaxTier(tier, Reasoning);
    }
    if c.task == Some(AgenticTask) {
      tier := MaxTier(tier, Hard);
    }
    if shape.hasToolHistory {
      tier := MaxTier(tier, Hard);
    }
  }

  /** What raises a request, and how far: low confidence, tools or a response format to Standard, agentic work or a tool
      history to Hard, a reasoning task to Reasoning, and nothing else. */
  lemma EffectiveTierIsTheHighest(shape: Shape, c: Classification, confidenceThreshold: real)
    ensures var rank := Rank(EffectiveTier(shape, c, confidenceThreshold));
      var toStandard := c.confidence < confidenceThreshold || shape.hasTools || shape.hasResponseFormat;
      var toHard := c.task == Some(AgenticTask) || shape.hasToolHistory;
      rank == if c.task == Some(ReasoningTask) || c.tier == Reasoning then 4
        else if toHard || c.tier == Hard then 3
        else if toStandard || c.tier == Standard then 2
        else Rank(c.tier)
  {
  }
}
