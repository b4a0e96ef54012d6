/** The text a request is compared by in the semantic cache (`request_text_for_embedding` in semantic_cache.rs). */
module EmbeddingText {
  import opened Basics

  /** The parts of a request that decide its answer: the joined message contents and the generation settings. Numbers
      that are not integers, and the stop sequences, are held as their JSON text. */
  datatype Prompt = Prompt(
    content: string, maxTokens: Option<nat>, maxCompletionTokens: Option<nat>, temperature: Option<string>,
    topP: Option<string>, stop: Option<string>)

  const MAX_TOKENS: string := " max_tokens="
  const MAX_COMPLETION_TOKENS: string := " max_completion_tokens="
  const TEMPERATURE: string := " temperature="
  const TOP_P: string := " top_p="
  const STOP: string := " stop="

  /** A setting that is present is appended behind its name. */
  function Setting(name: string, value: Option<string>): string
  {
    if value.Some? then name + value.value else ""
  }

  function Written(n: Option<nat>): Option<string>
  {
    if n.Some? then Some(Decimal(n.value)) else None
  }

  function StopText(p: Prompt): string
  {
    Setting(STOP, p.stop)
  }

  function SamplingText(p: Prompt): string
  {
    Setting(TEMPERATURE, p.temperature) + (Setting(TOP_P, p.topP) + StopText(p))
  }

  function SettingsText(p: Prompt): string
  {
    Setting(MAX_TOKENS, Written(p.maxTokens))
    + (Setting(MAX_COMPLETION_TOKENS, Written(p.maxCompletionTokens)) + SamplingText(p))
  }

  function Text(p: Prompt): string
  {
    p.content + SettingsText(p)
  }

  // ----- different settings, different texts ------------------------------------------------------------

  predicate HasNoBlank(s: string)
  {
    forall c <- s :: c != ' '
  }

  /** JSON numbers are written without blanks. */
  predicate HasPlainNumbers(p: Prompt)
  {
    (p.temperature.Some? ==> HasNoBlank(p.temperature.value)) && (p.topP.Some? ==> HasNoBlank(p.topP.value))
  }

  lemma {:induction false} DecimalHasNoBlank(n: nat)
    ensures HasNoBlank(Decimal(n)) && Decimal(n) != ""
  {
    if n >= 10 {
      DecimalHasNoBlank(n / 10);
    }
  }

  lemma {:induction false} DecimalTellsApart(m: nat, n: nat)
    requires Decimal(m) == Decimal(n)
    ensures m == n
  {
    DecimalHasNoBlank(m / 10);
    DecimalHasNoBlank(n / 10);
    if m >= 10 && n >= 10 {
      var a, b := Decimal(m / 10), Decimal(n / 10);
      assert Decimal(m)[|a|] == DIGITS[m % 10] && Decimal(n)[|b|] == DIGITS[n % 10];
      assert Decimal(m)[..|a|] == a && Decimal(n)[..|b|] == b;
      DecimalTellsApart(m / 10, n / 10);
      DigitTellsApart(m % 10, n % 10);
    } else if m < 10 && n < 10 {
      DigitTellsApart(m, n);
    }
  }

  lemma DigitTellsApart(m: nat, n: nat)
    requires m < 10 && n < 10 && DIGITS[m] == DIGITS[n]
    ensures m == n
  {
    assert forall i :: 0 <= i < 10 ==> DIGITS[i] as int == '0' as int + i;
  }

  lemma WrittenTellsApart(m: Option<nat>, n: Option<nat>)
    ensures Written(m).Some? ==> HasNoBlank(Written(m).value)
    ensures Written(m) == Written(n) ==> m == n
  {
    if m.Some? {
      DecimalHasNoBlank(m.value);
      if Written(m) == Written(n) {
        DecimalTellsApart(m.value, n.value);
      }
    }
  }

  /** What may stand behind a setting: nothing, or the name of another one. */
  predicate IsTail(name: string, s: string)
  {
    s == "" || (s[0] == ' ' && !(name <= s))
  }

  lemma SettingBehind(name: string, other: string, value: Option<string>, rest: string, at: nat)
    requires at < |name| && at < |other| && name[at] != other[at] && other[0] == ' '
    requires IsTail(name, rest)
    ensures IsTail(name, Setting(other, value) + rest)
  {
    if value.Some? {
      assert (Setting(other, value) + rest)[at] == other[at];
    } else {
      assert Setting(other, value) + rest == rest;
    }
  }

  lemma ValueEndsAtBlank(x: string, y: string, u: string, v: string)
    requires HasNoBlank(x) && HasNoBlank(y) && x + u == y + v
    requires (u == "" || u[0] == ' ') && (v == "" || v[0] == ' ')
    ensures x == y && u == v
  {
    assert forall k :: 0 <= k < |y| ==> (x + u)[k] == (y + v)[k] == y[k] && y[k] in y;
    assert forall k :: 0 <= k < |x| ==> (y + v)[k] == (x + u)[k] == x[k] && x[k] in x;
    assert (u != "" ==> (x + u)[|x|] == ' ') && (v != "" ==> (y + v)[|y|] == ' ');
    SamePrefix(x, y, u, v);
  }

  lemma SamePrefix(x: string, y: string, u: string, v: string)
    requires x + u == y + v && |x| == |y|
    ensures x == y && u == v
  {
    assert (x + u)[..|x|] == x && (y + v)[..|y|] == y;
    assert (x + u)[|x|..] == u && (y + v)[|y|..] == v;
  }

  lemma SettingTellsApart(name: string, x: Option<string>, y: Option<string>, u: string, v: string)
    requires (x.Some? ==> HasNoBlank(x.value)) && (y.Some? ==> HasNoBlank(y.value))
    requires name != "" && IsTail(name, u) && IsTail(name, v) && Setting(name, x) + u == Setting(name, y) + v
    ensures x == y && u == v
  {
    if x.Some? && y.Some? {
      assert Setting(name, x) + u == name + (x.value + u) && Setting(name, y) + v == name + (y.value + v);
      SamePrefix(name, name, x.value + u, y.value + v);
      ValueEndsAtBlank(x.value, y.value, u, v);
    } else {
      assert x.Some? ==> name <= Setting(name, x) + u;
      assert y.Some? ==> name <= Setting(name, y) + v;
      assert x.None? ==> Setting(name, x) + u == u;
      assert y.None? ==> Setting(name, y) + v == v;
    }
  }

  /** Behind each setting come only settings with other labels. */
  lemma TailsInOrder(p: Prompt)
    ensures IsTail(TOP_P, StopText(p))
    ensures IsTail(TEMPERATURE, Setting(TOP_P, p.topP) + StopText(p))
    ensures IsTail(MAX_COMPLETION_TOKENS, SamplingText(p))
    ensures IsTail(MAX_TOKENS, Setting(MAX_COMPLETION_TOKENS, Written(p.maxCompletionTokens)) + SamplingText(p))
  {
    var stop := StopText(p);
    assert stop + "" == stop;
    SettingBehind(TOP_P, STOP, p.stop, "", 1);
    SettingBehind(TEMPERATURE, STOP, p.stop, "", 1);
    SettingBehind(MAX_COMPLETION_TOKENS, STOP, p.stop, "", 1);
    SettingBehind(MAX_TOKENS, STOP, p.stop, "", 1);
    SettingBehind(TEMPERATURE, TOP_P, p.topP, stop, 2);
    SettingBehind(MAX_COMPLETION_TOKENS, TOP_P, p.topP, stop, 1);
    SettingBehind(MAX_TOKENS, TOP_P, p.topP, stop, 1);
    var top := Setting(TOP_P, p.topP) + stop;
    SettingBehind(MAX_COMPLETION_TOKENS, TEMPERATURE, p.temperature, top, 1);
    SettingBehind(MAX_TOKENS, TEMPERATURE, p.temperature, top, 1);
    SettingBehind(MAX_TOKENS, MAX_COMPLETION_TOKENS, Written(p.maxCompletionTokens), SamplingText(p), 5);
  }

  /** Requests with the same messages and any other generation setting have different texts. */
  lemma TextTellsSettingsApart(p: Prompt, q: Prompt)
    requires p.content == q.content && HasPlainNumbers(p) && HasPlainNumbers(q)
    ensures Text(p) == Text(q) <==> p == q
  {
    if Text(p) == Text(q) {
      SamePrefix(p.content, q.content, SettingsText(p), SettingsText(q));
      TailsInOrder(p);
      TailsInOrder(q);
      WrittenTellsApart(p.maxTokens, q.maxTokens);
      WrittenTellsApart(q.maxTokens, p.maxTokens);
      WrittenTellsApart(p.maxCompletionTokens, q.maxCompletionTokens);
      WrittenTellsApart(q.maxCompletionTokens, p.maxCompletionTokens);
      hide Setting;
      hide IsTail;
      hide Written;
      hide HasNoBlank;
      SettingTellsApart(MAX_TOKENS, Written(p.maxTokens), Written(q.maxTokens),
        Setting(MAX_COMPLETION_TOKENS, Written(p.maxCompletionTokens)) + SamplingText(p),
        Setting(MAX_COMPLETION_TOKENS, Written(q.maxCompletionTokens)) + SamplingText(q));
      SettingTellsApart(MAX_COMPLETION_TOKENS, Written(p.maxCompletionTokens), Written(q.maxCompletionTokens),
        SamplingText(p), SamplingText(q));
      SettingTellsApart(TEMPERATURE, p.temperature, q.temperature,
        Setting(TOP_P, p.topP) + StopText(p), Setting(TOP_P, q.topP) + StopText(q));
      SettingTellsApart(TOP_P, p.topP, q.topP, StopText(p), StopText(q));
      StopTellsApart(p.stop, q.stop);
    }
  }

  lemma StopTellsApart(x: Option<string>, y: Option<string>)
    requires Setting(STOP, x) == Setting(STOP, y)
    ensures x == y
  {
    if x.Some? && y.Some? {
      SamePrefix(STOP, STOP, x.value, y.value);
    }
  }
}
