/**
 * The per-model spend breakdown read from LiteLLM (`getLiteLLMSpendByModel`) and the provider
 * guess made from a model name (`deriveProvider`). The HTTP call is an oracle: its outcome is
 * a parameter.
 */
module LiteLlm {
  import opened Wrappers
  import opened JsText

  /** `deriveProvider`: by prefix for OpenAI and Anthropic models, by substring for OpenRouter ones. */
  function DeriveProvider(model: string): (provider: string)
    ensures provider in {"openai", "anthropic", "openrouter", "unknown"}
  {
    if OpenAiName(model) then "openai"
    else if StartsWith(model, "claude") then "anthropic"
    else if OpenRouterName(model) then "openrouter"
    else "unknown"
  }

  predicate OpenAiName(model: string) {
    StartsWith(model, "gpt") || StartsWith(model, "o1") || StartsWith(model, "o3")
  }

  predicate OpenRouterName(model: string) {
    Contains(model, "deepseek") || Contains(model, "qwen") || Contains(model, "mistral")
  }

  /**
   * The rules apply in order: an OpenAI prefix wins over everything, then the claude prefix,
   * then the OpenRouter substrings; a name matching none is unknown.
   */
  lemma DeriveProviderCases(model: string)
    ensures DeriveProvider(model) == "openai" <==> OpenAiName(model)
    ensures DeriveProvider(model) == "anthropic" <==> !OpenAiName(model) && StartsWith(model, "claude")
    ensures DeriveProvider(model) == "openrouter" <==>
      !OpenAiName(model) && !StartsWith(model, "claude") && OpenRouterName(model)
    ensures DeriveProvider(model) == "unknown" <==>
      !OpenAiName(model) && !StartsWith(model, "claude") && !OpenRouterName(model)
  {
  }

  /** A name that starts with "claude" but also holds an OpenRouter substring is still Anthropic's. */
  lemma ClaudeBeforeOpenRouter(rest: string)
    ensures DeriveProvider("claude" + rest) == "anthropic"
  {
    var m := "claude" + rest;
    assert m[..6] == "claude";
    assert m[0] == 'c';
    assert !StartsWith(m, "gpt") && !StartsWith(m, "o1") && !StartsWith(m, "o3");
  }

  /** Matching is case-sensitive: an empty name is unknown, and so is an upper-case "GPT" one. */
  lemma EmptyAndUpperCaseUnknown(rest: string)
    requires !Contains("GPT" + rest, "deepseek") && !Contains("GPT" + rest, "qwen") && !Contains("GPT" + rest, "mistral")
    ensures DeriveProvider("") == "unknown"
    ensures DeriveProvider("GPT" + rest) == "unknown"
  {
    var m := "GPT" + rest;
    assert m[0] == 'G';
    assert !Contains("", "deepseek") by {
      assert forall i :: 0 <= i <= 0 ==> !OccursAt("", "deepseek", i);
    }
    assert !Contains("", "qwen") by {
      assert forall i :: 0 <= i <= 0 ==> !OccursAt("", "qwen", i);
    }
    assert !Contains("", "mistral") by {
      assert forall i :: 0 <= i <= 0 ==> !OccursAt("", "mistral", i);
    }
  }

  /**
   * One field of a report element: absent or `null`, which both make `??` take its default,
   * or any other JSON value, given by what `String()` and `Number()` make of it (`number` is
   * None where `Number()` gives NaN).
   */
  datatype Field = Nullish | Value(text: string, number: Option<real>)

  /** `String(f ?? default)`. */
  function StringOr(f: Field, default: string): (r: string)
    ensures f.Value? ==> r == f.text
    ensures f.Nullish? ==> r == default
  {
    if f.Value? then f.text else default
  }

  /** `Number(f ?? 0)`, None for NaN. */
  function NumberOr0(f: Field): (r: Option<real>)
    ensures f.Value? ==> r == f.number
    ensures f.Nullish? ==> r == Some(0.0)
  {
    if f.Value? then f.number else Some(0.0)
  }

  /** One element of the report: `null`, whose fields cannot be read, or any other value. */
  datatype ReportItem = NullItem | Item(model: Field, provider: Field, spend: Field, totalTokens: Field, requestCount: Field)

  /** The report body: an array, or any other JSON value. */
  datatype ReportBody = ReportArray(items: seq<ReportItem>) | NotAnArray

  /** How the request to `/global/spend/report` ended. */
  datatype Fetched = Threw | NotOk | Received(body: ReportBody)

  /** One mapped element; a number is None where it is NaN. */
  datatype ModelSpend = ModelSpend(model: string, provider: string, spend: Option<real>, tokens: Option<real>, requests: Option<real>)

  /**
   * One element mapped: "unknown" without a model, the provider derived from the model's
   * text without one, 0 without a number, and otherwise the String() and Number() coercions.
   */
  function ModelSpendOf(item: ReportItem): (m: ModelSpend)
    requires item.Item?
    ensures m.model == StringOr(item.model, "unknown")
    ensures item.provider.Value? ==> m.provider == item.provider.text
    ensures item.provider.Nullish? ==> m.provider == DeriveProvider(StringOr(item.model, ""))
    ensures m.spend == NumberOr0(item.spend) && m.tokens == NumberOr0(item.totalTokens)
    ensures m.requests == NumberOr0(item.requestCount)
  {
    ModelSpend(StringOr(item.model, "unknown"),
               StringOr(item.provider, DeriveProvider(StringOr(item.model, ""))),
               NumberOr0(item.spend), NumberOr0(item.totalTokens), NumberOr0(item.requestCount))
  }

  predicate HasNull(items: seq<ReportItem>) {
    exists k :: 0 <= k < |items| && items[k].NullItem?
  }

  /**
   * `getLiteLLMSpendByModel`: [] unless the response is OK and an array, and [] too when an
   * element is `null`, since reading its fields throws inside the `map` and the catch answers
   * []; else one entry per element.
   */
  function SpendByModel(fetched: Fetched): (r: seq<ModelSpend>)
    ensures !(fetched.Received? && fetched.body.ReportArray?) ==> r == []
    ensures fetched.Received? && fetched.body.ReportArray? && HasNull(fetched.body.items) ==> r == []
    ensures fetched.Received? && fetched.body.ReportArray? && !HasNull(fetched.body.items) ==>
      |r| == |fetched.body.items| && forall k :: 0 <= k < |r| ==> r[k] == ModelSpendOf(fetched.body.items[k])
  {
    match fetched
    case Received(ReportArray(items)) =>
      if HasNull(items) then []
      else seq(|items|, k requires 0 <= k < |items| => ModelSpendOf(items[k]))
    case _ => []
  }

  /** An element with neither model nor provider is reported as an unknown model of an unknown provider. */
  lemma BareItemUnknown(spend: Field)
    ensures var m := ModelSpendOf(Item(Nullish, Nullish, spend, Nullish, Nullish));
      m.model == "unknown" && m.provider == "unknown" && m.tokens == Some(0.0) && m.requests == Some(0.0)
  {
    EmptyAndUpperCaseUnknown("");
  }

  /** One `null` anywhere in the report empties the whole breakdown, however many valid elements surround it. */
  lemma NullItemEmptiesReport(before: seq<ReportItem>, after: seq<ReportItem>)
    ensures SpendByModel(Received(ReportArray(before + [NullItem] + after))) == []
  {
    var items := before + [NullItem] + after;
    assert items[|before|].NullItem?;
  }
}
