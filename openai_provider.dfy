/**
 * The OpenAI-compatible provider: which gateway and base URL a provider is
 * built with, how a model name loses its routing prefix before it is sent,
 * which per-model parameter overrides apply, how the request keyword
 * arguments are shaped, and how a completion (or a failure) becomes an
 * `LLMResponse`. The HTTP client and the JSON-repair library are parameters.
 */
module OpenAICompat {
  import opened Wrappers
  import opened Text
  import opened Json
  import opened ProviderRegistry

  // ---------------------------------------------------------------------------
  // Responses
  // ---------------------------------------------------------------------------

  datatype ToolCallRequest = ToolCallRequest(id: string, name: string, arguments: Value)

  datatype LLMResponse = LLMResponse(
    content: Option<string>,
    toolCalls: seq<ToolCallRequest>,
    finishReason: string,
    usage: map<string, int>,
    reasoningContent: Option<string>)

  /** The response `chat` returns instead of raising: content "Error: ...", finish reason "error". */
  function ErrorResponse(message: string): (r: LLMResponse)
    ensures r.finishReason == "error" && r.content == Some("Error: " + message)
    ensures r.toolCalls == [] && r.usage == map[] && r.reasoningContent == None
  {
    LLMResponse(Some("Error: " + message), [], "error", map[], None)
  }

  /** Tool-call arguments arrive either as JSON text or already decoded. */
  datatype RawArguments = ArgText(text: string) | ArgValue(value: Value)

  datatype RawToolCall = RawToolCall(id: string, name: string, arguments: RawArguments)

  datatype RawMessage = RawMessage(
    content: Option<string>,
    toolCalls: Option<seq<RawToolCall>>,
    reasoningContent: Option<string>)

  datatype RawChoice = RawChoice(message: RawMessage, finishReason: Option<string>)

  datatype RawUsage = RawUsage(promptTokens: int, completionTokens: int, totalTokens: int)

  /** What the SDK returns; `text` is the response's printed form, used in the error message. */
  datatype RawResponse = RawResponse(choices: seq<RawChoice>, usage: Option<RawUsage>, text: string)

  /** What the client call does: return a response or raise an exception with a message. */
  datatype ClientReply = Returned(response: RawResponse) | Raised(message: string)

  function ConvertToolCall(tc: RawToolCall, repair: string -> Value): (r: ToolCallRequest)
    ensures r.id == tc.id && r.name == tc.name
    ensures tc.arguments.ArgText? ==> r.arguments == repair(tc.arguments.text)
    ensures tc.arguments.ArgValue? ==> r.arguments == tc.arguments.value
  {
    ToolCallRequest(tc.id, tc.name,
      match tc.arguments
      case ArgText(t) => repair(t)
      case ArgValue(v) => v)
  }

  /**
   * `_parse`: an empty `choices` is an error carrying the response's text;
   * otherwise the first choice's message becomes the response, with tool
   * calls in order, finish reason "stop" when none is given, and empty usage
   * when the response has none. `repair` stands for the JSON-repair parser.
   */
  function Parse(raw: RawResponse, repair: string -> Value): (r: Result<LLMResponse, string>)
    ensures r.Err? <==> |raw.choices| == 0
    ensures r.Err? ==> r.error == "OpenAI response contains no choices: " + raw.text
    ensures r.Ok? ==> r.value.content == raw.choices[0].message.content
    ensures r.Ok? ==> r.value.reasoningContent == raw.choices[0].message.reasoningContent
    ensures r.Ok? ==> r.value.finishReason != ""
    ensures r.Ok? && !Truthy(raw.choices[0].finishReason) ==> r.value.finishReason == "stop"
    ensures r.Ok? && Truthy(raw.choices[0].finishReason) ==> r.value.finishReason == raw.choices[0].finishReason.value
    ensures r.Ok? && raw.usage.None? ==> r.value.usage == map[]
    ensures r.Ok? && raw.usage.Some? ==>
      r.value.usage == map["prompt_tokens" := raw.usage.value.promptTokens,
                           "completion_tokens" := raw.usage.value.completionTokens,
                           "total_tokens" := raw.usage.value.totalTokens]
    ensures r.Ok? ==>
      var calls := raw.choices[0].message.toolCalls.GetOr([]);
      |r.value.toolCalls| == |calls| &&
      forall i :: 0 <= i < |calls| ==> r.value.toolCalls[i] == ConvertToolCall(calls[i], repair)
  {
    if |raw.choices| == 0 then Err("OpenAI response contains no choices: " + raw.text)
    else
      var choice := raw.choices[0];
      var msg := choice.message;
      var calls := msg.toolCalls.GetOr([]);
      var toolCalls := seq(|calls|, i requires 0 <= i < |calls| => ConvertToolCall(calls[i], repair));
      var usage := match raw.usage
        case None => map[]
        case Some(u) => map["prompt_tokens" := u.promptTokens,
                            "completion_tokens" := u.completionTokens,
                            "total_tokens" := u.totalTokens];
      Ok(LLMResponse(msg.content, toolCalls,
                     if Truthy(choice.finishReason) then choice.finishReason.value else "stop",
                     usage, msg.reasoningContent))
  }

  // ---------------------------------------------------------------------------
  // Model-name resolution
  // ---------------------------------------------------------------------------

  /** `r` is a trailing part of `s`. */
  predicate IsSuffix(r: string, s: string) {
    |r| <= |s| && r == s[|s| - |r|..]
  }

  /** Remove "prefix/" from the front of the model, once, when the prefix is non-empty and present. */
  function StripRoutingPrefix(model: string, prefix: string): (r: string)
    ensures IsSuffix(r, model)
    ensures prefix != "" && prefix + "/" <= model ==> model == prefix + "/" + r
    ensures !(prefix != "" && prefix + "/" <= model) ==> r == model
  {
    if prefix != "" && prefix + "/" <= model then
      assert model == prefix + "/" + model[|prefix| + 1..];
      model[|prefix| + 1..]
    else model
  }

  /** The spec whose prefix `_resolve_model` strips when there is no gateway. */
  function SpecForModel(model: string, providerName: Option<string>): (r: Option<ProviderSpec>)
    ensures FindByModel(model).Some? ==> r == FindByModel(model)
    ensures FindByModel(model).None? ==> r == FindByName(if providerName.Some? then providerName.value else "")
  {
    if FindByModel(model).Some? then FindByModel(model)
    else FindByName(if providerName.Some? then providerName.value else "")
  }

  /**
   * `_resolve_model`: a gateway that strips prefixes forwards only the last
   * "/" segment; another gateway drops its own "prefix/" once; without a
   * gateway, the prefix of the spec found by model (else by provider name)
   * is dropped once. The result is always a trailing part of the input.
   */
  function ResolveModel(gateway: Option<ProviderSpec>, providerName: Option<string>, model: string): (r: string)
    ensures IsSuffix(r, model)
    ensures gateway.Some? && gateway.value.stripModelPrefix ==> r == AfterLast(model, '/') && '/' !in r
    ensures gateway.Some? && !gateway.value.stripModelPrefix ==>
      var prefix := gateway.value.modelPrefix;
      (prefix != "" && prefix + "/" <= model ==> model == prefix + "/" + r)
      && (!(prefix != "" && prefix + "/" <= model) ==> r == model)
    ensures gateway.None? && SpecForModel(model, providerName).None? ==> r == model
    ensures gateway.None? && SpecForModel(model, providerName).Some? ==>
      var prefix := SpecForModel(model, providerName).value.modelPrefix;
      (prefix != "" && prefix + "/" <= model ==> model == prefix + "/" + r)
      && (!(prefix != "" && prefix + "/" <= model) ==> r == model)
  {
    if gateway.Some? then
      if gateway.value.stripModelPrefix then AfterLast(model, '/')
      else StripRoutingPrefix(model, gateway.value.modelPrefix)
    else
      match SpecForModel(model, providerName)
      case None => model
      case Some(spec) => StripRoutingPrefix(model, spec.modelPrefix)
  }

  /** A gateway's prefix is removed exactly once: a doubled prefix keeps its second copy. */
  lemma GatewayPrefixStrippedOnce(gw: ProviderSpec, providerName: Option<string>, rest: string)
    requires !gw.stripModelPrefix && gw.modelPrefix != ""
    ensures ResolveModel(Some(gw), providerName, gw.modelPrefix + "/" + gw.modelPrefix + "/" + rest)
            == gw.modelPrefix + "/" + rest
  {
    DoubledPrefixStrippedOnce(gw.modelPrefix, rest);
  }

  /** Stripping "prefix/" from "prefix/prefix/rest" leaves "prefix/rest". */
  lemma DoubledPrefixStrippedOnce(prefix: string, rest: string)
    requires prefix != ""
    ensures StripRoutingPrefix(prefix + "/" + prefix + "/" + rest, prefix) == prefix + "/" + rest
  {
    var p := prefix + "/";
    var m := prefix + "/" + prefix + "/" + rest;
    assert m == p + (p + rest);
    assert m[..|p|] == p && m[|p|..] == p + rest;
  }

  /** A model that does not start with the gateway's prefix is forwarded unchanged. */
  lemma GatewayLeavesOtherModels(gw: ProviderSpec, providerName: Option<string>, model: string)
    requires !gw.stripModelPrefix
    requires !(gw.modelPrefix + "/" <= model)
    ensures ResolveModel(Some(gw), providerName, model) == model
  {
  }

  /**
   * Without a gateway, the matched spec's prefix is dropped once: a model
   * "prefix/prefix/rest" keeps its second copy, as with a gateway.
   */
  lemma SpecPrefixStrippedOnce(providerName: Option<string>, rest: string, spec: ProviderSpec)
    requires spec.modelPrefix != ""
    requires SpecForModel(spec.modelPrefix + "/" + spec.modelPrefix + "/" + rest, providerName) == Some(spec)
    ensures ResolveModel(None, providerName, spec.modelPrefix + "/" + spec.modelPrefix + "/" + rest)
            == spec.modelPrefix + "/" + rest
  {
    DoubledPrefixStrippedOnce(spec.modelPrefix, rest);
  }

  /** Without a gateway, a model that names no spec and no provider name is forwarded unchanged. */
  lemma NoSpecLeavesModel(providerName: Option<string>, model: string)
    requires SpecForModel(model, providerName).None?
    ensures ResolveModel(None, providerName, model) == model
  {
  }

  /** For a prefix-stripping gateway, resolving an already resolved name changes nothing. */
  lemma StripGatewayIdempotent(gw: ProviderSpec, providerName: Option<string>, model: string)
    requires gw.stripModelPrefix
    ensures ResolveModel(Some(gw), providerName, ResolveModel(Some(gw), providerName, model))
            == ResolveModel(Some(gw), providerName, model)
  {
    AfterLastIdempotent(model, '/');
  }

  /** The OpenRouter gateway drops "openrouter/" from a legacy model name and leaves a bare one alone. */
  lemma OpenRouterModels()
    ensures ResolveModel(Some(OpenRouter), Some("openrouter"), "openrouter/anthropic/claude-opus-4-5")
            == "anthropic/claude-opus-4-5"
    ensures ResolveModel(Some(OpenRouter), Some("openrouter"), "anthropic/claude-opus-4-5")
            == "anthropic/claude-opus-4-5"
  {
    GatewayPrefixStrippedOnce(OpenRouter, Some("openrouter"), "anthropic/claude-opus-4-5");
    var m := "openrouter/anthropic/claude-opus-4-5";
    assert "openrouter/" <= m;
    assert m[11..] == "anthropic/claude-opus-4-5";
    assert "anthropic/claude-opus-4-5"[0] != "openrouter/"[0];
  }

  /** AiHubMix forwards only the last segment: "anthropic/claude-3" becomes "claude-3". */
  lemma AiHubMixModel()
    ensures ResolveModel(Some(AiHubMix), None, "anthropic/claude-3") == "claude-3"
  {
    AfterLastOfJoined("anthropic", '/', "claude-3");
    assert "anthropic" + ['/'] + "claude-3" == "anthropic/claude-3";
  }

  // ---------------------------------------------------------------------------
  // Per-model overrides
  // ---------------------------------------------------------------------------

  /** The overrides of the first pattern, in list order, that occurs in the lower-cased model. */
  function FirstOverride(overrides: seq<(string, map<string, Value>)>, modelLower: string): (r: Option<map<string, Value>>)
    ensures r.None? <==> forall k :: 0 <= k < |overrides| ==> !Contains(modelLower, overrides[k].0)
    ensures r.Some? ==> exists k :: 0 <= k < |overrides| && Contains(modelLower, overrides[k].0) && overrides[k].1 == r.value
                                    && forall j :: 0 <= j < k ==> !Contains(modelLower, overrides[j].0)
  {
    if |overrides| == 0 then None
    else if Contains(modelLower, overrides[0].0) then Some(overrides[0].1)
    else
      var r := FirstOverride(overrides[1..], modelLower);
      assert forall k :: 1 <= k < |overrides| ==> overrides[k] == overrides[1..][k - 1];
      if r.Some? then
        var k :| 0 <= k < |overrides[1..]| && Contains(modelLower, overrides[1..][k].0) && overrides[1..][k].1 == r.value
                 && forall j :: 0 <= j < k ==> !Contains(modelLower, overrides[1..][j].0);
        assert forall j :: 0 <= j < k + 1 ==> !Contains(modelLower, overrides[j].0);
        r
      else r
  }

  /** A pattern that occurs, with none before it occurring, is the one whose overrides apply. */
  lemma {:induction false} FirstOverrideAt(overrides: seq<(string, map<string, Value>)>, modelLower: string, i: int)
    requires 0 <= i < |overrides| && Contains(modelLower, overrides[i].0)
    requires forall j :: 0 <= j < i ==> !Contains(modelLower, overrides[j].0)
    ensures FirstOverride(overrides, modelLower) == Some(overrides[i].1)
  {
    if i > 0 {
      assert !Contains(modelLower, overrides[0].0);
      FirstOverrideAt(overrides[1..], modelLower, i - 1);
    }
  }

  /**
   * The overrides `_apply_model_overrides` applies: those of the first
   * pattern, in the matched spec's order, that occurs in the lower-cased model;
   * none when no standard spec matches the model.
   */
  function OverridesFor(model: string): (r: Option<map<string, Value>>)
    ensures FindByModel(model).None? ==> r.None?
    ensures FindByModel(model).Some? ==>
      var patterns := FindByModel(model).value.modelOverrides;
      (r.Some? <==> exists k :: 0 <= k < |patterns| && Contains(Lower(model), patterns[k].0))
    ensures r.Some? ==>
      var patterns := FindByModel(model).value.modelOverrides;
      exists k :: 0 <= k < |patterns| && Contains(Lower(model), patterns[k].0) && patterns[k].1 == r.value
                  && forall j :: 0 <= j < k ==> !Contains(Lower(model), patterns[j].0)
  {
    match FindByModel(model)
    case None => None
    case Some(spec) => FirstOverride(spec.modelOverrides, Lower(model))
  }

  /** In this table only Moonshot carries overrides, so the only override is Kimi K2.5's temperature 1.0. */
  lemma OnlyKimiTemperature(model: string)
    ensures OverridesFor(model).Some? ==>
      FindByModel(model) == Some(Moonshot) && OverridesFor(model).value == map["temperature" := Float("1.0")]
  {
    if OverridesFor(model).Some? {
      var spec := FindByModel(model).value;
      OverridesInTable(spec);
    }
  }

  /** Every other entry of the table has an empty override list. */
  lemma OverridesInTable(spec: ProviderSpec)
    requires spec in Providers
    ensures spec == Moonshot || spec.modelOverrides == []
    ensures spec == Moonshot ==> spec.modelOverrides == [("kimi-k2.5", map["temperature" := Float("1.0")])]
  {
  }

  /** Whatever the model, an override sets the temperature to 1.0 and nothing else. */
  lemma OverridesOnlyTemperature(model: string)
    ensures OverridesFor(model).Some? ==> OverridesFor(model).value == map["temperature" := Float("1.0")]
  {
    OnlyKimiTemperature(model);
  }

  /** A string with no upper-case letter is its own lower-case form. */
  lemma LowerOfLowerCase(s: string)
    requires forall i :: 0 <= i < |s| ==> !IsUpper(s[i])
    ensures Lower(s) == s
  {
  }

  /** A needle whose first character never appears in the text does not occur in it. */
  lemma {:induction false} NotContainedFirstChar(hay: string, needle: string)
    requires |needle| > 0 && needle[0] !in hay
    ensures !Contains(hay, needle)
    decreases |hay|
  {
    if |hay| > 0 {
      assert hay[0] != needle[0];
      NotContainedFirstChar(hay[1..], needle);
    }
  }

  /** No keyword of the list occurs in a text that holds none of the keywords' first characters. */
  lemma NoKeywordStartsIn(keywords: seq<string>, text: string)
    requires forall k :: 0 <= k < |keywords| ==> |keywords[k]| > 0 && keywords[k][0] !in text
    ensures !AnyContained(keywords, text)
  {
    forall k | 0 <= k < |keywords|
      ensures !Contains(text, keywords[k])
    {
      NotContainedFirstChar(text, keywords[k]);
    }
  }

  /** The characters of a lower-case Kimi model name: the letters k, i and m, dashes, dots and digits. */
  predicate IsKimiNameChar(c: char) {
    c == 'k' || c == 'i' || c == 'm' || c == '-' || c == '.' || IsDigit(c)
  }

  /**
   * A lower-case Kimi model name such as "kimi-k2.5" is matched by Moonshot:
   * no keyword of an earlier standard entry can occur in it.
   */
  lemma KimiFamilyIsMoonshot(model: string)
    requires "kimi" <= model
    requires forall i :: 0 <= i < |model| ==> IsKimiNameChar(model[i])
    ensures FindByModel(model) == Some(Moonshot)
  {
    KimiChars(model);
    LowerOfLowerCase(model);
    KimiKeywords(Lower(model));
    MoonshotFirstMatch(model);
  }

  /** Such a name has no upper-case letter and none of the first letters of the earlier keywords. */
  lemma KimiChars(model: string)
    requires forall i :: 0 <= i < |model| ==> IsKimiNameChar(model[i])
    ensures forall i :: 0 <= i < |model| ==> !IsUpper(model[i])
    ensures 'o' !in model && 'g' !in model && 'c' !in model && 'd' !in model && 'z' !in model && 'q' !in model
  {
  }

  /** No keyword of the five standard entries before Moonshot occurs in such a name; "kimi" does. */
  lemma KimiKeywords(lm: string)
    requires "kimi" <= lm
    requires 'o' !in lm && 'g' !in lm && 'c' !in lm && 'd' !in lm && 'z' !in lm && 'q' !in lm
    ensures !AnyContained(OpenAI.keywords, lm) && !AnyContained(OpenAICodex.keywords, lm)
    ensures !AnyContained(DeepSeek.keywords, lm) && !AnyContained(Zhipu.keywords, lm)
    ensures !AnyContained(DashScope.keywords, lm) && AnyContained(Moonshot.keywords, lm)
  {
    NotContainedFirstChar(lm, "openai");
    NotContainedFirstChar(lm, "gpt");
    NotContainedFirstChar(lm, "openai-codex");
    NotContainedFirstChar(lm, "codex");
    NotContainedFirstChar(lm, "deepseek");
    NotContainedFirstChar(lm, "zhipu");
    NotContainedFirstChar(lm, "glm");
    NotContainedFirstChar(lm, "zai");
    NotContainedFirstChar(lm, "qwen");
    NotContainedFirstChar(lm, "dashscope");
  }

  /** Moonshot is found when one of its keywords occurs and none of the five standard entries before it match. */
  lemma MoonshotFirstMatch(m: string)
    requires !AnyContained(OpenAI.keywords, Lower(m)) && !AnyContained(OpenAICodex.keywords, Lower(m))
    requires !AnyContained(DeepSeek.keywords, Lower(m)) && !AnyContained(Zhipu.keywords, Lower(m))
    requires !AnyContained(DashScope.keywords, Lower(m)) && AnyContained(Moonshot.keywords, Lower(m))
    ensures FindByModel(m) == Some(Moonshot)
  {
    TableOrder();
    EighthEntryFirst(Providers, m);
  }

  /** In any table, an entry at index 7 that matches after seven that do not is the one found. */
  lemma EighthEntryFirst(specs: seq<ProviderSpec>, m: string)
    requires |specs| > 7
    requires !ModelMatches(specs[0], m) && !ModelMatches(specs[1], m) && !ModelMatches(specs[2], m)
    requires !ModelMatches(specs[3], m) && !ModelMatches(specs[4], m) && !ModelMatches(specs[5], m)
    requires !ModelMatches(specs[6], m) && ModelMatches(specs[7], m)
    ensures FirstWhere(specs, (s: ProviderSpec) => ModelMatches(s, m)) == Some(specs[7])
  {
    var p := (s: ProviderSpec) => ModelMatches(s, m);
    assert IsFirst(specs, p, 7) by {
      forall j | 0 <= j < 7
        ensures !p(specs[j])
      {
        assert j == 0 || j == 1 || j == 2 || j == 3 || j == 4 || j == 5 || j == 6;
      }
    }
    FirstWhereAt(specs, p, 7);
  }

  /** Any model Moonshot matches whose lower-cased form contains "kimi-k2.5" gets temperature 1.0. */
  lemma KimiK25Temperature(model: string)
    requires FindByModel(model) == Some(Moonshot)
    requires Contains(Lower(model), "kimi-k2.5")
    ensures OverridesFor(model) == Some(map["temperature" := Float("1.0")])
  {
    var p := (o: (string, map<string, Value>)) => Contains(Lower(model), o.0);
    FirstWhereAt(Moonshot.modelOverrides, p, 0);
  }

  lemma KimiLower()
    ensures Lower("kimi-k2.5") == "kimi-k2.5"
  {
    LowerOfLowerCase("kimi-k2.5");
  }

  /** "kimi-k2.5" itself: Moonshot matches it and its override sets temperature 1.0. */
  lemma KimiOverride()
    ensures FindByModel("kimi-k2.5") == Some(Moonshot)
    ensures OverridesFor("kimi-k2.5") == Some(map["temperature" := Float("1.0")])
  {
    KimiFamilyIsMoonshot("kimi-k2.5");
    KimiLower();
    KimiK25Temperature("kimi-k2.5");
  }

  /** Overrides are chosen on the lower-cased model, so case does not matter. */
  lemma OverridesCaseInsensitive(model: string)
    ensures OverridesFor(model) == OverridesFor(Lower(model))
  {
    FindByModelCaseInsensitive(model);
    LowerIdempotent(model);
  }

  /** The request keyword arguments, which `_apply_model_overrides` updates in place. */
  class Kwargs {
    var entries: map<string, Value>

    constructor(entries: map<string, Value>)
      ensures this.entries == entries
    {
      this.entries := entries;
    }
  }

  // ---------------------------------------------------------------------------
  // The provider
  // ---------------------------------------------------------------------------

  /** The spec whose default base URL the client uses: the gateway, else by default model, else by name. */
  function BaseSpec(gateway: Option<ProviderSpec>, defaultModel: string, providerName: Option<string>): (r: Option<ProviderSpec>)
    ensures gateway.Some? ==> r == gateway
    ensures gateway.None? && FindByModel(defaultModel).Some? ==> r == FindByModel(defaultModel)
    ensures gateway.None? && FindByModel(defaultModel).None? ==>
      r == FindByName(if Truthy(providerName) then providerName.value else "")
  {
    if gateway.Some? then gateway
    else if FindByModel(defaultModel).Some? then FindByModel(defaultModel)
    else FindByName(if Truthy(providerName) then providerName.value else "")
  }

  /**
   * The client's base URL: a configured base wins; otherwise the spec's
   * default; an empty result means "no base URL" (the SDK default).
   */
  function EffectiveBase(apiBase: Option<string>, spec: Option<ProviderSpec>): (r: Option<string>)
    ensures r.Some? ==> r.value != ""
    ensures Truthy(apiBase) ==> r == apiBase
    ensures !Truthy(apiBase) && spec.Some? && spec.value.defaultApiBase != "" ==> r == Some(spec.value.defaultApiBase)
    ensures !Truthy(apiBase) && (spec.None? || spec.value.defaultApiBase == "") ==> r.None?
  {
    if Truthy(apiBase) then apiBase
    else if spec.Some? && spec.value.defaultApiBase != "" then Some(spec.value.defaultApiBase)
    else None
  }

  class OpenAIProvider {
    const apiKey: Option<string>
    const apiBase: Option<string>
    const defaultModel: string
    const providerName: Option<string>
    const gateway: Option<ProviderSpec>
    /** The key, base URL and headers the client is built with. */
    const clientApiKey: string
    const clientBaseUrl: Option<string>
    const clientHeaders: map<string, string>

    constructor(apiKey: Option<string>, apiBase: Option<string>, defaultModel: string,
                extraHeaders: Option<map<string, string>>, providerName: Option<string>)
      ensures this.apiKey == apiKey && this.apiBase == apiBase
      ensures this.defaultModel == defaultModel && this.providerName == providerName
      ensures gateway == FindGateway(providerName, apiKey, apiBase)
      ensures clientApiKey == (if Truthy(apiKey) then apiKey.value else "no-key")
      ensures clientBaseUrl == EffectiveBase(apiBase, BaseSpec(gateway, defaultModel, providerName))
      ensures clientHeaders == extraHeaders.GetOr(map[])
    {
      this.apiKey := apiKey;
      this.apiBase := apiBase;
      this.defaultModel := defaultModel;
      this.providerName := providerName;
      var gw := FindGateway(providerName, apiKey, apiBase);
      gateway := gw;
      clientApiKey := if Truthy(apiKey) then apiKey.value else "no-key";
      clientBaseUrl := EffectiveBase(apiBase, BaseSpec(gw, defaultModel, providerName));
      clientHeaders := extraHeaders.GetOr(map[]);
    }

    /**
     * `_apply_model_overrides`: the overrides of the first pattern occurring
     * in the lower-cased model are merged into the arguments (later keys win);
     * nothing changes when no spec or no pattern matches.
     */
    method ApplyModelOverrides(model: string, kwargs: Kwargs)
      modifies kwargs
      ensures kwargs.entries == old(kwargs.entries) + AppliedOverrides(model)
    {
      var spec := FindByModel(model);
      if spec.None? {
        return;
      }
      MergeFirstOverride(spec.value.modelOverrides, Lower(model), kwargs);
    }

    /** The loop of `_apply_model_overrides`: merge the overrides of the first occurring pattern, then stop. */
    method MergeFirstOverride(overrides: seq<(string, map<string, Value>)>, modelLower: string, kwargs: Kwargs)
      modifies kwargs
      ensures FirstOverride(overrides, modelLower).None? ==> kwargs.entries == old(kwargs.entries)
      ensures FirstOverride(overrides, modelLower).Some? ==>
        kwargs.entries == old(kwargs.entries) + FirstOverride(overrides, modelLower).value
    {
      var i := 0;
      while i < |overrides|
        invariant 0 <= i <= |overrides|
        invariant forall j :: 0 <= j < i ==> !Contains(modelLower, overrides[j].0)
        invariant kwargs.entries == old(kwargs.entries)
      {
        if Contains(modelLower, overrides[i].0) {
          FirstOverrideAt(overrides, modelLower, i);
          kwargs.entries := kwargs.entries + overrides[i].1;
          return;
        }
        i := i + 1;
      }
    }

    /**
     * `chat`: resolve the model (the default when none is given), build the
     * keyword arguments, apply overrides in place, add the tools, and turn any
     * exception -- from the client or from parsing -- into an error response.
     * `client` stands for the completion call and receives the final arguments.
     */
    method Chat(messages: seq<Value>, tools: Option<seq<Value>>, model: Option<string>,
                maxTokens: int, temperature: Value,
                client: map<string, Value> -> ClientReply, repair: string -> Value)
      returns (request: map<string, Value>, response: LLMResponse)
      ensures var resolved := ResolveModel(gateway, providerName, if Truthy(model) then model.value else defaultModel);
        request == RequestArgs(resolved, messages, tools, maxTokens, temperature, AppliedOverrides(resolved))
      ensures client(request).Raised? ==> response == ErrorResponse(client(request).message)
      ensures client(request).Returned? ==>
        var parsed := Parse(client(request).response, repair);
        (parsed.Ok? ==> response == parsed.value) && (parsed.Err? ==> response == ErrorResponse(parsed.error))
    {
      var name := if Truthy(model) then model.value else defaultModel;
      var resolved := ResolveModel(gateway, providerName, name);
      var kwargs := new Kwargs(BaseArgs(resolved, messages, maxTokens, temperature));
      ApplyModelOverrides(resolved, kwargs);
      if tools.Some? && |tools.value| > 0 {
        kwargs.entries := kwargs.entries + map["tools" := List(tools.value), "tool_choice" := Str("auto")];
      }
      request := kwargs.entries;
      match client(request)
      case Raised(e) =>
        response := ErrorResponse(e);
      case Returned(raw) =>
        match Parse(raw, repair)
        case Ok(r) => response := r;
        case Err(e) => response := ErrorResponse(e);
    }
  }

  /** The four keyword arguments every request starts with; `max_tokens` is at least 1. */
  function BaseArgs(resolved: string, messages: seq<Value>, maxTokens: int, temperature: Value): map<string, Value> {
    map["model" := Str(resolved), "messages" := List(messages),
        "max_tokens" := Int(if maxTokens < 1 then 1 else maxTokens), "temperature" := temperature]
  }

  /** The arguments `_apply_model_overrides` merges for a model: none when no pattern matches. */
  function AppliedOverrides(model: string): (r: map<string, Value>)
    ensures r.Keys <= {"temperature"}
    ensures "temperature" in r ==> r["temperature"] == Float("1.0")
    ensures r == map[] <==> OverridesFor(model).None?
  {
    OverridesOnlyTemperature(model);
    if OverridesFor(model).Some? then OverridesFor(model).value else map[]
  }

  /** The request `chat` sends: the base arguments, then the given overrides, then the tools if any. */
  function RequestArgs(resolved: string, messages: seq<Value>, tools: Option<seq<Value>>,
                       maxTokens: int, temperature: Value, overrides: map<string, Value>): map<string, Value>
  {
    var withOverrides := BaseArgs(resolved, messages, maxTokens, temperature) + overrides;
    if tools.Some? && |tools.value| > 0 then
      withOverrides + map["tools" := List(tools.value), "tool_choice" := Str("auto")]
    else withOverrides
  }

  /**
   * With overrides that touch only the temperature, the request holds the four
   * base arguments, plus `tools` and `tool_choice` exactly when the tool list is
   * non-empty.
   */
  lemma RequestArgsKeys(resolved: string, messages: seq<Value>, tools: Option<seq<Value>>,
                        maxTokens: int, temperature: Value, overrides: map<string, Value>)
    requires overrides.Keys <= {"temperature"}
    ensures RequestArgs(resolved, messages, tools, maxTokens, temperature, overrides).Keys
            == {"model", "messages", "max_tokens", "temperature"}
               + (if tools.Some? && |tools.value| > 0 then {"tools", "tool_choice"} else {})
  {
  }

  /**
   * The values sent: the resolved model, the messages, `max(1, max_tokens)`,
   * the caller's temperature unless an override replaced it, and the tools
   * with `tool_choice` "auto" when there are any.
   */
  lemma RequestArgsValues(resolved: string, messages: seq<Value>, tools: Option<seq<Value>>,
                          maxTokens: int, temperature: Value, overrides: map<string, Value>)
    requires overrides.Keys <= {"temperature"}
    ensures var r := RequestArgs(resolved, messages, tools, maxTokens, temperature, overrides);
      && "model" in r && r["model"] == Str(resolved)
      && "messages" in r && r["messages"] == List(messages)
      && "max_tokens" in r && r["max_tokens"] == Int(if maxTokens < 1 then 1 else maxTokens)
      && r["max_tokens"].i >= 1
      && "temperature" in r
      && r["temperature"] == (if "temperature" in overrides then overrides["temperature"] else temperature)
      && (tools.Some? && |tools.value| > 0 ==>
            "tools" in r && r["tools"] == List(tools.value) && "tool_choice" in r && r["tool_choice"] == Str("auto"))
  {
  }

  /** Kimi K2.5's request carries temperature 1.0 whatever temperature the caller passed. */
  lemma KimiRequestTemperature(messages: seq<Value>, tools: Option<seq<Value>>, maxTokens: int, temperature: Value)
    ensures RequestArgs("kimi-k2.5", messages, tools, maxTokens, temperature, AppliedOverrides("kimi-k2.5"))["temperature"]
            == Float("1.0")
  {
    KimiOverride();
    RequestArgsValues("kimi-k2.5", messages, tools, maxTokens, temperature, AppliedOverrides("kimi-k2.5"));
  }

  /** A provider given an OpenRouter key and no base talks to OpenRouter's endpoint. */
  lemma OpenRouterKeySelectsBase(key: string, defaultModel: string)
    requires "sk-or-" <= key
    ensures FindGateway(None, Some(key), None) == Some(OpenRouter)
    ensures EffectiveBase(None, BaseSpec(Some(OpenRouter), defaultModel, None)) == Some("https://openrouter.ai/api/v1")
  {
    OpenRouterKeyDetected(key, None);
  }

  /** A local vLLM provider has no default base, so without a configured one the client gets none. */
  lemma VllmWithoutBase(apiKey: Option<string>, defaultModel: string)
    ensures FindGateway(Some("vllm"), apiKey, None) == Some(Vllm)
    ensures EffectiveBase(None, BaseSpec(Some(Vllm), defaultModel, Some("vllm"))).None?
  {
    LocalNameWins(apiKey, None);
  }
}
