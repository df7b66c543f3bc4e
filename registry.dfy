/**
 * The provider registry: an ordered, immutable table of provider descriptions
 * and the three first-match lookups over it (by name, by model keyword, and
 * gateway detection). Table order is match priority.
 */
module ProviderRegistry {
  import opened Wrappers
  import opened Text
  import opened Json

  /** One LLM provider's metadata. */
  datatype ProviderSpec = ProviderSpec(
    name: string,                    // config field name
    keywords: seq<string>,           // lower-case model-name keywords
    envKey: string,
    displayName: string,
    modelPrefix: string,             // "p" means "p/model" is forwarded as "model"
    isGateway: bool,                 // routes any model
    isLocal: bool,                   // local deployment
    detectByKeyPrefix: string,       // api_key prefix that identifies the provider
    detectByBaseKeyword: string,     // api_base substring that identifies the provider
    defaultApiBase: string,
    stripModelPrefix: bool,          // forward only the last "/" segment of the model
    modelOverrides: seq<(string, map<string, Value>)>,
    isOAuth: bool)
  {
    /** `label`: the display name, or the title-cased config name when there is none. */
    function Label(): (r: string)
      ensures displayName != "" ==> r == displayName
      ensures displayName == "" ==> r == Title(name) && |r| == |name| && Lower(r) == Lower(name)
    {
      if displayName != "" then displayName else Title(name)
    }
  }

  // ---------------------------------------------------------------------------
  // The table, in priority order: gateways, standard providers, local, auxiliary.
  // ---------------------------------------------------------------------------

  const OpenRouter := ProviderSpec(
    "openrouter", ["openrouter"], "OPENROUTER_API_KEY", "OpenRouter", "openrouter",
    true, false, "sk-or-", "openrouter", "https://openrouter.ai/api/v1", false, [], false)

  const AiHubMix := ProviderSpec(
    "aihubmix", ["aihubmix"], "OPENAI_API_KEY", "AiHubMix", "",
    true, false, "", "aihubmix", "https://aihubmix.com/v1", true, [], false)

  const OpenAI := ProviderSpec(
    "openai", ["openai", "gpt"], "OPENAI_API_KEY", "OpenAI", "",
    false, false, "", "", "https://api.openai.com/v1", false, [], false)

  const OpenAICodex := ProviderSpec(
    "openai_codex", ["openai-codex", "codex"], "", "OpenAI Codex", "",
    false, false, "", "codex", "https://chatgpt.com/backend-api", false, [], true)

  const DeepSeek := ProviderSpec(
    "deepseek", ["deepseek"], "DEEPSEEK_API_KEY", "DeepSeek", "deepseek",
    false, false, "", "", "https://api.deepseek.com/v1", false, [], false)

  const Zhipu := ProviderSpec(
    "zhipu", ["zhipu", "glm", "zai"], "ZAI_API_KEY", "Zhipu AI", "zai",
    false, false, "", "", "https://open.bigmodel.cn/api/paas/v4/", false, [], false)

  const DashScope := ProviderSpec(
    "dashscope", ["qwen", "dashscope"], "DASHSCOPE_API_KEY", "DashScope", "dashscope",
    false, false, "", "", "https://dashscope.aliyuncs.com/compatible-mode/v1", false, [], false)

  /** Kimi K2.5 enforces temperature 1.0. */
  const Moonshot := ProviderSpec(
    "moonshot", ["moonshot", "kimi"], "MOONSHOT_API_KEY", "Moonshot", "moonshot",
    false, false, "", "", "https://api.moonshot.ai/v1", false,
    [("kimi-k2.5", map["temperature" := Float("1.0")])], false)

  const MiniMax := ProviderSpec(
    "minimax", ["minimax"], "MINIMAX_API_KEY", "MiniMax", "minimax",
    false, false, "", "", "https://api.minimax.io/v1", false, [], false)

  /** vLLM or any OpenAI-compatible local server; the base URL must come from config. */
  const Vllm := ProviderSpec(
    "vllm", ["vllm"], "HOSTED_VLLM_API_KEY", "vLLM/Local", "hosted_vllm",
    false, true, "", "", "", false, [], false)

  const Groq := ProviderSpec(
    "groq", ["groq"], "GROQ_API_KEY", "Groq", "groq",
    false, false, "", "", "https://api.groq.com/openai/v1", false, [], false)

  const Providers: seq<ProviderSpec> :=
    [OpenRouter, AiHubMix, OpenAI, OpenAICodex, DeepSeek, Zhipu, DashScope, Moonshot, MiniMax, Vllm, Groq]

  /** The table's entries by position (a shortcut for proofs that name one entry). */
  lemma TableOrder()
    ensures Providers[0] == OpenRouter && Providers[1] == AiHubMix && Providers[2] == OpenAI
    ensures Providers[3] == OpenAICodex && Providers[4] == DeepSeek && Providers[5] == Zhipu
    ensures Providers[6] == DashScope && Providers[7] == Moonshot && Providers[8] == MiniMax
    ensures Providers[9] == Vllm && Providers[10] == Groq
  {
  }

  /** No two entries share a config name, so a name identifies one entry. */
  lemma NamesDistinct()
    ensures forall i, j :: 0 <= i < j < |Providers| ==> Providers[i].name != Providers[j].name
  {
  }

  /** Every entry has a display name, so every label is that display name. */
  lemma LabelsAreDisplayNames()
    ensures forall i :: 0 <= i < |Providers| ==> Providers[i].Label() == Providers[i].displayName
  {
  }

  // ---------------------------------------------------------------------------
  // Lookups
  // ---------------------------------------------------------------------------

  /** Some keyword of the list occurs in `text`. */
  function AnyContained(keywords: seq<string>, text: string): (r: bool)
    ensures r <==> exists k :: 0 <= k < |keywords| && Contains(text, keywords[k])
  {
    if |keywords| == 0 then false
    else Contains(text, keywords[0]) || AnyContained(keywords[1..], text)
  }

  predicate IsStandard(spec: ProviderSpec) {
    !spec.isGateway && !spec.isLocal
  }

  /** `find_by_model`'s test on one entry: a standard provider with a keyword in the lower-cased model. */
  predicate ModelMatches(spec: ProviderSpec, model: string) {
    IsStandard(spec) && AnyContained(spec.keywords, Lower(model))
  }

  /** `find_by_name`: the first entry whose config name is `name`. */
  function FindByName(name: string): (r: Option<ProviderSpec>)
    ensures r.Some? <==> exists i :: 0 <= i < |Providers| && Providers[i].name == name
    ensures r.Some? ==> r.value.name == name && r.value in Providers
  {
    FirstWhere(Providers, (s: ProviderSpec) => s.name == name)
  }

  /** Because names are distinct, looking up an entry's name finds that entry. */
  lemma FindByNameOfEntry(i: int)
    requires 0 <= i < |Providers|
    ensures FindByName(Providers[i].name) == Some(Providers[i])
  {
    NamesDistinct();
    FirstWhereAt(Providers, (s: ProviderSpec) => s.name == Providers[i].name, i);
  }

  /**
   * `find_by_model`: the first standard entry, in table order, with a keyword
   * occurring in the lower-cased model. Gateways and local entries never match.
   */
  function FindByModel(model: string): (r: Option<ProviderSpec>)
    ensures r.Some? ==> !r.value.isGateway && !r.value.isLocal
    ensures r.Some? ==> AnyContained(r.value.keywords, Lower(model))
    ensures r.Some? ==> exists i :: 0 <= i < |Providers| && Providers[i] == r.value &&
                                    forall j :: 0 <= j < i ==> !ModelMatches(Providers[j], model)
    ensures r.None? ==> forall i :: 0 <= i < |Providers| ==> !ModelMatches(Providers[i], model)
  {
    var r := FirstWhere(Providers, (s: ProviderSpec) => ModelMatches(s, model));
    assert r.Some? ==> ModelMatches(r.value, model) by {
      if r.Some? {
        var i :| IsFirst(Providers, (s: ProviderSpec) => ModelMatches(s, model), i) && Providers[i] == r.value;
      }
    }
    r
  }

  /** Matching is case-insensitive: the model and its lower-case form find the same entry. */
  lemma FindByModelCaseInsensitive(model: string)
    ensures FindByModel(model) == FindByModel(Lower(model))
  {
    LowerIdempotent(model);
    FirstWhereCongruent(Providers, (s: ProviderSpec) => ModelMatches(s, model),
                        (s: ProviderSpec) => ModelMatches(s, Lower(model)));
  }

  /** `find_gateway`'s auto-detection test on one entry: its key prefix starts the key, or its base keyword is in the base. */
  predicate AutoDetects(spec: ProviderSpec, apiKey: Option<string>, apiBase: Option<string>) {
    (spec.detectByKeyPrefix != "" && Truthy(apiKey) && spec.detectByKeyPrefix <= apiKey.value)
    || (spec.detectByBaseKeyword != "" && Truthy(apiBase) && Contains(apiBase.value, spec.detectByBaseKeyword))
  }

  /** `provider_name` is set and names a gateway or local entry. */
  predicate NamesGatewayOrLocal(providerName: Option<string>) {
    Truthy(providerName) && FindByName(providerName.value).Some?
    && (FindByName(providerName.value).value.isGateway || FindByName(providerName.value).value.isLocal)
  }

  /**
   * `find_gateway`: a configured gateway or local provider name wins outright;
   * otherwise the first entry in table order that the key prefix or the base
   * keyword detects; otherwise None.
   */
  function FindGateway(providerName: Option<string>, apiKey: Option<string>, apiBase: Option<string>): (r: Option<ProviderSpec>)
    ensures NamesGatewayOrLocal(providerName) ==> r == FindByName(providerName.value)
    ensures !NamesGatewayOrLocal(providerName) && r.Some? ==>
      AutoDetects(r.value, apiKey, apiBase)
      && (exists i :: 0 <= i < |Providers| && Providers[i] == r.value &&
                      forall j :: 0 <= j < i ==> !AutoDetects(Providers[j], apiKey, apiBase))
    ensures !NamesGatewayOrLocal(providerName) && r.None? ==>
      forall i :: 0 <= i < |Providers| ==> !AutoDetects(Providers[i], apiKey, apiBase)
  {
    if NamesGatewayOrLocal(providerName) then FindByName(providerName.value)
    else
      var r := FirstWhere(Providers, (s: ProviderSpec) => AutoDetects(s, apiKey, apiBase));
      assert r.Some? ==> AutoDetects(r.value, apiKey, apiBase) by {
        if r.Some? {
          var i :| IsFirst(Providers, (s: ProviderSpec) => AutoDetects(s, apiKey, apiBase), i) && Providers[i] == r.value;
        }
      }
      r
  }

  /** A standard provider's name (here "deepseek") does not short-circuit detection. */
  lemma StandardNameDoesNotShortCircuit(apiKey: Option<string>, apiBase: Option<string>)
    ensures FindGateway(Some("deepseek"), apiKey, apiBase) == FindGateway(None, apiKey, apiBase)
  {
    FindByNameOfEntry(4);
    assert Providers[4] == DeepSeek;
    assert !NamesGatewayOrLocal(Some("deepseek"));
  }

  /** A gateway name wins whatever key and base are configured. */
  lemma GatewayNameWins(apiKey: Option<string>, apiBase: Option<string>)
    ensures FindGateway(Some("aihubmix"), apiKey, apiBase) == Some(AiHubMix)
  {
    FindByNameOfEntry(1);
  }

  /** So does a local deployment's name. */
  lemma LocalNameWins(apiKey: Option<string>, apiBase: Option<string>)
    ensures FindGateway(Some("vllm"), apiKey, apiBase) == Some(Vllm)
  {
    FindByNameOfEntry(9);
  }

  /** An OpenRouter key ("sk-or-...") is detected as OpenRouter, the first entry. */
  lemma OpenRouterKeyDetected(apiKey: string, apiBase: Option<string>)
    requires "sk-or-" <= apiKey
    ensures FindGateway(None, Some(apiKey), apiBase) == Some(OpenRouter)
  {
    FirstWhereAt(Providers, (s: ProviderSpec) => AutoDetects(s, Some(apiKey), apiBase), 0);
  }

  /**
   * Detection can return a provider that is not a gateway: a base containing
   * "codex", with no earlier entry detected, yields the OAuth Codex entry.
   */
  lemma CodexBaseDetected(apiKey: Option<string>, apiBase: string)
    requires !(Truthy(apiKey) && "sk-or-" <= apiKey.value)
    requires Contains(apiBase, "codex")
    requires !Contains(apiBase, "openrouter") && !Contains(apiBase, "aihubmix")
    ensures FindGateway(None, apiKey, Some(apiBase)) == Some(OpenAICodex)
    ensures !OpenAICodex.isGateway && !OpenAICodex.isLocal
  {
    assert !AutoDetects(OpenRouter, apiKey, Some(apiBase));
    assert !AutoDetects(AiHubMix, apiKey, Some(apiBase));
    assert !AutoDetects(OpenAI, apiKey, Some(apiBase));
    assert AutoDetects(OpenAICodex, apiKey, Some(apiBase));
    CodexFirstDetected(apiKey, Some(apiBase));
  }

  /** The Codex entry is detected when it detects and the three entries before it do not. */
  lemma CodexFirstDetected(apiKey: Option<string>, apiBase: Option<string>)
    requires !AutoDetects(OpenRouter, apiKey, apiBase) && !AutoDetects(AiHubMix, apiKey, apiBase)
    requires !AutoDetects(OpenAI, apiKey, apiBase) && AutoDetects(OpenAICodex, apiKey, apiBase)
    ensures FindGateway(None, apiKey, apiBase) == Some(OpenAICodex)
  {
    FirstWhereAt(Providers, (s: ProviderSpec) => AutoDetects(s, apiKey, apiBase), 3);
  }
}
