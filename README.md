# nanobot rule engines in Dafny

This project models the small rule engines of nanobot, a personal AI-agent
runtime, and proves properties about them.

- **Provider routing.** The ordered provider registry and its three
  first-match lookups: by name, by model keyword, and gateway detection. The
  OpenAI-compatible provider's choice of gateway and base URL, the
  normalisation of model names, the per-model parameter overrides, the shape
  of the request, and how a completion or a failure becomes an `LLMResponse`.
  The configuration schema's choice of provider for a model, and the API key
  and base that follow from it.
- **MemoryStore.** The agent's two-tier memory: MEMORY.md is overwritten
  whole; HISTORY.md is an append-only log of blank-line-separated entries.
- **Filesystem tools.** The read, write, edit, list and delete tools over an
  abstract filesystem (a map from an entry's real location to the entry).
  The operating system's path handling is a parameter.
- **Email channel.** The decisions of the email channel without its network
  sessions:
  - the IMAP date text;
  - the reply-subject rule;
  - UID and message extraction from a FETCH response;
  - configuration checks;
  - send gating and header selection;
  - the fetch loop: selection, skips, deduplication against a capped
    processed-UID set, and \Seen flags;
  - the per-sender memory of the last subject and Message-ID.

The modules follow the source files.

| module | file | source |
|---|---|---|
| `ProviderRegistry` | registry.dfy | nanobot/providers/registry.py |
| `OpenAICompat` | openai_provider.dfy | nanobot/providers/openai_provider.py |
| `ConfigSchema` | schema.dfy | nanobot/config/schema.py |
| `Memory` | memory.dfy | nanobot/agent/memory.py |
| `FilesystemTools` | filesystem.dfy | nanobot/agent/tools/filesystem.py |
| `Email` | email.dfy | nanobot/channels/email.py |

Three shared modules support them:
- `Wrappers`: Option, Result and the "first match in a for loop" search.
- `Text`: Python `str` semantics for strip, lower, in, count, replace,
  split and number formatting.
- `Json`: request and argument values, with floats kept as their literal
  text.

The code is modelled in the form the source has:
- Pure lookups are functions.
- Objects that update fields are classes whose methods carry `modifies`
  clauses: `MemoryStore`, `EmailChannel`, `OpenAIProvider`, the `Kwargs`
  dictionary that is updated in place, and the `Disk` the tools change.
- Loops are methods with invariants, each proved against a specification
  function:
  - the fetch loop (`VisitAll`) against `FetchLoop`;
  - the listing loop and `sorted` against `Sorted`;
  - the override loop against `FirstOverride`.

## Model

| member | source | states |
|---|---|---|
| Wrappers.FirstWhere | nanobot/providers/registry.py:303-306 | A for-loop that returns on its first hit finds something exactly when some element satisfies the test, and what it returns is the first such element |
| Wrappers.FirstWhereAt | nanobot/providers/registry.py:303-306 | Any index known to be the first hit determines the result of the search |
| Wrappers.FirstWhereCongruent | nanobot/providers/registry.py:264-269 | Two tests that agree on every element pick the same first element |
| Wrappers.OrElse | nanobot/config/schema.py:203 | Python `a or b` on optional strings: `a` when it is neither None nor empty, otherwise `b`; on two present strings it agrees with `Or` |
| Wrappers.Or | nanobot/channels/email.py:344 | The definition of Python `a or b` on strings, written as its two cases: `a` when it is non-empty, otherwise `b` |
| Text.Lower | nanobot/providers/registry.py:264 | `lower()` keeps the length and lower-cases each character |
| Text.LowerIdempotent | nanobot/providers/registry.py:264 | Lower-casing a lower-cased string changes nothing |
| Text.LowerAppend | nanobot/channels/email.py:518 | Lower-casing distributes over concatenation |
| Text.Title | nanobot/providers/registry.py:52 | `title()` keeps the length and changes only the case of letters; which letters are upper-cased is `TitleChars` |
| Text.TitleFromChars | nanobot/providers/registry.py:52 | Character by character, a letter that starts a run of cased letters is upper-cased and every other one lower-cased, by induction |
| Text.TitleChars | nanobot/providers/registry.py:52 | `s.title()[i]` is `s[i]` upper-cased when i is 0 or `s[i-1]` is not cased, and lower-cased otherwise |
| Text.RStrip | nanobot/agent/memory.py:30 | `rstrip()` returns a prefix of its input that does not end in whitespace |
| Text.RStripRemovesSpaces | nanobot/agent/memory.py:30 | Every character `rstrip()` removes is whitespace |
| Text.RStripIdempotent | nanobot/agent/memory.py:30 | Stripping a stripped entry again changes nothing |
| Text.LStrip | nanobot/channels/email.py:516 | `lstrip()` returns a suffix of its input that does not start with whitespace |
| Text.LStripRemovesSpaces | nanobot/channels/email.py:516 | Every character `lstrip()` removes is whitespace |
| Text.Strip | nanobot/channels/email.py:155 | `strip()` returns a text no longer than its input, with whitespace at neither end; `StripRemovesSpaces` says it is the input less surrounding whitespace |
| Text.StripRemovesSpaces | nanobot/channels/email.py:516 | `strip()` is the slice s[a..b] of its input, and every character before a and from b on is whitespace |
| Text.StripOfStripped | nanobot/channels/email.py:516 | A text with whitespace at neither end is its own `strip()` |
| Text.StripIdempotent | nanobot/channels/email.py:516 | `strip()` is idempotent |
| Text.ContainsIff | nanobot/agent/tools/filesystem.py:155 | `old_text in content` holds exactly when some index starts an occurrence |
| Text.Contains | nanobot/agent/tools/filesystem.py:155 | `needle in hay` by recursion on the text; `ContainsIff` states its meaning |
| Text.Count | nanobot/agent/tools/filesystem.py:159 | `content.count(old)`: non-overlapping occurrences, and one more than the length for the empty needle; `CountPositiveIff` ties it to `in` |
| Text.FindFirst | nanobot/agent/tools/filesystem.py:163 | The index found is an occurrence of the needle |
| Text.FindFirstLeftmost | nanobot/agent/tools/filesystem.py:163 | The index found is the leftmost occurrence, and none is found only when there is no occurrence |
| Text.OccursShift | nanobot/agent/tools/filesystem.py:163 | An occurrence at index j > 0 is an occurrence at j - 1 of the text without its first character |
| Text.CountPositiveIff | nanobot/agent/tools/filesystem.py:155-160 | `content.count(old_text)` is positive exactly when `old_text in content` |
| Text.ReplaceFirst | nanobot/agent/tools/filesystem.py:163 | `replace(old, new, 1)`: unchanged when there is no occurrence, otherwise the text before the first occurrence, the replacement, then the rest |
| Text.AfterLast | nanobot/providers/openai_provider.py:48 | `split("/")[-1]` is a suffix of its input without "/", preceded by "/" when it is shorter |
| Text.AfterLastIdempotent | nanobot/providers/openai_provider.py:48 | Taking the last segment twice is taking it once |
| Text.NoSepAfterLast | nanobot/providers/openai_provider.py:48 | A name without "/" is its own last segment |
| Text.AfterLastOfJoined | nanobot/providers/openai_provider.py:48 | The last segment of "a/b", where b has no "/", is b |
| Text.Split | nanobot/providers/openai_provider.py:48 | `split(sep)` gives at least one piece and no piece holds the separator |
| Text.SplitJoin | nanobot/providers/openai_provider.py:48 | Splitting a joined text gives back the pieces when none holds the separator |
| Text.SplitSinglePiece | nanobot/providers/openai_provider.py:48 | `split(sep)` has a single piece exactly when the separator does not occur |
| Text.SplitNoSep | nanobot/providers/openai_provider.py:48 | A text without the separator splits into itself alone |
| Text.SplitKeepsLastPiece | nanobot/providers/openai_provider.py:48 | Once a separator follows the first character, dropping that character leaves the last piece unchanged |
| Text.SplitLastIsAfterLast | nanobot/providers/openai_provider.py:48 | The last piece of `split(sep)` is the last segment `AfterLast` computes |
| Text.SplitLastPiece | nanobot/providers/openai_provider.py:48 | `split(sep)[-1]` is `AfterLast`, and the split is the whole text alone exactly when the separator does not occur |
| Text.AfterLastSkipsFirst | nanobot/providers/openai_provider.py:48 | When a separator occurs at the front or later, the last segment ignores the first character |
| Text.SepFreeStartUnique | nanobot/providers/openai_provider.py:48 | Two separator-free tails that each start the text or follow a separator start at the same index |
| Text.SuffixSepFree | nanobot/providers/openai_provider.py:48 | A separator-free suffix has no separator at any index it covers |
| Text.SepFreeSuffixUnique | nanobot/providers/openai_provider.py:48 | Two separator-free suffixes that each are the whole text or follow a separator are equal |
| Text.AfterLastUnique | nanobot/providers/openai_provider.py:48 | The last segment is the only separator-free suffix that is the whole text or follows a separator |
| Text.NatToString | nanobot/channels/email.py:440 | `str(n)` gives decimal digits without a leading zero; its length follows the magnitude |
| Text.ParseNatToString | nanobot/channels/email.py:440 | Reading back `str(n)` gives n |
| Text.Pad2 | nanobot/channels/email.py:440 | `f"{n:02d}"` gives at least two digits, exactly two below 100 |
| Text.Pad2Value | nanobot/channels/email.py:440 | Reading back the padded day gives the day |
| Text.UniversalNewlines | nanobot/agent/tools/filesystem.py:72 | `read_text` in text mode: the length never grows, and only the empty text reads as empty |
| Text.UniversalNewlinesNoCR | nanobot/agent/tools/filesystem.py:72 | No carriage return is left after reading, by induction |
| Text.UniversalNewlinesKeeps | nanobot/agent/tools/filesystem.py:72 | Text without a carriage return reads back unchanged, by induction |
| Text.UniversalNewlinesFixedIff | nanobot/agent/tools/filesystem.py:72 | Text reads back unchanged exactly when it holds no carriage return |
| Text.UniversalNewlinesIdempotent | nanobot/agent/tools/filesystem.py:72 | Reading translated text translates nothing more |
| Text.UniversalNewlinesAppend | nanobot/agent/tools/filesystem.py:72 | Translation works piece by piece when the first piece does not end in "\r", by induction |
| Text.UniversalNewlinesExamples | nanobot/agent/tools/filesystem.py:72 | "a\r\nb" reads as "a\nb" and "x\r" as "x\n" |
| ProviderRegistry.ProviderSpec.Label | nanobot/providers/registry.py:50-52 | `label` is the display name when it is non-empty, otherwise `name.title()` (see `TitleChars`) |
| ProviderRegistry.TableOrder | nanobot/providers/registry.py:59-254 | The table holds OpenRouter, AiHubMix, OpenAI, OpenAI Codex, DeepSeek, Zhipu, DashScope, Moonshot, MiniMax, vLLM and Groq, in that priority order |
| ProviderRegistry.NamesDistinct | nanobot/providers/registry.py:59-254 | No two entries share a config name |
| ProviderRegistry.LabelsAreDisplayNames | nanobot/providers/registry.py:50-52 | Every entry's label is its display name |
| ProviderRegistry.AnyContained | nanobot/providers/registry.py:268 | `any(kw in text for kw in keywords)` holds exactly when some keyword occurs in the text |
| ProviderRegistry.FindByName | nanobot/providers/registry.py:301-306 | `find_by_name(n)` returns an entry named n, and returns None exactly when no entry has that name |
| ProviderRegistry.FindByNameOfEntry | nanobot/providers/registry.py:301-306 | Looking up an entry's own name returns that entry |
| ProviderRegistry.FindByModel | nanobot/providers/registry.py:261-270 | `find_by_model` returns neither a gateway nor a local entry. It returns the first entry in table order with a keyword in the lower-cased model, and None only when no entry matches |
| ProviderRegistry.FindByModelCaseInsensitive | nanobot/providers/registry.py:264 | A model and its lower-cased form find the same entry |
| ProviderRegistry.FindGateway | nanobot/providers/registry.py:273-298 | A name of a gateway or local entry wins outright. Otherwise the result is the first entry whose non-empty key prefix starts the key or whose non-empty base keyword occurs in the base; None when no entry is detected |
| ProviderRegistry.StandardNameDoesNotShortCircuit | nanobot/providers/registry.py:286-289 | The name of a standard entry ("deepseek") gives the same result as no name |
| ProviderRegistry.GatewayNameWins | nanobot/providers/registry.py:286-289 | The name "aihubmix" returns AiHubMix whatever the key and base |
| ProviderRegistry.LocalNameWins | nanobot/providers/registry.py:286-289 | The name "vllm" returns vLLM whatever the key and base |
| ProviderRegistry.OpenRouterKeyDetected | nanobot/providers/registry.py:292-294 | A key starting "sk-or-" detects OpenRouter (the prefix is declared at line 73) |
| ProviderRegistry.CodexBaseDetected | nanobot/providers/registry.py:292-296 | A base containing "codex", with no earlier entry detected, returns the OpenAI Codex entry, which is neither a gateway nor local (the keyword is declared at line 129) |
| ProviderRegistry.CodexFirstDetected | nanobot/providers/registry.py:292-296 | Codex is returned when it is detected and the three entries before it are not |
| OpenAICompat.ErrorResponse | nanobot/providers/openai_provider.py:90-91 | The response that replaces an exception has content "Error: " + message and finish reason "error" |
| OpenAICompat.ConvertToolCall | nanobot/providers/openai_provider.py:99-105 | A tool call keeps its id and name. Text arguments go through the repair parser; decoded arguments are kept as they are |
| OpenAICompat.Parse | nanobot/providers/openai_provider.py:93-121 | `_parse` fails exactly on an empty `choices`, with the response in the message. Otherwise it keeps the first choice's content and reasoning. The finish reason is "stop" when none is given. Usage is empty when the response has none and copies the three token counts otherwise. The tool calls are converted one for one, in order |
| OpenAICompat.StripRoutingPrefix | nanobot/providers/openai_provider.py:49-58 | "prefix/" is removed once, only when the prefix is non-empty and starts the model; the result is a suffix of the model |
| OpenAICompat.SpecForModel | nanobot/providers/openai_provider.py:54 | The spec is the one found by model, otherwise the one found by provider name |
| OpenAICompat.ResolveModel | nanobot/providers/openai_provider.py:44-59 | A stripping gateway forwards the last "/" segment; another gateway, or without one the spec found by model else by provider name, has "prefix/" dropped exactly when the prefix is non-empty and starts the model, and otherwise the model is unchanged; the result is a suffix of the model |
| OpenAICompat.GatewayPrefixStrippedOnce | nanobot/providers/openai_provider.py:49-52 | "p/p/rest" resolves to "p/rest": the prefix is removed exactly once |
| OpenAICompat.DoubledPrefixStrippedOnce | nanobot/providers/openai_provider.py:50-51 | Stripping "p/" from "p/p/rest" leaves "p/rest" |
| OpenAICompat.GatewayLeavesOtherModels | nanobot/providers/openai_provider.py:49-52 | A model not starting with the gateway's prefix is forwarded unchanged |
| OpenAICompat.SpecPrefixStrippedOnce | nanobot/providers/openai_provider.py:53-58 | Without a gateway, the matched spec's "prefix/" is dropped once from "prefix/prefix/rest" |
| OpenAICompat.NoSpecLeavesModel | nanobot/providers/openai_provider.py:53-59 | Without a gateway and with no spec found, the model is forwarded unchanged |
| OpenAICompat.StripGatewayIdempotent | nanobot/providers/openai_provider.py:47-48 | Resolving an already resolved name through a prefix-stripping gateway changes nothing |
| OpenAICompat.OpenRouterModels | tests/test_onboard_openrouter_defaults.py:59-82 | OpenRouter turns "openrouter/anthropic/claude-opus-4-5" into "anthropic/claude-opus-4-5" and leaves the bare name alone |
| OpenAICompat.AiHubMixModel | nanobot/providers/registry.py:97 | AiHubMix forwards "anthropic/claude-3" as "claude-3" |
| OpenAICompat.FirstOverride | nanobot/providers/openai_provider.py:65-68 | The overrides of a pattern that occurs in the lower-cased model; none exactly when no pattern occurs |
| OpenAICompat.FirstOverrideAt | nanobot/providers/openai_provider.py:65-68 | A pattern that occurs, with no earlier pattern occurring, is the one applied |
| OpenAICompat.OverridesFor | nanobot/providers/openai_provider.py:61-68 | None without a matched spec; with one, Some exactly when one of its patterns occurs in the lower-cased model, and then the overrides of the first such pattern |
| OpenAICompat.OnlyKimiTemperature | nanobot/providers/registry.py:198-200 | Any override that applies is Moonshot's "kimi-k2.5" entry |
| OpenAICompat.OverridesInTable | nanobot/providers/registry.py:59-254 | Only Moonshot has overrides: temperature 1.0 for "kimi-k2.5" |
| OpenAICompat.OverridesOnlyTemperature | nanobot/providers/registry.py:198-200 | An applied override sets the temperature to 1.0 and nothing else |
| OpenAICompat.LowerOfLowerCase | nanobot/providers/openai_provider.py:64 | A name with no upper-case letter is its own lower-case form |
| OpenAICompat.NotContainedFirstChar | nanobot/providers/registry.py:268 | A keyword whose first letter is absent from the model does not occur in it |
| OpenAICompat.NoKeywordStartsIn | nanobot/providers/registry.py:268 | No keyword of a list occurs when none of their first letters is in the model |
| OpenAICompat.KimiFamilyIsMoonshot | nanobot/providers/registry.py:261-270 | A lower-case Kimi model name ("kimi" then letters k, i, m, dashes, dots, digits) is matched by Moonshot |
| OpenAICompat.KimiChars | nanobot/providers/registry.py:264 | Such a name has no upper-case letter and none of the first letters of the earlier keywords |
| OpenAICompat.KimiKeywords | nanobot/providers/registry.py:104-185 | No keyword of the five standard entries before Moonshot occurs in such a name; "kimi" does |
| OpenAICompat.MoonshotFirstMatch | nanobot/providers/registry.py:261-270 | Moonshot is found when it matches and the standard entries before it do not |
| OpenAICompat.EighthEntryFirst | nanobot/providers/registry.py:265-269 | The eighth entry is found when it matches and the seven before it do not |
| OpenAICompat.KimiK25Temperature | nanobot/providers/openai_provider.py:61-68 | A Moonshot model whose lower-cased name contains "kimi-k2.5" gets temperature 1.0 |
| OpenAICompat.KimiLower | nanobot/providers/openai_provider.py:64 | "kimi-k2.5" is already lower-case |
| OpenAICompat.KimiOverride | nanobot/providers/registry.py:198-200 | "kimi-k2.5" is matched by Moonshot and gets temperature 1.0 |
| OpenAICompat.OverridesCaseInsensitive | nanobot/providers/openai_provider.py:62-64 | A model and its lower-cased form get the same overrides |
| OpenAICompat.Kwargs.constructor | nanobot/providers/openai_provider.py:79-84 | The keyword-argument dictionary starts with the given entries |
| OpenAICompat.BaseSpec | nanobot/providers/openai_provider.py:35 | The spec for the base URL: the gateway, else the spec found by the default model, else the one found by provider name |
| OpenAICompat.EffectiveBase | nanobot/providers/openai_provider.py:36-40 | A configured base wins; otherwise the registry entry's non-empty default; otherwise no base URL |
| OpenAICompat.OpenAIProvider.constructor | nanobot/providers/openai_provider.py:22-42 | The gateway is `find_gateway(provider_name, api_key, api_base)`. The client gets the key (or "no-key"), the effective base and the headers (or none) |
| OpenAICompat.OpenAIProvider.ApplyModelOverrides | nanobot/providers/openai_provider.py:61-68 | The arguments become the old ones updated with the applicable overrides, and are unchanged when there are none |
| OpenAICompat.OpenAIProvider.MergeFirstOverride | nanobot/providers/openai_provider.py:65-68 | The loop merges the overrides of the first pattern that occurs and then stops; nothing changes when none occurs |
| OpenAICompat.OpenAIProvider.Chat | nanobot/providers/openai_provider.py:70-91 | The request is built from the resolved model (the default when none is given) and has the overrides applied. A raised exception or a failed parse becomes an error response; otherwise the parsed response is returned |
| OpenAICompat.AppliedOverrides | nanobot/providers/openai_provider.py:61-68 | The merged overrides touch only the temperature, set it to 1.0, and are empty exactly when no override applies |
| OpenAICompat.RequestArgsKeys | nanobot/providers/openai_provider.py:79-87 | The request holds model, messages, max_tokens and temperature, plus tools and tool_choice exactly when the tool list is non-empty |
| OpenAICompat.RequestArgsValues | nanobot/providers/openai_provider.py:79-87 | The request carries the resolved model, the messages, `max(1, max_tokens)`, the caller's temperature unless an override replaced it, and the tools with tool_choice "auto" |
| OpenAICompat.BaseArgs | nanobot/providers/openai_provider.py:79-84 | The four request fields before overrides: model, messages, `max(1, max_tokens)` and temperature; `RequestArgsValues` states them |
| OpenAICompat.RequestArgs | nanobot/providers/openai_provider.py:79-87 | The request: the base fields updated by the overrides, then tools and `tool_choice="auto"` with a non-empty tool list; `RequestArgsKeys` and `RequestArgsValues` state it |
| OpenAICompat.KimiRequestTemperature | nanobot/providers/openai_provider.py:83-85 | A "kimi-k2.5" request carries temperature 1.0 whatever temperature the caller passed |
| OpenAICompat.OpenRouterKeySelectsBase | nanobot/providers/openai_provider.py:33-36 | An OpenRouter key with no base detects OpenRouter, and the client uses OpenRouter's default base |
| OpenAICompat.VllmWithoutBase | nanobot/providers/openai_provider.py:33-36 | A vLLM provider without a configured base gives the client no base URL |
| ConfigSchema.DefaultLimits | nanobot/config/schema.py:84-89 | The defaults are max_tokens 4096, max_tool_iterations 20, memory_window 50 and temperature 0.7 |
| ConfigSchema.MatchKey | nanobot/config/schema.py:203 | Matching uses the lower-cased model, or the default model when the model is None or empty |
| ConfigSchema.KeywordHit | nanobot/config/schema.py:207-209 | The keyword pass accepts an entry that is configured, has a keyword in the model, and is OAuth or has a key |
| ConfigSchema.FallbackHit | nanobot/config/schema.py:214-218 | The fallback pass accepts a configured non-OAuth entry with a key |
| ConfigSchema.MatchProvider | nanobot/config/schema.py:197-220 | The settings and the name are both present or both absent, and the settings are the named entry's. The choice is the first keyword hit (configured, keyword in the model, key or OAuth), else the first non-OAuth entry with a key, else (None, None) |
| ConfigSchema.KeywordWins | nanobot/config/schema.py:206-210 | The first keyword hit in registry order is the one returned |
| ConfigSchema.FallbackWins | nanobot/config/schema.py:214-219 | Without a keyword hit, the first fallback hit in registry order is returned |
| ConfigSchema.KeylessNeverChosen | nanobot/config/schema.py:209-218 | A non-OAuth provider without a key is never chosen, even when its keyword matches |
| ConfigSchema.OAuthOnlyByKeyword | nanobot/config/schema.py:213-216 | An OAuth provider is chosen only by the keyword pass |
| ConfigSchema.NoKeyNoMatch | nanobot/config/schema.py:220-235 | With no key anywhere and no OAuth keyword hit, the result is (None, None) and the key is None |
| ConfigSchema.MatchCaseInsensitive | nanobot/config/schema.py:203 | A model and its lower-cased form choose the same provider |
| ConfigSchema.DefaultModelUsed | nanobot/config/schema.py:203 | A missing or empty model matches as the default model |
| ConfigSchema.FallbackPrefersOpenRouter | nanobot/config/schema.py:212-219 | With an OpenRouter key and no keyword hit, the fallback picks OpenRouter |
| ConfigSchema.GetProviderName | nanobot/config/schema.py:227-230 | The name is that of a configured registry entry |
| ConfigSchema.GetProvider | nanobot/config/schema.py:222-225 | The settings are present exactly when a name is, and they are that name's settings |
| ConfigSchema.GetApiKey | nanobot/config/schema.py:232-235 | The key is the chosen provider's key, None when nothing is chosen, and empty only when some registry entry is OAuth |
| ConfigSchema.GatewayDefaultBase | nanobot/config/schema.py:247-250 | A default base comes only from a named entry that is a gateway with a non-empty default |
| ConfigSchema.GetApiBase | nanobot/config/schema.py:237-251 | A configured base wins; otherwise a gateway's registry default; otherwise None. The result is never empty |
| ConfigSchema.OpenRouterDefaultBase | nanobot/config/schema.py:247-250 | A chosen OpenRouter without a configured base gets "https://openrouter.ai/api/v1" |
| ConfigSchema.StandardProviderNoDefaultBase | nanobot/config/schema.py:244-251 | A chosen Moonshot without a configured base gets None |
| ConfigSchema.MoonshotHasNoGatewayBase | nanobot/config/schema.py:249 | Moonshot, a standard provider, has no gateway default |
| Memory.RecordShape | nanobot/agent/memory.py:30 | A history record is a prefix of the entry that does not end in whitespace, followed by "\n\n" |
| Memory.HistoryRecord | nanobot/agent/memory.py:30 | The text one `append_history` call adds: the entry right-stripped, then a blank line; `RecordShape` states its shape |
| Memory.HistoryOf | nanobot/agent/memory.py:27-30 | No appends give an empty log |
| Memory.HistoryOfConcat | nanobot/agent/memory.py:27-30 | The log of two batches of appends is the first batch's log followed by the second's |
| Memory.HistoryOfAppend | nanobot/agent/memory.py:27-30 | One more append extends the log by exactly that entry's record |
| Memory.RecordsInOrder | tests/test_agent_memory.py:20-26 | Every appended entry's record stays in the log, in order, right after the records before it |
| Memory.MemoryContext | nanobot/agent/memory.py:32-35 | The context is empty exactly when long-term memory is; otherwise it is the header followed by the memory |
| Memory.MemoryStore.constructor | nanobot/agent/memory.py:11-15 | The store starts with the files' current contents and no appended entries |
| Memory.MemoryStore.ReadLongTerm | nanobot/agent/memory.py:17-21 | Returns MEMORY.md's content as text mode reads it (`UniversalNewlines`), or "" when the file does not exist |
| Memory.MemoryStore.WriteLongTerm | nanobot/agent/memory.py:23-25 | MEMORY.md becomes exactly the content; the log and its invariant are untouched |
| Memory.MemoryStore.AppendHistory | nanobot/agent/memory.py:27-30 | The log (created if missing) becomes the old log + rstrip(entry) + "\n\n", so the old log is a prefix. MEMORY.md is untouched, and the log stays its initial text followed by the records of all appended entries |
| Memory.MemoryStore.GetMemoryContext | nanobot/agent/memory.py:32-35 | The context of the long-term memory as read, with universal newlines |
| Memory.WriteThenRead | tests/test_agent_memory.py:14-17 | Reading after a write returns what was written with its line endings read as "\n", and exactly what was written when it holds no carriage return |
| Memory.AppendTwoEntries | tests/test_agent_memory.py:20-26 | Two appends leave "entry one\n\nentry two\n\n" |
| Memory.EmptyContext | tests/test_agent_memory.py:37-39 | Without MEMORY.md the context is "" |
| FilesystemTools.Show | nanobot/agent/tools/filesystem.py:112 | The text of an absolute path starts with "/" |
| FilesystemTools.Parent | nanobot/agent/tools/filesystem.py:300 | `parent` drops the last component; the root is its own parent |
| FilesystemTools.Followed | nanobot/agent/tools/filesystem.py:67-69 | A path leads to an entry exactly when its resolved location holds one that is not a link |
| FilesystemTools.Exists | nanobot/agent/tools/filesystem.py:67 | `p.exists()`: links are followed, and a dangling link does not exist |
| FilesystemTools.IsFile | nanobot/agent/tools/filesystem.py:69 | `p.is_file()`: what `p` leads to is a regular file |
| FilesystemTools.IsDir | nanobot/agent/tools/filesystem.py:232 | `p.is_dir()`: what `p` leads to is a directory |
| FilesystemTools.IsSymlink | nanobot/agent/tools/filesystem.py:306 | `p.is_symlink()`: the entry itself, at its location, is a link |
| FilesystemTools.Location | nanobot/agent/tools/filesystem.py:306-311 | The entry a path names keeps the path's last component under its resolved parent |
| FilesystemTools.Disk.constructor | nanobot/agent/tools/filesystem.py:106-111 | The disk starts with the given entries |
| FilesystemTools.Anchored | nanobot/agent/tools/filesystem.py:18-20 | An absolute path, or any path without a workspace, is only `~`-expanded |
| FilesystemTools.ResolvePath | nanobot/agent/tools/filesystem.py:11-29 | The result is the anchored path resolved. Without an allowed directory nothing is refused. With one, the path resolves exactly when it lies inside the allowed directory or an extra one; otherwise the error names the path and the directory |
| FilesystemTools.ExtraDirsOnlyWiden | nanobot/agent/tools/filesystem.py:25-27 | Adding extra allowed directories never changes a path that already resolved |
| FilesystemTools.AbsolutePathIgnoresWorkspace | nanobot/agent/tools/filesystem.py:19-20 | An absolute path resolves the same under any workspace |
| FilesystemTools.ReadFile | nanobot/agent/tools/filesystem.py:61-77 | Read returns the permission error, "File not found", "Not a file", or the file's content as text mode reads it (`UniversalNewlines`) |
| FilesystemTools.MakeDirs | nanobot/agent/tools/filesystem.py:110 | `mkdir(parents=True, exist_ok=True)`: existing entries are kept, only directories are added, and an existing directory is a no-op. `os.mkdir(q)` is tried first, the parent is made only after ENOENT, and any other error is raised at `q` unless `q` is a directory. `MakeDirsFailsOnlyAtBlocker`, `MakeDirsBelowNotDir`, `MakeDirsBelowDanglingLink` and `MakeDirsSucceeds` say where it fails and when it succeeds |
| FilesystemTools.MakeDirsFailsOnlyAtBlocker | nanobot/agent/tools/filesystem.py:110 | A failure is reported at `q` or at an ancestor that is not a directory. An ancestor is reported only when the lookup under `q` found a missing component. When the lookup found a non-directory (ENOTDIR), the failure is at `q` itself. Proved by induction |
| FilesystemTools.DirLookup | nanobot/agent/tools/filesystem.py:110 | The kernel's lookup of a directory path, component by component: found exactly when the path is a directory, else the first missing or non-directory component decides |
| FilesystemTools.Mkdir | nanobot/agent/tools/filesystem.py:110 | `os.mkdir(q)`: EEXIST for an existing entry, a dangling link included; otherwise it creates `q` exactly when the parent is a directory, and reports ENOENT or ENOTDIR as the parent lookup says |
| FilesystemTools.LookupBelowNotDir | nanobot/agent/tools/filesystem.py:110 | Below a non-directory that is in the way, every lookup ends in ENOTDIR, by induction |
| FilesystemTools.MakeDirsBelowNotDir | nanobot/agent/tools/filesystem.py:110 | Below a regular file or a link to one, the failure is at `q`, the directory being made, and nothing changes |
| FilesystemTools.MakeDirsBelowDanglingLink | nanobot/agent/tools/filesystem.py:110 | Below a dangling link, the missing chain is walked back up to the link, and the failure is reported at the link, where `os.mkdir` meets EEXIST. Proved by induction |
| FilesystemTools.MakeDirsSucceeds | nanobot/agent/tools/filesystem.py:110 | On a coherent filesystem, missing directories below an existing one are made and `q` is then a directory, by induction |
| FilesystemTools.MakeDirsAfterParent | nanobot/agent/tools/filesystem.py:110 | After ENOENT and a successful parent, the second `os.mkdir(q)` leaves a directory at `q` |
| FilesystemTools.WriteEffect | nanobot/agent/tools/filesystem.py:109-112 | The write succeeds exactly when `mkdir` of the parent succeeds and the path is then not a directory; success leaves a file with the content, a failure is the `mkdir` failure or the path itself, and other entries are kept |
| FilesystemTools.WriteIntoDirectory | nanobot/agent/tools/filesystem.py:109-112 | Writing into an existing directory, at a path that is not a directory, succeeds and sets exactly that file |
| FilesystemTools.WriteBelowNotDir | nanobot/agent/tools/filesystem.py:109-116 | Writing below a regular file or a link to one changes nothing, and the error is at the parent directory being made |
| FilesystemTools.WriteFile | nanobot/agent/tools/filesystem.py:106-116 | A refused path changes nothing and returns the error. Otherwise the disk becomes the write's effect. The reply is "Successfully wrote N bytes to p", or "Error writing file: " followed by the error text of the path `mkdir` or the write raised at; `WriteBelowNotDir` shows that below a file this is the parent being made |
| FilesystemTools.WriteThenRead | nanobot/agent/tools/filesystem.py:106-112 | After a successful write, the read tool returns the content with universal newlines, which is exactly the content written when it holds no carriage return (reading is at lines 61-73) |
| FilesystemTools.EditedContent | nanobot/agent/tools/filesystem.py:149-153 | The edit tool reads content exactly when the path resolves to a file, and that content is the file's as text mode reads it |
| FilesystemTools.EditEffect | nanobot/agent/tools/filesystem.py:146-170 | The disk changes only when the old text occurs exactly once in the content as read, and then only that file changes, to the read text with its first occurrence replaced |
| FilesystemTools.EditMissingText | nanobot/agent/tools/filesystem.py:155-156 | Text that does not occur gives the not-found message and leaves the disk unchanged |
| FilesystemTools.EditAmbiguousText | nanobot/agent/tools/filesystem.py:158-161 | Text occurring k > 1 times gives "Warning: old_text appears k times…" and leaves the disk unchanged |
| FilesystemTools.EditSplices | nanobot/agent/tools/filesystem.py:163 | A successful edit produces the text before the leftmost occurrence, the new text, and the text after it |
| FilesystemTools.EditThenRead | nanobot/agent/tools/filesystem.py:163-164 | After a successful edit the read tool returns the edited content, read with universal newlines; exactly the spliced text when the replacement holds no carriage return |
| FilesystemTools.EditWritesNewlines | nanobot/agent/tools/filesystem.py:153-164 | A successful edit writes back the text as read, so unless the replacement brings one in, the file no longer holds a carriage return |
| FilesystemTools.EditFile | nanobot/agent/tools/filesystem.py:146-170 | The reply and the new disk are those `EditEffect` gives for the old disk |
| FilesystemTools.LessIrreflexive | nanobot/agent/tools/filesystem.py:236 | String order is irreflexive |
| FilesystemTools.LessTransitive | nanobot/agent/tools/filesystem.py:236 | String order is transitive |
| FilesystemTools.LessTotal | nanobot/agent/tools/filesystem.py:236 | Any two different names are ordered |
| FilesystemTools.LeastExists | nanobot/agent/tools/filesystem.py:236 | A non-empty set of names has a least one |
| FilesystemTools.LeastUnique | nanobot/agent/tools/filesystem.py:236 | The least name of a set is unique |
| FilesystemTools.SortedOfHead | nanobot/agent/tools/filesystem.py:236 | A sorted listing starts with the least name, followed by a sorted listing of the rest |
| FilesystemTools.SortedOfUnique | nanobot/agent/tools/filesystem.py:236 | The sorted order of a set of names is unique |
| FilesystemTools.Sorted | nanobot/agent/tools/filesystem.py:236 | `sorted` lists each name once, in strictly increasing order |
| FilesystemTools.SortNames | nanobot/agent/tools/filesystem.py:236 | Repeatedly taking the least remaining name gives exactly `sorted(names)` |
| FilesystemTools.ChildNames | nanobot/agent/tools/filesystem.py:236 | `iterdir` yields exactly the names of the entries directly inside the directory |
| FilesystemTools.EntryLine | nanobot/agent/tools/filesystem.py:237-238 | A line is the folder mark and the name exactly when the entry is a directory, and the file mark and the name otherwise |
| FilesystemTools.ListResult | nanobot/agent/tools/filesystem.py:226-243 | `ListDirTool.execute`: the error for each failed check, else the listing of the sorted names; `ListEmptyIff` and `ListDir` state it |
| FilesystemTools.Listing | nanobot/agent/tools/filesystem.py:240-243 | The empty-directory text for no names, else the marked lines joined by newlines |
| FilesystemTools.ListEmptyIff | nanobot/agent/tools/filesystem.py:240-243 | An existing directory lists as "Directory p is empty" exactly when nothing is inside it |
| FilesystemTools.JoinStartsWithMark | nanobot/agent/tools/filesystem.py:243 | A joined non-empty listing starts with a folder or file mark |
| FilesystemTools.EntryLines | nanobot/agent/tools/filesystem.py:235-238 | The loop produces one marked line per name, in the given order |
| FilesystemTools.ListDir | nanobot/agent/tools/filesystem.py:226-247 | The reply is the permission error, "Directory not found", "Not a directory", the empty-directory text, or the sorted marked lines joined by newlines |
| FilesystemTools.DeletePath | nanobot/agent/tools/filesystem.py:283-287 | The lexical absolute path the delete tool works on: `~` expanded, anchored under the workspace, not resolved |
| FilesystemTools.DeleteAllowed | nanobot/agent/tools/filesystem.py:289-302 | The directory guards: inside the alias or the real allowed directory, with the resolved parent inside the real one |
| FilesystemTools.DeleteTarget | nanobot/agent/tools/filesystem.py:283-309 | The target is the lexical path exactly when the directory guards pass, the path exists or is a link, and it is not a directory unless it is a link; each failed check gives its error text |
| FilesystemTools.EntryChecks | nanobot/agent/tools/filesystem.py:304-309 | A path passes exactly when it exists or is a link, and is a link or not a directory |
| FilesystemTools.DeleteEffect | nanobot/agent/tools/filesystem.py:279-314 | The filesystem is unchanged or loses exactly one entry; `DeleteRemovesIff` says which paths are deleted |
| FilesystemTools.CanUnlink | nanobot/agent/tools/filesystem.py:311 | `unlink` succeeds: the entry itself is there and is not a directory |
| FilesystemTools.DeleteRemovesIff | nanobot/agent/tools/filesystem.py:279-314 | On a coherent filesystem, an entry is removed exactly when the guards pass and the path is a link or a regular file; then only that entry goes and the reply is "Successfully deleted" |
| FilesystemTools.DeleteStaysInside | nanobot/agent/tools/filesystem.py:289-311 | Whatever is deleted lies inside the allowed directory, its real parent does too, and only that entry is removed |
| FilesystemTools.SymlinkParentEscapeBlocked | nanobot/agent/tools/filesystem.py:299-302 | A path whose resolved parent lies outside the allowed directory gives the outside error and deletes nothing |
| FilesystemTools.DirectoryRefused | nanobot/agent/tools/filesystem.py:308-309 | A real directory (not a link) is never deleted |
| FilesystemTools.DanglingLinkDeleted | nanobot/agent/tools/filesystem.py:304-312 | A dangling link that passes the directory guards is deleted (the link itself, not its target), though `exists()` is false for it |
| FilesystemTools.DeleteFile | nanobot/agent/tools/filesystem.py:279-314 | The reply and the new disk are those `DeleteEffect` gives for the old disk |
| Email.MonthAbbreviationLength | nanobot/channels/email.py:38-51 | Every month abbreviation has three letters |
| Email.FormatImapDate | nanobot/channels/email.py:436-440 | The text is a day, "-", the month's English abbreviation, "-", and the year (11 characters for a four-digit year) |
| Email.MonthNumber | nanobot/channels/email.py:38-51 | A recognised abbreviation names a month 1-12 |
| Email.FormatParseRoundTrip | nanobot/channels/email.py:436-440 | Reading a date's IMAP text as section 9 of RFC 3501 defines it gives back the date |
| Email.MonthNumberOfAbbreviation | nanobot/channels/email.py:439 | Each abbreviation reads back as its own month |
| Email.FormatImapDateInjective | nanobot/channels/email.py:436-440 | Different dates never share a search text |
| Email.IsReplySubjectIff | nanobot/channels/email.py:518 | The reply test is `subject.lower().startswith("re:")` |
| Email.ReplySubjectIsReply | nanobot/channels/email.py:515-520 | With the default prefix every reply subject starts with "re:" in some case and has whitespace at neither end |
| Email.PrefixedIsReply | nanobot/channels/email.py:520 | "Re: " in front of a subject not ending in whitespace gives a stripped reply subject |
| Email.ReplySubjectIdempotent | nanobot/channels/email.py:515-520 | With the default prefix, replying to a reply subject does not add another prefix |
| Email.CustomPrefixStacks | nanobot/channels/email.py:515-520 | A custom prefix that does not start with "re:" is stacked again on every round |
| Email.PlainSubjectPrefixed | nanobot/channels/email.py:516-520 | A plain, stripped subject gets the custom prefix, and the result is again plain and stripped |
| Email.ReplySubject | nanobot/channels/email.py:515-520 | `_reply_subject`: the stripped subject (or "nanobot reply") when it already starts with "re:", else the prefix (or "Re: ") before it; its properties are `ReplySubjectIsReply`, `ReplySubjectIdempotent` and `CustomPrefixStacks` |
| Email.SpacesEnd | nanobot/channels/email.py:454 | The end of the run of whitespace starting at j lies between j and the text's end |
| Email.SpacesEndMaximal | nanobot/channels/email.py:454 | `\s+` is greedy: it takes the whole run of whitespace |
| Email.DigitsEnd | nanobot/channels/email.py:454 | The end of the run of digits starting at j lies between j and the text's end |
| Email.DigitsEndMaximal | nanobot/channels/email.py:454 | `\d+` is greedy: it takes the whole run of digits |
| Email.UidGroup | nanobot/channels/email.py:454-456 | The captured group is a non-empty run of digits |
| Email.SearchUidFrom | nanobot/channels/email.py:454 | `re.search(r"UID\s+(\d+)")` gives the group at the leftmost match, and nothing only when there is no match |
| Email.ExtractUid | nanobot/channels/email.py:449-457 | The UID is "" exactly when no tuple header holds "UID" followed by whitespace and digits. Otherwise it is the digits the pattern captures in the first tuple header that holds them |
| Email.ExtractMessageBytes | nanobot/channels/email.py:442-447 | There is a message exactly when some tuple's second element is a byte string, and it is the first such element |
| Email.TypicalFetchResponse | nanobot/channels/email.py:442-457 | A FETCH reply of the form (b"1 (UID 123 BODY[] {200}", raw), b")" yields UID "123" and the message raw |
| Email.FirstItemFound | nanobot/channels/email.py:444-456 | When the first item is a (header, message) pair, the UID and the message both come from it |
| Email.TypicalHeadUid | nanobot/channels/email.py:454-456 | The search finds "123" in the typical header |
| Email.TypicalHeadMatch | nanobot/channels/email.py:454 | The pattern matches at the header's "UID", capturing "123" |
| Email.DefaultsNotConfigured | nanobot/config/schema.py:17-49 | The default email settings have no consent and no credentials, so the channel cannot start; their SMTP transport (STARTTLS) counts as secure |
| Email.PollSeconds | nanobot/channels/email.py:93 | `max(5, interval)`: the configured interval when it is at least five, and exactly five otherwise |
| Email.TransportSecure | nanobot/channels/email.py:218-225 | SMTP is encrypted: implicit SSL or STARTTLS |
| Email.Configured | nanobot/channels/email.py:193-216 | All six credentials are present and the transport is secure |
| Email.JsonTruthy | nanobot/channels/email.py:140 | Python `bool` of a metadata value |
| Email.ForceSend | nanobot/channels/email.py:140 | `force_send` is present in the metadata and truthy |
| Email.MailboxName | nanobot/channels/email.py:344 | The configured mailbox, or "INBOX" when it is empty |
| Email.LineEnd | nanobot/channels/email.py:168-170 | The end of the line starting at `j`, its break included, as `splitlines` cuts it |
| Email.LineCount | nanobot/channels/email.py:168-170 | `len(s[j:].splitlines())`: zero exactly for the empty rest |
| Email.LineEndBeforeEnd | nanobot/channels/email.py:168-170 | The first line ends before the text does iff some line break is followed by more text, by induction |
| Email.HeaderRefused | nanobot/channels/email.py:168-170 | The default policy's test on a header value: `len(value.splitlines()) > 1` |
| Email.HeadersRefused | nanobot/channels/email.py:168-176 | Some header `send` sets (From, To, Subject, In-Reply-To, References) would be refused |
| Email.HeaderRefusedIff | nanobot/channels/email.py:168-176 | The default policy refuses a header value exactly when it holds a line break followed by more text |
| Email.HeaderRefusedExamples | nanobot/channels/email.py:168-176 | An injected second header line is refused; a single trailing line break and a plain value are not |
| Email.SubjectOverride | nanobot/channels/email.py:162-165 | The override is absent exactly when `metadata["subject"]` is missing, not a string, or blank; otherwise it is the stripped subject |
| Email.SlicePrefix | nanobot/channels/email.py:394 | `s[:n]` is a prefix of s of length min(n, len s), or, for a negative n, len s + n (at least 0) |
| Email.BodyText | nanobot/channels/email.py:391-394 | The body, or "(empty email body)" when empty, cut as Python `[:max_body_chars]`: a prefix of exactly the sliced length, the whole text when it fits |
| Email.Remembered | nanobot/channels/email.py:420-424 | The set gains the UID, and is cleared exactly when it then holds more than 100000 UIDs; a set within the cap stays within it |
| Email.SenderAddress | nanobot/channels/email.py:382 | The sender key is lower-case |
| Email.MakeItem | nanobot/channels/email.py:386-418 | The inbound item: sender, subject, stripped Message-ID, and the content text with the header lines and the cut body |
| Email.Decode | nanobot/channels/email.py:369-377 | What one FETCH reply yields: whether it was answered, the raw message bytes, and the UID |
| Email.Step | nanobot/channels/email.py:369-427 | One pass of the fetch loop; `StepBounds`, `StepSenderNormal`, `StepSkipKeepsState` and `StepDedupe` state it |
| Email.StepBounds | nanobot/channels/email.py:368-427 | One message adds at most one item and keeps earlier items. The processed set stays within its cap and is untouched without dedupe; nothing is flagged without mark_seen |
| Email.StepSenderNormal | nanobot/channels/email.py:382-384 | An item's sender is non-empty and lower-case |
| Email.StepSkipKeepsState | nanobot/channels/email.py:369-384 | A message that yields no item changes nothing |
| Email.StepDedupe | nanobot/channels/email.py:420-424 | With dedupe, an already processed UID is skipped, and an admitted UID is remembered unless the cap was exceeded (the dedupe flag is tested at lines 378-379) |
| Email.FetchLoopBounds | nanobot/channels/email.py:368-427 | Over a whole fetch, items are only appended, at most one per message. The processed set stays within its cap and is untouched without dedupe; nothing is flagged without mark_seen |
| Email.FetchedSendersNormal | nanobot/channels/email.py:382-384 | Every fetched item has a non-empty, lower-case sender |
| Email.FetchLoopSingle | nanobot/channels/email.py:368 | A fetch of one message is one pass of the loop |
| Email.FetchLoop | nanobot/channels/email.py:368-427 | The fetch loop over the selected ids, step by step; `FetchLoopBounds` and `FetchedSendersNormal` state it |
| Email.Selected | nanobot/channels/email.py:365-367 | The visited ids are a tail of the search result: the last `limit` ids when limit is positive, all of them otherwise |
| Email.RepeatFetchDeduped | tests/test_email_channel.py:203-205 | Fetching the same message twice with dedupe returns nothing the second time while the set is below its cap |
| Email.DateCriteria | nanobot/channels/email.py:307-313 | The search is SINCE start BEFORE end, with both dates readable back from the text |
| Email.LastValue | nanobot/channels/email.py:97-105 | A remembered value is never empty |
| Email.RememberAll | nanobot/channels/email.py:97-105 | The per-sender map after the items of one poll, keeping only non-empty values; `RememberLookup` ties it to `LastValue` |
| Email.RememberLookup | nanobot/channels/email.py:97-105 | After a poll, a sender's entry is the last non-empty value it sent in the poll, otherwise the old entry. A sender gets an entry only if it had one or sent a non-empty value |
| Email.RememberNeverBlank | nanobot/channels/email.py:102-105 | Empty subjects and Message-IDs never overwrite, so the maps hold only non-empty values |
| Email.VisitAll | nanobot/channels/email.py:368-427 | The loop over the selected ids ends in the state `FetchLoop` gives |
| Email.VisitMessage | nanobot/channels/email.py:369-427 | One pass skips a failed FETCH, a missing message part, a processed UID (with dedupe) or a missing sender. Otherwise it appends the item, remembers the UID and flags the message, as one step of `FetchLoop` |
| Email.EmailChannel.constructor | nanobot/channels/email.py:53-72 | The channel starts with empty per-sender maps, an empty processed set, and not running |
| Email.EmailChannel.ValidateConfig | nanobot/channels/email.py:184-216 | `missing` names exactly the empty credentials, and the check passes exactly when none is missing and SMTP is encrypted |
| Email.EmailChannel.Start | nanobot/channels/email.py:74-93 | Polling starts exactly with consent and a valid configuration; the per-sender maps and processed set are untouched |
| Email.EmailChannel.Stop | nanobot/channels/email.py:118-120 | `stop` clears the running flag and nothing else |
| Email.EmailChannel.RecordInbound | nanobot/channels/email.py:97-105 | The per-sender subject and Message-ID maps are updated item by item, only by non-empty values |
| Email.EmailChannel.Send | nanobot/channels/email.py:122-176 | Skipped without consent (even when forced), with auto-reply off and no force, without an SMTP host, over plaintext SMTP, or to a blank recipient; otherwise the message is built. It is rejected (ValueError) exactly when a header value spans lines, and handed to SMTP otherwise. The subject is the override, else the reply subject of the last subject; In-Reply-To and References carry the last Message-ID exactly when one is known; the sender is `from_address or smtp_username or imap_username` |
| Email.EmailChannel.FetchMessages | nanobot/channels/email.py:319-434 | A failed SELECT or SEARCH gives nothing. Otherwise the items, processed set and flagged ids are the loop over the selected tail of the results; the per-sender maps are untouched |
| Email.EmailChannel.FetchNewMessages | nanobot/channels/email.py:284-291 | Unseen messages, deduplicated, flagged \Seen as configured, without a limit. A failed SELECT or SEARCH gives nothing and leaves the processed set unchanged. The running flag and the reply maps are kept |
| Email.EmailChannel.FetchMessagesBetweenDates | nanobot/channels/email.py:293-317 | An empty range gives nothing. Otherwise it gives at most max(1, limit) of the latest messages in [start, end), neither flagged nor deduplicated. A failed SELECT or SEARCH gives nothing. The processed set, the running flag and the reply maps are untouched |
| Email.OneDaySearch | tests/test_email_channel.py:396-398 | 2026-02-06 to 2026-02-07 searches SINCE "06-Feb-2026" BEFORE "07-Feb-2026" |
| Email.FebruaryDate | nanobot/channels/email.py:436-440 | A one-digit day of February 2026 is written "0d-Feb-2026" |
| Email.ReplyToInvoice | tests/test_email_channel.py:261 | "Invoice #42" is replied to as "Re: Invoice #42" |

## Left out

- Text.Lower: the case mapping is ASCII only; Python's `lower()` also maps non-ASCII letters. Provider keywords never hold any, but the email sender key (nanobot/channels/email.py:382) lower-cases an address that may: the model keeps non-ASCII letters of an address as they are, where Python would lower-case them.
- Text.Title: ASCII only, for the same reason (Python counts non-ASCII letters as cased too); every registry entry has a display name, so `title()` is never reached for the table.
- Email.SenderAddress: `parseaddr` and the MIME parser are part of the `parse` parameter; only the strip and lower-casing after them are modelled.
- Email.EmailChannel.Send: the SMTP session (`_smtp_send`, SSL and STARTTLS, login, the 30-second timeout) is not modelled; the method returns the email it would hand over (`Handed`), and a delivery error that is logged and re-raised is outside the model. The ValueError for a header value that spans lines is modelled (`HeaderRejected`); the address parsing of the From and To headers, which records defects rather than raising, is not.
- Email.EmailChannel.FetchMessages: the IMAP session (login, SELECT, SEARCH, FETCH, STORE, logout, and `_tls_context`) is the `Mailbox` parameter; exceptions raised inside it are not modelled.
- Email.EmailChannel.Start: the asyncio polling loop (`to_thread`, `sleep`) and the `_handle_message` hand-off to the message bus are concurrency and foreign calls; only the checks, the poll period and the per-item map updates (`RecordInbound`) are modelled.
- MIME decoding (`_decode_header_value`, `_extract_text_body`, `_html_to_text`) is library behaviour and is part of the `parse` parameter.
- The UID pattern's `\d` is ASCII digits; Python also accepts other Unicode decimal digits. Header bytes are held as already-decoded text, with no UTF-8 decoding.
- Email settings the logic does not branch on (ports, `tls_verify`, `imap_use_ssl`, `enabled`, `allow_from`) are not fields of the model's configuration.
- OpenAICompat.OpenAIProvider.Chat: the SDK client is a parameter returning a response or an exception message; the `usage` object's fields and `json_repair` are parameters too, and the call is synchronous.
- OpenAICompat.OpenAIProvider.Chat: the default arguments of `chat` (`max_tokens=4096`, `temperature=0.7`, `tools=None`, `model=None`) are not modelled as defaults; every caller passes all four.
- Email.EmailChannel.FetchMessagesBetweenDates: the default `limit=20` is not modelled as a default; callers pass the limit.
- Temperatures and override values are floats, held as their literal text; nothing computes with them.
- `get_default_model` and the abstract `LLMProvider` base class are not part of this model.
- Pydantic alias generation, camelCase keys and environment-variable loading in the configuration schema are library behaviour; a provider field is present or absent in a map.
- FilesystemTools: `Path.resolve`, `expanduser`, `os.path.abspath`, `is_absolute` and joining under the workspace are the `PathOps` parameter. Error texts of the operating system come from the same parameter. Nothing ties these functions to the filesystem map in general; the success lemmas (`MakeDirsSucceeds`, `DeleteRemovesIff`) assume `Coherent`, which says that a path whose own entry is not a link resolves to where that entry lives. The operations themselves assume nothing of the kind.
- FilesystemTools.EditFile: `_not_found_message` (difflib similarity ratios) is the `notFound` parameter.
- FilesystemTools.ReadFile: a decoding error on a non-UTF-8 file ("Error reading file: …") is not modelled; file contents are text.
- FilesystemTools.WriteFile: `write_text` in text mode writes "\n" as the platform line separator; the model assumes a POSIX platform, where the content is written unchanged. The same holds for `EditFile` and `Memory.MemoryStore.WriteLongTerm`.
- FilesystemTools.MakeDirs: a directory creation failing for a reason other than a non-directory in the way (permissions, a full disk) is not modelled.
- FilesystemTools.ListDir: `sorted` over path objects is modelled as the order on their names, which is the same order for the entries of one directory.
- The tools' `name`, `description` and `parameters` properties are constant metadata and are not modelled.
