# Verification of the Yadra Bridge proxy

A Dafny model of the proxy's four stateful components, with the handler that ties
them together, and proofs of what they promise. `dafny verify dfyconfig.toml` checks
everything.

* **Rate limiter** (`RedisStore`, `RateLimiter`, `RateLimitRuns`, `RateLimitCaps`,
  `RateLimitTickets`, `RateLimitHistory`, `RateLimitWitness`). The shared store is a map
  from keys to a count and an optional expiry; `Limiter.Check` is written command by
  command. Concurrent requests are a machine in which every request has a program
  counter and every command of every request is a separate step, which may fail, or be
  applied and reported as failed. Caps, tickets and advice are proved for all runs; a
  sequential run is proved to follow a specification that only looks at the list of
  earlier attempts; and an uninterrupted call of the method is proved to be one of the
  machine's runs.
* **Redaction** (`Redaction`, `NationalId`, `Luhn`, `RedactionRules`, `ChatRedaction`).
  The splicing loops, with patterns as functions that return ordered, disjoint matches.
  The national-ID pattern is concrete, with its word boundaries.
* **Streaming** (`EventStream`, `StreamRelay`, `StreamForward`, `TokenCount`, `WhiteSpace`). The line
  scanner with its 64 KiB limit, the relay and the Anthropic translator, measured against
  the event-stream parser of sections 9.2.5 and 9.2.6 of the WHATWG HTML standard.
* **Refreshing caches** (`TtlCache`, `CoreClient`, `YadManifest`, `ManifestRuns`). One
  machine for both caches of the Hub client, with overlapping refreshes that finish in
  any order; the manifest cache is a second machine stacked on the first.
* **Handler** (`ChatHandler`, `ChatProperties`) and two digit loops (`Digits`).

## How to read the model

* Times are nanoseconds since Go's zero time, so aligned windows are plain divisions. A
  stored key is live strictly before its expiry.
* A character stands for a byte; white space is recognised in its UTF-8 encodings.
* JSON encoding and decoding, the pattern library, the clock, the network and the
  provider are parameters. Where a law of such a library is needed it is a named
  hypothesis: `RuleOk` (matches in range, ordered, disjoint), `PatternsOk` (minimum match
  lengths of the default patterns), `CodecOk` (what is encoded decodes again, on one line).
* In the state machines an event that does not apply does nothing, so every list of
  events is a run. Hypotheses about runs are separate predicates. `Timely`: counter
  commands that reach the store do so in the window of their request's `now`. `Prompt`:
  in addition none fails, and the clock does not leave a window while a pipeline on one
  of its counters is half executed. `Honest`: what arrives was served at
  some moment of the request, and a refresh takes at most a given time.

## Where the code and its intent part

* `StaleRequestBreaksCap`: keys do not contain the window, so a request that reaches
  the store a window late deletes the live counter; then a fail-closed limiter admits
  more than its cap. `CapHoldsOnEveryRun` shows that timeliness is all that is missing.
* `RoutingEmptyExactly`, `GraceForgetsModels` and `GraceAnswersNotFound`: a routing
  refresh that fails within the grace period throws the cached value away and answers
  an empty config without an error, so every model is answered 404
  `model_not_available`, where docs/API.md lists 503 `routing_unavailable` for a failed
  fetch. `GraceServesPlatform` and `ManifestGrace` show that the other two caches do serve
  their grace period, in every run.
* `RelayExact`, `CrPairLosesEvent` and `LongLineEndsStream`: the relay preserves the lines
  an event-stream consumer sees if and only if no line of the upstream ends in two carriage
  returns and none is beyond the scanner's limit, where the relay ends silently.
* `FastPathExactly`: the manifest's cache key does not separate its two parts; configs
  share one exactly when one URL is the other lengthened by a "|" and something that the
  other's date begins with. With dates free of "|" this cannot happen.
* `TextKeepsIdExactly`, `HitExactly` and `EscapeHidesId`: plain content is always clean.
  Structured content is searched in its JSON encoding, and its text keeps a national ID
  exactly when the encoding has no hit; an escaped line break, for one, puts a letter
  before the next character, so that an ID at the start of a line is not word-bounded there.
* `ExponentExactly`: the exponent fold is the encoded number exactly below 2^63.
* `RetryAfterHeader`: the header is rounded down to whole seconds and missing in the last
  second of a window, where docs/API.md says it is set on every 429.

## Model

| member | source | states |
|---|---|---|
| RateLimiter.Limiter.CheckWindow | internal/ratelimit/limiter.go:103-127 | the store and the verdict after one window's pipeline, for every fate of its two commands |
| RateLimiter.Limiter.Check | internal/ratelimit/limiter.go:54-101 | the store and the answer of a whole call, for any store, any failures and both fail modes |
| RateLimiter.AdvertisedExactly | internal/ratelimit/limiter.go:72-100 | every admitted call is told the minute's limit and end where there is a minute limit, else the day's, which is the earliest end of a capped window, and what that window's own counter leaves, never below zero |
| RateLimiter.KeyInjective | internal/ratelimit/limiter.go:62 | a key determines its window and, for buckets without a colon, its bucket and user |
| RateLimitRuns.StepKeepsInv | internal/ratelimit/limiter.go:103-127 | every timely step of any interleaving keeps tickets distinct and backed by the live counter |
| RateLimitCaps.CapHoldsOnEveryRun | internal/ratelimit/limiter.go:109-126 | in every timely run, per aligned minute and per aligned day: fail-closed never admits more than the cap, fail-open at most the cap plus the failed checks |
| RateLimitCaps.SlidingBound | internal/ratelimit/limiter.go:104 | any interval no longer than a window holds at most twice the cap, in a fail-open limiter plus the failed checks of the two windows it meets |
| RateLimitCaps.OutcomesExplained | internal/ratelimit/limiter.go:103-127 | in every run, each way a request can end has its cause; an admitted one is told its own window's limit and end; the advised wait is in (0, window] and ends exactly at the next window's start |
| RateLimitCaps.RemainingIsHonest | internal/ratelimit/limiter.go:84-100 | the advertised remainder is what the counter leaves of the minute's limit, or of the day's where there is none, and in the same window at most the limit less the request's own ticket; the reset is the next aligned boundary |
| RateLimitTickets.TicketsAreExact | internal/ratelimit/limiter.go:107-126 | without failures, the tickets handed out per key and window are exactly 1 to n, each once, under every interleaving |
| RateLimitHistory.SequentialRunsAreExact | internal/ratelimit/limiter.go:54-101 | a sequential call, also one that crosses a minute or a day, is admitted if and only if fewer than the cap earlier attempts count in its minute and in its day (and, fail-closed, its read succeeds), and is told what is left in the window of the read; attempts refused by the minute never count in the day |
| RateLimitHistory.ServeMirrors | internal/ratelimit/limiter.go:103-127 | the counters with their expiries mirror the whole history after every such run |
| RateLimitHistory.NoInterference | internal/ratelimit/limiter.go:62-67 | every attempt of a run is answered as if only its own user's attempts on its own bucket were served |
| RateLimitWitness.CallIsARun | internal/ratelimit/limiter.go:54-101 | an uninterrupted call, with or without failing commands, is a run of the concurrent machine with the same store and answer |
| RateLimitWitness.CallsAreARun | internal/ratelimit/limiter.go:54-101 | and so is any list of calls one after another, with or without failing commands, across any boundaries; a timely run if its commands keep to their windows |
| RateLimitWitness.SlidingBoundAttained | internal/ratelimit/limiter.go:104 | a timely run admits twice the cap within two nanoseconds, so the sliding bound is tight |
| RateLimitWitness.SlidingBoundAttainedInTable | internal/ratelimit/limiter.go:23-28 | for all four buckets of the table |
| RateLimitWitness.StaleRequestClearsCounter | internal/ratelimit/limiter.go:108 | a request from an earlier window deletes the live counter |
| RateLimitWitness.StaleRequestBreaksCap | internal/ratelimit/limiter.go:62-67 | hence, without timeliness, a fail-closed limiter exceeds its cap in one minute |
| Redaction.SpliceStep | internal/redact/engine.go:67-75 | inside the right-to-left loop the substring read is still the original match, and the splice is the next stage of the rewriting |
| Redaction.Engine.SpliceAll | internal/redact/engine.go:66-75 | the inner loop computes the left-to-right rewriting at the original offsets and counts the accepted matches |
| Redaction.Engine.Redact | internal/redact/engine.go:54-86 | the outer loop computes the fold of all rules, count and categories included |
| Redaction.PassIsSimultaneous | internal/redact/engine.go:61-80 | one pass replaces exactly the accepted matches of the original text, all at once, and leaves every gap alone |
| Redaction.PassObeysValidator | internal/redact/engine.go:69-74 | the gaps stay, a match is replaced if the rule has no validator or it says yes, and stays otherwise; the hits are the replacements |
| Redaction.NothingToDo | internal/redact/engine.go:55-57 | a disabled engine, or an empty text: nothing is done or reported |
| Redaction.PassLength | internal/redact/engine.go:61-80 | the length changes by the sum of replacement minus match over the accepted matches |
| Redaction.ReportIsHonest | internal/redact/engine.go:54-86 | the count is the number of replacements, categories are exactly those of rules that replaced, one is empty if and only if the other is zero, and then the text is unchanged |
| NationalId.NothingIsLeft | internal/redact/rules.go:57-61 | after one pass no word-bounded ddd-dd-dddd is left anywhere, for every text |
| NationalId.PassIsIdempotent | internal/redact/rules.go:57-61 | a second pass changes nothing and counts nothing |
| Luhn.CheckLuhn | internal/redact/rules.go:66-90 | the loop decides the Luhn formula of Annex B of ISO/IEC 7812-1 on 13 to 19 digits |
| Luhn.SumIsWeighted | internal/redact/rules.go:76-88 | the sum is that of the formula read digit by digit from the left |
| Luhn.SeparatorsIgnored | internal/redact/rules.go:68-72 | inserting non-digits anywhere changes no verdict |
| Luhn.SubstitutionDetected | internal/redact/rules.go:76-89 | every substitution of one digit breaks the formula |
| Luhn.TranspositionDetected | internal/redact/rules.go:76-89 | an adjacent transposition of different digits keeps the formula if and only if it swaps 0 and 9 |
| Luhn.CardChecks | internal/redact/rules.go:66-90 | all of this on the strings the validator sees, and exactly one check digit for every payload of 12 to 18 digits |
| RedactionRules.New | internal/redact/engine.go:25-48 | the engine holds the allowed default rules in order, then the custom rules that compile |
| RedactionRules.KeptExactly | internal/redact/engine.go:33-38 | the filter keeps exactly the rules of allowed categories |
| RedactionRules.EngineRulesExactly | internal/redact/engine.go:26-39 | no categories allow every default rule, else exactly those named |
| RedactionRules.DefaultReplacements | internal/redact/rules.go:24-62 | each default rule replaces by its own category's name in capitals and brackets; only cards are validated |
| RedactionRules.CardsExactly | internal/redact/rules.go:31-36 | end to end, what the card pattern finds is replaced if and only if its digits are 13 to 19 and satisfy the Luhn formula; all else stays, and the count is that of the replacements |
| RedactionRules.LoadCustomRules | internal/redact/engine.go:97-112 | rules whose pattern does not compile are skipped, a missing category becomes custom |
| RedactionRules.CompiledExactly | internal/redact/engine.go:97-112 | the custom rules are exactly those of the definitions that compile, each with its definition's replacement and category and no validator |
| RedactionRules.CompiledConcat | internal/redact/engine.go:98-112 | in the order of the definitions |
| RedactionRules.PassGrowth | internal/redact/rules.go:24-62 | a rule with matches of at least m characters stretches any text by at most its replacement's length over m |
| RedactionRules.DefaultGrowth | internal/redact/rules.go:24-62 | for any choice of categories, 66 times the output is at most 91 times the input |
| RedactionRules.EngineGuarantees | internal/redact/corpus_test.go:88 | the fuzzed bound of twice the input plus 64 holds for every text, and no national ID is left |
| EventStream.LinesAfterLf | internal/router/router_stream.go:118-121 | how the standard's line reading continues after a line feed, whatever came before |
| StreamRelay.RelayKeepsLines | internal/router/router_stream.go:118-123 | a consumer of the relayed bytes reads the same lines, up to the last unterminated one |
| StreamRelay.RelayExact | internal/router/router_stream.go:118-123 | it does so if and only if every line fits the scanner and no line ends in two carriage returns, for every stream |
| StreamRelay.RelayPreservesEvents | internal/router/router_stream.go:118-135 | then the consumer sees the same events, byte order mark, comments, ids and multi-line data included |
| StreamRelay.CrPairLosesEvent | internal/router/router_stream.go:118-123 | an upstream ending a line in two carriage returns for which an event is lost |
| StreamRelay.LongLineEndsStream | internal/router/router_stream.go:118-119 | everything from a line beyond the scanner's limit on is dropped |
| StreamForward.ForwardOpenAIStream | internal/router/router_stream.go:117-140 | the client gets the relayed bytes as far as it takes them, and tokens are counted for exactly the lines delivered whole |
| StreamForward.ContentExactly | internal/router/router_stream.go:259-276 | which chunks carry which text |
| StreamForward.OpenAITextsArrive | internal/router/router_stream.go:125-140 | whatever chunks the provider frames, with LF or CRLF, exactly the texts in choices[0].delta.content are counted, a quarter of each and at least one in all |
| StreamForward.TranslateLines | internal/router/router_stream.go:197-236 | the client gets the frames of the text deltas as far as it takes them; tokens count up to the frame that failed |
| StreamForward.ForwardAnthropicStream | internal/router/router_stream.go:197-245 | whenever writes begin to fail, what was delivered is a prefix of the full translation, which ends in the end marker |
| StreamForward.TranslationEvents | internal/router/router_stream.go:231-239 | an event-stream consumer reads one message per chunk, then the end marker, nothing else |
| StreamForward.TranslationPreservesText | internal/router/router_stream.go:197-239 | the decoded chunks carry the non-empty deltas in order, each under the given id, model and time, and the end marker comes once, last |
| StreamForward.ProviderTextsArrive | internal/router/router_stream.go:201-219 | whatever events the provider frames, with LF or CRLF, exactly their texts are picked out |
| StreamForward.OpenAITokenBound | internal/router/router_stream.go:259-276 | the streamed count against the text streamed |
| TokenCount.StreamedVersusBuffered | internal/router/router_stream.go:220 | counting per chunk never exceeds counting the whole text, and falls short by at most three quarters a chunk |
| TokenCount.BoundsAttained | internal/router/router.go:106-108 | both ends of that bound are reached for every number of chunks |
| TokenCount.QuartersExactly | internal/router/router_stream.go:220 | the count adds up piece by piece |
| TokenCount.MessageText | internal/router/router.go:350-368 | the text of plain content, of all text parts in order, or the encoding of any other value |
| TokenCount.PartsExactly | internal/router/router.go:354-363 | the texts of parts are put together in their order, and other parts add nothing |
| TokenCount.EstimateTokens | internal/router/router.go:370-379 | a quarter per message, and at least one |
| TokenCount.EstimateBound | internal/router/router.go:370-379 | the estimate exceeds a quarter of the whole prompt if and only if the prompt is under four bytes, and falls short by at most three quarters a message |
| TokenCount.SplitAnthropicMessages | internal/router/router.go:327-344 | system lines collected and trimmed, all other messages as turns of two roles |
| TokenCount.SplitConserves | internal/router/router.go:327-344 | no text is lost: the system lines are those of the system messages and the turns those of all others, in order and in their roles, and every message is one or the other |
| TokenCount.SplitConcat | internal/router/router.go:330-342 | order is kept on both sides |
| WhiteSpace.TrimmedExactly | internal/router/router.go:343 | trimming takes white space, in all its UTF-8 encodings, off both ends and nothing else |
| TtlCache.AnswersExplained | internal/coreclient/client.go:145-241 | under every interleaving of gets and refreshes, each answer is fresh from the cache, fetched, from the grace period, or an error |
| TtlCache.AnswersFresh | internal/coreclient/client.go:209-222 | even when overlapping refreshes overwrite each other out of order, each answer was served by the Hub within the TTL (or twice it) plus one refresh |
| TtlCache.GetIsARun | internal/coreclient/client.go:145-155 | an uninterrupted get is one of those runs |
| TtlCache.ServedForOneTtl | internal/coreclient/client.go:145-155 | for one TTL after a refresh every get is answered with its value, whatever its own request would bring |
| TtlCache.RefreshedAfterwards | internal/coreclient/client.go:157-241 | from then on as its own request demands: a new value, the old one or the blank one until two TTLs after the fetch, and the failure after that |
| TtlCache.OneTtlServes | internal/coreclient/client.go:145-155 | in every run, within one TTL of a store no get is answered by a fetch, from the grace period or with an error |
| CoreClient.Client.RefreshRouting | internal/coreclient/client.go:157-223 | the cache and the answer after a refresh, for every outcome of the request; invalid entries are never cached |
| CoreClient.Client.GetRouting | internal/coreclient/client.go:145-155 | the same for a get |
| CoreClient.Client.ResolveRoute | internal/coreclient/client.go:243-260 | the answer is the lookup in what the get returned; the second validity check can be left out of it |
| CoreClient.Client.RefreshPlatformConfig | internal/coreclient/client.go:308-348 | the platform cache and the answer after a refresh |
| CoreClient.Client.GetPlatformConfig | internal/coreclient/client.go:290-300 | the same for a get |
| CoreClient.RoutingServes | internal/coreclient/client.go:145-241 | what routing answers after a refresh: the valid entries for one TTL, then, when the Hub fails, the empty config until two TTLs, then the failure |
| CoreClient.PlatformServes | internal/coreclient/client.go:290-366 | what the platform cache answers: the config for one TTL, then, when the Hub fails or sends no URL, still the config until two TTLs, then the failure |
| CoreClient.RoutingOutcome | internal/coreclient/client.go:145-241 | over all runs an error-free answer is a non-empty config of valid entries at most one TTL old or just fetched, or it is empty after a failed refresh within the grace period |
| CoreClient.RoutingEmptyExactly | internal/coreclient/client.go:169-185 | in every run, a failed refresh answers empty if and only if a non-empty config, all of it valid, is cached and under two TTLs old |
| CoreClient.GraceForgetsModels | internal/coreclient/client.go:177-178 | then every model is unknown |
| CoreClient.GraceServesPlatform | internal/coreclient/client.go:356-366 | where the platform cache serves: in every run, within two TTLs of a successful fetch every get has a config with a URL, whatever the Hub, the network and other operations do, unless its request could not even be made |
| CoreClient.RoutingFreshness | internal/coreclient/client.go:209-222 | when all refreshes succeed, every config returned is one the Hub served within one TTL plus one refresh |
| CoreClient.PlatformOutcome | internal/coreclient/client.go:290-366 | every error-free platform config has a URL and is under two TTLs old or just fetched |
| CoreClient.PlatformFreshness | internal/coreclient/client.go:336-347 | and the Hub served it within two TTLs plus one refresh |
| CoreClient.FirstValidMatch | internal/coreclient/client.go:36-47 | the route found is the first entry of the Hub's own list that has none of its required fields empty and matches by either id, and none is found only if there is none |
| CoreClient.DeliveredEmptyExactly | internal/coreclient/client.go:190-207 | a config that arrives makes routing empty if and only if none of its entries is valid |
| YadManifest.ValidateManifest | internal/yadmanifest/service.go:150-171 | accepts exactly the valid manifests, and otherwise names the first bad entry and the first check it fails |
| YadManifest.EntryExactly | internal/yadmanifest/service.go:155-167 | a valid entry, field by field: a version and a URL that are not white space, a lowest app version, and no digest or one of 64 hexadecimal digits |
| WhiteSpace.BlankExactly | internal/yadmanifest/service.go:155 | trimming leaves nothing if and only if the text is white space only |
| YadManifest.KeyCollisions | internal/yadmanifest/service.go:75 | exactly when two configs share a cache key |
| YadManifest.KeyInjective | internal/yadmanifest/service.go:75 | never, when dates hold no separator |
| YadManifest.FastPathExactly | internal/yadmanifest/service.go:77-83 | exactly when a manifest stored for one config answers for another, with a pair of different URLs |
| YadManifest.Service.CachedOrError | internal/yadmanifest/service.go:110-117 | the stored manifest while under two TTLs old, else an error |
| YadManifest.Service.Get | internal/yadmanifest/service.go:67-108 | both caches and the answer, for every outcome of both requests |
| YadManifest.GetExactly | internal/yadmanifest/service.go:67-148 | when a get succeeds, with which manifest, when it fails as invalid rather than unavailable, and that only a fetched manifest changes what is stored |
| ManifestRuns.StoredManifestIsValid | internal/yadmanifest/service.go:94-100 | in every run the stored manifest is empty or valid, and its URL and key come from the one config it was downloaded for |
| ManifestRuns.AnswersAreValid | internal/yadmanifest/service.go:67-117 | every error-free get is valid and under one TTL old, or two when recalled |
| ManifestRuns.ManifestGrace | internal/yadmanifest/service.go:87-117 | in every run, within two TTLs of a successful download every get is answered with a valid manifest, whatever the Hub, the network and other gets do |
| ManifestRuns.AnswersAreFresh | internal/yadmanifest/service.go:67-117 | it could be downloaded from a URL the Hub had named, within two TTLs and a refresh of each cache; the fast path's comes from the current config's URL when dates hold no separator |
| ManifestRuns.GetIsARun | internal/yadmanifest/service.go:67-108 | an uninterrupted get of both levels is one of those runs |
| ChatRedaction.MergeCategories | internal/handler/chat.go:206-218 | the old list, then the new categories in order of first appearance; a duplicate-free union |
| ChatRedaction.ApplyRedaction | internal/handler/chat.go:189-204 | the messages are rewritten in place as specified, counts add up, and the category list is the duplicate-free union |
| ChatRedaction.RewrittenExactly | internal/handler/chat.go:194-201 | every message's searched string becomes what the engine makes of it, as plain text where there was a hit; without one the message is untouched |
| ChatRedaction.TotalsExactly | internal/handler/chat.go:199-200 | the totals add up the engine's counts and unite its categories, message by message |
| ChatRedaction.OffExactly | internal/handler/chat.go:190-192 | a missing or disabled redactor changes and reports nothing |
| ChatRedaction.RedactionKeepsShape | internal/handler/chat.go:189-204 | number, order and roles of messages stay, messages without hits stay altogether |
| ChatRedaction.RedactedRequestIsClean | internal/handler/chat.go:194-201 | with the default rules, no rewritten message holds a national ID in the string that was searched |
| ChatRedaction.TextKeepsIdExactly | internal/handler/chat.go:194-201 | the text of a rewritten message still holds a national ID if and only if it is structured content whose text held one and whose encoding had no hit |
| ChatRedaction.HitExactly | internal/handler/chat.go:195-197 | with the national-ID rule alone there is a hit if and only if the string searched holds an ID, so the text keeps one if and only if it holds one and its encoding does not |
| ChatRedaction.EscapeHidesId | internal/handler/chat.go:251-259 | structured content for which this is the case |
| ChatHandler.Router.ForwardStream | internal/router/router_stream.go:60-115 | a stream that fails has written nothing; one that begins commits 200 and sends its body |
| ChatHandler.Router.Forward | internal/router/router.go:101-108 | the provider's token counts, or estimates where it gives none |
| ChatHandler.Chat.HandleStream | internal/handler/chat.go:132-163 | the log, the body and the reported usage of a streamed request |
| ChatHandler.Chat.HandleBuffered | internal/handler/chat.go:105-130 | the same for a buffered one, where usage is launched before the answer is written |
| ChatHandler.Chat.Handle | internal/handler/chat.go:33-103 | the log of everything that left the handler, the body with its code, message and details, and the limiter's and redaction's headers, for every outcome of its surroundings |
| ChatProperties.OneResponse | internal/handler/chat.go:33-163 | every request commits exactly one response |
| ChatProperties.ProviderAfterGates | internal/handler/chat.go:40-86 | the provider is called if and only if all gates pass, once, after limiter, body and route, with the redacted messages |
| ChatProperties.IngestOncePerCall | internal/handler/chat.go:105-163 | usage is launched exactly once per call of the provider, after it |
| ChatProperties.StatusAgreesWithUsage | internal/handler/chat.go:165-179 | the reported status and error code agree with the response, with the one exception spelled out |
| ChatProperties.DecisionTable | internal/handler/chat.go:33-86 | each status if and only if its causes |
| ChatProperties.RefusalsExactly | internal/apierr/errors.go:44-84 | each refusal's body names its cause and what the cause was about |
| ChatProperties.AnswersExactly | internal/handler/chat.go:165-172 | after a call of the provider the body is its completion or a problem with the status's code |
| ChatProperties.AskedInOrder | internal/handler/chat.go:34-72 | the limiter is asked first, the body is read exactly of admitted requests, the route table asked exactly about well-formed ones |
| ChatProperties.TiersExactly | internal/router/router.go:17-71 | a tier includes what needs it or a lower one; unknown tiers count as the lowest |
| ChatProperties.HttpTimeoutsExactly | internal/router/router_stream.go:289-294 | of the three-digit statuses of a provider exactly 504 counts as a timeout |
| ChatProperties.StreamBegins | internal/router/router_stream.go:65-115 | a stream begins exactly when the provider can stream, succeeds, and the client can be streamed to |
| ChatProperties.RelayedExactly | internal/router/router_stream.go:117-135 | then the client of an OpenAI stream sees the provider's events |
| ChatProperties.TranslatedExactly | internal/router/router_stream.go:197-239 | and that of an Anthropic stream its texts, under the request's trace id and the model's public name |
| ChatProperties.TokensExactly | internal/router/router.go:101-108 | the tokens reported are the provider's counts where it gives any, else the estimates |
| ChatProperties.ProviderSeesNoNationalId | internal/handler/chat.go:67-99 | every message given to the provider is the engine's output for the decoded one, in its role and place, and clean in the string that was searched; its text holds an ID exactly in the case above |
| ChatProperties.GraceAnswersNotFound | internal/handler/chat.go:72-81 | when an expired routing cache fails to refresh, the answer is 404 exactly within the grace period of a cached config, and 503 otherwise |
| ChatProperties.RetryAfterHeader | internal/handler/chat.go:43 | waiting as told reaches the next window only if the time left was whole seconds; one more second always does |
| Digits.Itoa | internal/apierr/errors.go:108-120 | the canonical numeral, parsed back to the number, with a byte of the buffer to spare |
| Digits.CanonicalUnique | internal/apierr/errors.go:108-120 | a number has only one canonical numeral |
| Digits.Exponent | internal/auth/jwk_rsa.go:20-26 | the fold is the big-endian value of section 6.3.1.2 of RFC 7518, wrapped to 64 bits |
| Digits.ExponentExactly | internal/auth/jwk_rsa.go:20-22 | it is that value exactly below 2^63, congruent to it always, and refused exactly for multiples of 2^64 |

## Left out

- HTTP servers and clients, routing of paths, shutdown, configuration and logging: I/O only.
- JWT checking, base64 and RSA, the JWKS refresh and the health and manifest handlers.
- The JSON codec and the RE2 engine, as said above; the six variable-length default patterns are known by their minimum match lengths only.
- `CostUSD`: floating point, and no decision depends on it.
- `doRequest` and `phoneValid`: no code calls them.
- ChatHandler.Chat.Handle: the limiter, the route table and the provider enter through their answers; what those answers can be is proved in their own modules, and `GraceAnswersNotFound` and `RetryAfterHeader` join them.
- ChatHandler.Chat.Handle: the JSON text of a body is an uninterpreted rendering of its code, message and details.
- RateLimiter.Limiter.Check: counters and limits are unbounded; overflow of the store's 64-bit counters is not modelled.
- RateLimitRuns: the store's own replication and restarts; only its command semantics, expiry included.
- CoreClient.Client.RefreshRouting: error texts; the six kinds of failure are told apart.
- Redaction.Engine.Redact: the order of the category list, which Go leaves to map iteration, is a set here.
- YadManifest.Service.FetchAndValidate: the request itself is one of four outcomes.
